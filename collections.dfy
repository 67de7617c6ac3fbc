/**
 * The pieces of Python's built-ins the scripts use on dicts, sets and lists:
 * iterating a dict's items, summing its values, `max`, and `sorted(..., key=..., reverse=True)`.
 * Python's dict and set iteration order is not modelled: the items come out in some order.
 */
module Collections {

  /** No key occurs twice in a sequence of pairs (as in the items of a dict). */
  predicate DistinctKeys<K(==), V>(s: seq<(K, V)>) {
    forall i, j :: 0 <= i < j < |s| ==> s[i].0 != s[j].0
  }

  /** No element occurs twice. */
  predicate Distinct<T(==)>(s: seq<T>) {
    forall i, j :: 0 <= i < j < |s| ==> s[i] != s[j]
  }

  /** The keys of a sequence of pairs. */
  function KeysOf<K, V>(s: seq<(K, V)>): (ks: set<K>)
    ensures forall i :: 0 <= i < |s| ==> s[i].0 in ks
    ensures forall k :: k in ks ==> exists i :: 0 <= i < |s| && s[i].0 == k
  {
    set i | 0 <= i < |s| :: s[i].0
  }

  /** The keys of a one-longer prefix add the new pair's key. */
  lemma KeysOfExtend<K, V>(pairs: seq<(K, V)>, j: nat)
    requires j < |pairs|
    ensures forall p :: p in KeysOf(pairs[..j + 1]) <==> p in KeysOf(pairs[..j]) || p == pairs[j].0
  {
    assert pairs[..j + 1] == pairs[..j] + [pairs[j]];
    forall p | p in KeysOf(pairs[..j + 1]) ensures p in KeysOf(pairs[..j]) || p == pairs[j].0 {
      var i :| 0 <= i < j + 1 && pairs[..j + 1][i].0 == p;
      if i < j {
        assert pairs[..j][i].0 == p;
      }
    }
    forall p | p in KeysOf(pairs[..j]) ensures p in KeysOf(pairs[..j + 1]) {
      var i :| 0 <= i < j && pairs[..j][i].0 == p;
      assert pairs[..j + 1][i].0 == p;
    }
    assert pairs[..j + 1][j].0 == pairs[j].0;
  }

  /** `items` is `m.items()` in some order: every key exactly once, with its value. */
  ghost predicate IsListing<K, V>(m: map<K, V>, items: seq<(K, V)>) {
    && |items| == |m|
    && DistinctKeys(items)
    && (forall i :: 0 <= i < |items| ==> items[i].0 in m && items[i].1 == m[items[i].0])
    && (forall k :: k in m ==> exists i :: 0 <= i < |items| && items[i].0 == k)
  }

  /** `m.items()`, in some order: every key once, with its value. */
  method MapItems<K(==), V>(m: map<K, V>) returns (items: seq<(K, V)>)
    ensures IsListing(m, items)
  {
    items := [];
    var rest := m.Keys;
    while rest != {}
      invariant rest <= m.Keys
      invariant |items| + |rest| == |m.Keys|
      invariant DistinctKeys(items)
      invariant forall i :: 0 <= i < |items| ==> items[i].0 in m && items[i].0 !in rest && items[i].1 == m[items[i].0]
      invariant forall k :: k in m && k !in rest ==> exists i :: 0 <= i < |items| && items[i].0 == k
      decreases |rest|
    {
      var k :| k in rest;
      var next := items + [(k, m[k])];
      assert next[|items|].0 == k;
      assert forall i :: 0 <= i < |items| ==> next[i] == items[i];
      items := next;
      rest := rest - {k};
    }
  }

  /** A set as a sequence, in some order: every element once. */
  method SetToSeq<T(==)>(s: set<T>) returns (xs: seq<T>)
    ensures |xs| == |s|
    ensures forall i, j :: 0 <= i < j < |xs| ==> xs[i] != xs[j]
    ensures forall x :: x in xs <==> x in s
  {
    xs := [];
    var rest := s;
    while rest != {}
      invariant rest <= s
      invariant |xs| + |rest| == |s|
      invariant forall i, j :: 0 <= i < j < |xs| ==> xs[i] != xs[j]
      invariant forall x :: x in xs <==> x in s && x !in rest
      decreases |rest|
    {
      var x :| x in rest;
      xs := xs + [x];
      rest := rest - {x};
    }
  }

  // ---------------------------------------------------------------------------
  // Sums of dict values

  /** The sum of `m[k]` over the keys `ks`, in whatever order the keys are picked. */
  ghost function SumKeys<K>(m: map<K, real>, ks: set<K>): real
    requires ks <= m.Keys
    decreases |ks|
  {
    if ks == {} then 0.0
    else
      var k :| k in ks;
      m[k] + SumKeys(m, ks - {k})
  }

  /** `sum(m.values())`: real addition is commutative, so the order does not matter. */
  ghost function SumOver<K>(m: map<K, real>): real {
    SumKeys(m, m.Keys)
  }

  /** The sum can be split at any key, whichever one the definition picked. */
  lemma {:induction false} SumKeysRemove<K>(m: map<K, real>, ks: set<K>, k: K)
    requires ks <= m.Keys && k in ks
    ensures SumKeys(m, ks) == m[k] + SumKeys(m, ks - {k})
    decreases |ks|
  {
    var j :| j in ks && SumKeys(m, ks) == m[j] + SumKeys(m, ks - {j});
    if j != k {
      SumKeysRemove(m, ks - {j}, k);
      SumKeysRemove(m, ks - {k}, j);
      assert ks - {j} - {k} == ks - {k} - {j};
    }
  }

  /** Removing a key takes its value out of the sum. */
  lemma SumOverRemove<K>(m: map<K, real>, k: K)
    requires k in m
    ensures SumOver(m) == m[k] + SumOver(m - {k})
  {
    SumKeysRemove(m, m.Keys, k);
    SumKeysSameValues(m, m - {k}, m.Keys - {k});
  }

  /** Adding a new key adds its value to the sum. */
  lemma SumOverInsert<K>(m: map<K, real>, k: K, v: real)
    requires k !in m
    ensures SumOver(m[k := v]) == v + SumOver(m)
  {
    SumOverRemove(m[k := v], k);
    assert m[k := v] - {k} == m;
  }

  /** The sum over `ks` only reads the values at `ks`. */
  lemma {:induction false} SumKeysSameValues<K>(m: map<K, real>, n: map<K, real>, ks: set<K>)
    requires ks <= m.Keys && ks <= n.Keys
    requires forall k :: k in ks ==> m[k] == n[k]
    ensures SumKeys(m, ks) == SumKeys(n, ks)
    decreases |ks|
  {
    if ks != {} {
      var k :| k in ks && SumKeys(m, ks) == m[k] + SumKeys(m, ks - {k});
      SumKeysRemove(n, ks, k);
      SumKeysSameValues(m, n, ks - {k});
    }
  }

  /** Every value in [lo, hi] bounds the sum by |m| * lo and |m| * hi. */
  lemma {:induction false} SumOverBounds<K>(m: map<K, real>, lo: real, hi: real)
    requires forall k :: k in m ==> lo <= m[k] <= hi
    ensures (|m| as real) * lo <= SumOver(m) <= (|m| as real) * hi
    decreases |m|
  {
    if |m| > 0 {
      var k :| k in m;
      SumOverRemove(m, k);
      SumOverBounds(m - {k}, lo, hi);
      assert (m - {k}).Keys == m.Keys - {k};
    }
  }

  /** Sums of non-negative values below per-key bounds: the sum is below the sum of the bounds. */
  lemma {:induction false} SumOverMonotone<K>(m: map<K, real>, b: map<K, real>)
    requires m.Keys == b.Keys
    requires forall k :: k in m ==> 0.0 <= m[k] <= b[k]
    ensures 0.0 <= SumOver(m) <= SumOver(b)
    decreases |m|
  {
    if |m| > 0 {
      var k :| k in m;
      SumOverRemove(m, k);
      SumOverRemove(b, k);
      SumOverMonotone(m - {k}, b - {k});
    }
  }

  /** The loop that `sum(m.values())` stands for. */
  method SumValues<K(==)>(m: map<K, real>) returns (total: real)
    ensures total == SumOver(m)
  {
    total := 0.0;
    var rest := m;
    while rest != map[]
      invariant total + SumOver(rest) == SumOver(m)
      decreases |rest|
    {
      var k :| k in rest;
      SumOverRemove(rest, k);
      total := total + rest[k];
      rest := rest - {k};
    }
  }

  // ---------------------------------------------------------------------------
  // max over a list

  /** `max(xs)`. */
  function MaxOf(xs: seq<int>): (m: int)
    requires |xs| > 0
    ensures m in xs
    ensures forall i :: 0 <= i < |xs| ==> xs[i] <= m
  {
    if |xs| == 1 then xs[0]
    else
      var rest := MaxOf(xs[1..]);
      assert forall i :: 1 <= i < |xs| ==> xs[i] == xs[1..][i - 1];
      if xs[0] >= rest then xs[0] else rest
  }

  /** `min(xs)`. */
  function MinOf(xs: seq<int>): (m: int)
    requires |xs| > 0
    ensures m in xs
    ensures forall i :: 0 <= i < |xs| ==> m <= xs[i]
  {
    if |xs| == 1 then xs[0]
    else
      var rest := MinOf(xs[1..]);
      assert forall i :: 1 <= i < |xs| ==> xs[i] == xs[1..][i - 1];
      if xs[0] <= rest then xs[0] else rest
  }

  /** A non-empty set has a member. */
  lemma SomeMember(s: set<int>)
    requires s != {}
    ensures exists y :: y in s
  {
    if forall y :: y !in s {
      assert false;
    }
  }

  /** The largest element of a finite non-empty set of integers. */
  ghost function SetMax(s: set<int>): (m: int)
    requires s != {}
    ensures m in s && forall x :: x in s ==> x <= m
    decreases |s|
  {
    SomeMember(s);
    var y :| y in s;
    if s == {y} then
      assert forall x :: x in s ==> x == y;
      y
    else
      var hi := SetMax(s - {y});
      assert forall x :: x in s ==> x == y || x in s - {y};
      if y > hi then y else hi
  }

  /** The smallest element of a finite non-empty set of integers. */
  ghost function SetMin(s: set<int>): (m: int)
    requires s != {}
    ensures m in s && forall x :: x in s ==> m <= x
    decreases |s|
  {
    SomeMember(s);
    var y :| y in s;
    if s == {y} then
      assert forall x :: x in s ==> x == y;
      y
    else
      var lo := SetMin(s - {y});
      assert forall x :: x in s ==> x == y || x in s - {y};
      if y < lo then y else lo
  }

  // ---------------------------------------------------------------------------
  // sorted(..., reverse=True)

  predicate StrictlyDecreasing(s: seq<int>) {
    forall i, j :: 0 <= i < j < |s| ==> s[i] > s[j]
  }

  /** `sorted(s, reverse=True)` for a set of integers: the elements, largest first. */
  ghost function SortedDescSet(s: set<int>): (r: seq<int>)
    ensures StrictlyDecreasing(r)
    ensures |r| == |s|
    ensures forall x :: x in r <==> x in s
    decreases |s|
  {
    if s == {} then []
    else
      var m := SetMax(s);
      var rest := SortedDescSet(s - {m});
      [m] + rest
  }

  /** Two strictly decreasing sequences with the same elements are equal. */
  lemma {:induction false} StrictlyDecreasingUnique(a: seq<int>, b: seq<int>)
    requires StrictlyDecreasing(a) && StrictlyDecreasing(b)
    requires forall x :: x in a <==> x in b
    ensures a == b
    decreases |a|
  {
    assert |a| > 0 ==> a[0] in b by {
      if |a| > 0 { assert a[0] in a; }
    }
    assert |b| > 0 ==> b[0] in a by {
      if |b| > 0 { assert b[0] in b; }
    }
    if |a| > 0 && |b| > 0 {
      assert a[0] == b[0] by {
        assert b[0] in a && a[0] in b;
      }
      forall x ensures x in a[1..] <==> x in b[1..] {
        if x in a[1..] {
          var i :| 1 <= i < |a| && a[i] == x;
          assert x < a[0] && x in b;
          var j :| 0 <= j < |b| && b[j] == x;
          assert j != 0;
          assert x in b[1..];
        }
        if x in b[1..] {
          var i :| 1 <= i < |b| && b[i] == x;
          assert x < b[0] && x in a;
          var j :| 0 <= j < |a| && a[j] == x;
          assert j != 0;
          assert x in a[1..];
        }
      }
      StrictlyDecreasingUnique(a[1..], b[1..]);
    }
  }

  /** Non-increasing in `key`. */
  predicate SortedDesc<T>(s: seq<T>, key: T -> real) {
    forall i, j :: 0 <= i < j < |s| ==> key(s[i]) >= key(s[j])
  }

  /** Prepending an element whose key bounds all the others keeps the order. */
  lemma SortedCons<T>(h: T, t: seq<T>, key: T -> real)
    requires SortedDesc(t, key)
    requires forall y :: y in t ==> key(h) >= key(y)
    ensures SortedDesc([h] + t, key)
  {
    var r := [h] + t;
    forall i, j | 0 <= i < j < |r| ensures key(r[i]) >= key(r[j]) {
      assert r[j] == t[j - 1];
      if i > 0 {
        assert r[i] == t[i - 1];
      } else {
        assert t[j - 1] in t;
      }
    }
  }

  /** The head of a sorted sequence bounds every element. */
  lemma SortedHeadBounds<T>(s: seq<T>, key: T -> real)
    requires SortedDesc(s, key) && |s| > 0
    ensures forall y :: y in s ==> key(s[0]) >= key(y)
  {
    forall y | y in s ensures key(s[0]) >= key(y) {
      var i :| 0 <= i < |s| && s[i] == y;
      assert i == 0 || key(s[0]) >= key(s[i]);
    }
  }

  /** The tail of a sorted sequence is sorted. */
  lemma SortedTail<T>(s: seq<T>, key: T -> real)
    requires SortedDesc(s, key) && |s| > 0
    ensures SortedDesc(s[1..], key)
  {
    var tail := s[1..];
    forall i, j | 0 <= i < j < |tail| ensures key(tail[i]) >= key(tail[j]) {
      assert tail[i] == s[i + 1] && tail[j] == s[j + 1];
    }
  }

  /** A bound on `x` and on every element of `s` bounds every element of a permutation of `s` plus `x`. */
  lemma BoundsPermutation<T>(h: T, x: T, s: seq<T>, r: seq<T>, key: T -> real)
    requires key(h) >= key(x)
    requires forall y :: y in s ==> key(h) >= key(y)
    requires multiset(r) == multiset(s) + multiset{x}
    ensures forall y :: y in r ==> key(h) >= key(y)
  {
    forall y | y in r ensures key(h) >= key(y) {
      assert y in multiset(r);
      if y != x {
        assert y in multiset(s);
      }
    }
  }

  /** Places `x` before the first element whose key is smaller, so earlier equal keys stay first. */
  function Insert<T(==)>(x: T, s: seq<T>, key: T -> real): (r: seq<T>)
    requires SortedDesc(s, key)
    ensures SortedDesc(r, key)
    ensures multiset(r) == multiset(s) + multiset{x}
    decreases |s|
  {
    if |s| == 0 then [x]
    else if key(x) >= key(s[0]) then
      SortedHeadBounds(s, key);
      SortedCons(x, s, key);
      [x] + s
    else
      var tail := s[1..];
      SortedTail(s, key);
      SortedHeadBounds(s, key);
      var rest := Insert(x, tail, key);
      BoundsPermutation(s[0], x, tail, rest, key);
      SortedCons(s[0], rest, key);
      assert s == [s[0]] + tail;
      [s[0]] + rest
  }

  /** `sorted(s, key=key, reverse=True)`: a non-increasing permutation of `s`. */
  function SortByKeyDesc<T(==)>(s: seq<T>, key: T -> real): (r: seq<T>)
    ensures SortedDesc(r, key)
    ensures multiset(r) == multiset(s)
  {
    if |s| == 0 then []
    else
      assert s == [s[0]] + s[1..];
      Insert(s[0], SortByKeyDesc(s[1..], key), key)
  }

  /** The key that sorts integers by value. */
  function IntKey(x: int): real {
    x as real
  }

  lemma {:induction false} DistinctCount<T>(s: seq<T>, x: T)
    requires forall i, j :: 0 <= i < j < |s| ==> s[i] != s[j]
    ensures multiset(s)[x] <= 1
    decreases |s|
  {
    if |s| > 0 {
      var init := s[..|s| - 1];
      assert s == init + [s[|s| - 1]];
      DistinctCount(init, x);
      assert s[|s| - 1] !in init by {
        forall i | 0 <= i < |init| ensures init[i] != s[|s| - 1] {
          assert init[i] == s[i];
        }
      }
    }
  }

  /** Sorting distinct integers largest first gives a strictly decreasing sequence. */
  lemma SortedDistinctIsStrict(a: seq<int>, b: seq<int>)
    requires forall i, j :: 0 <= i < j < |a| ==> a[i] != a[j]
    requires multiset(a) == multiset(b) && SortedDesc(b, IntKey)
    ensures StrictlyDecreasing(b)
  {
    forall i, j | 0 <= i < j < |b| ensures b[i] > b[j] {
      assert b == b[..j] + b[j..];
      assert b[i] == b[..j][i] && b[j] == b[j..][0];
      assert multiset(b[..j])[b[i]] >= 1 && multiset(b[j..])[b[j]] >= 1;
      DistinctCount(a, b[i]);
    }
  }

  /** Sorting the elements of a set, listed once each, largest first gives `SortedDescSet`. */
  lemma SortedSetElements(keys: seq<int>, s: set<int>)
    requires forall i, j :: 0 <= i < j < |keys| ==> keys[i] != keys[j]
    requires forall x :: x in keys <==> x in s
    ensures SortByKeyDesc(keys, IntKey) == SortedDescSet(s)
  {
    var nrs := SortByKeyDesc(keys, IntKey);
    SortedDistinctIsStrict(keys, nrs);
    forall x ensures x in nrs <==> x in s {
      assert x in nrs <==> x in multiset(nrs);
      assert x in keys <==> x in multiset(keys);
    }
    StrictlyDecreasingUnique(nrs, SortedDescSet(s));
  }
  /** `sorted(s, reverse=True)` for a set of integers, computed. */
  method SortSetDesc(s: set<int>) returns (r: seq<int>)
    ensures r == SortedDescSet(s)
  {
    var keys := SetToSeq(s);
    r := SortByKeyDesc(keys, IntKey);
    SortedSetElements(keys, s);
  }


  /** The first components of a list of pairs. */
  function Firsts<K, V>(s: seq<(K, V)>): (r: seq<K>)
    ensures |r| == |s|
    ensures forall i :: 0 <= i < |s| ==> r[i] == s[i].0
  {
    if |s| == 0 then [] else [s[0].0] + Firsts(s[1..])
  }

  /** The second components of a sequence of pairs (`d.values()` after `d.items()`). */
  function Seconds<K, V>(s: seq<(K, V)>): (r: seq<V>)
    ensures |r| == |s|
    ensures forall i :: 0 <= i < |s| ==> r[i] == s[i].1
  {
    if |s| == 0 then [] else [s[0].1] + Seconds(s[1..])
  }

  /**
   * A permutation of a list of pairs with distinct keys lists the same keys once
   * each, and each of its pairs is one of the original pairs.
   */
  lemma PermutedFirsts<K, V>(rows: seq<(K, V)>, sorted: seq<(K, V)>)
    requires DistinctKeys(rows) && multiset(rows) == multiset(sorted)
    ensures |Firsts(sorted)| == |rows|
    ensures forall i, j :: 0 <= i < j < |sorted| ==> Firsts(sorted)[i] != Firsts(sorted)[j]
    ensures forall k :: 0 <= k < |rows| ==> rows[k] in sorted
    ensures forall m :: 0 <= m < |sorted| ==> sorted[m] in rows
  {
    assert |sorted| == |multiset(sorted)|;
    assert |rows| == |multiset(rows)|;
    PermutationKeepsDistinctKeys(rows, sorted);
    forall m | 0 <= m < |sorted| ensures sorted[m] in rows {
      assert sorted[m] in multiset(sorted);
    }
    forall k | 0 <= k < |rows| ensures rows[k] in sorted {
      assert rows[k] in multiset(rows);
    }
  }

  lemma {:induction false} DistinctKeysCount<K, V>(s: seq<(K, V)>, x: (K, V))
    requires DistinctKeys(s)
    ensures multiset(s)[x] <= 1
    decreases |s|
  {
    if |s| > 0 {
      var init := s[..|s| - 1];
      assert s == init + [s[|s| - 1]];
      DistinctKeysCount(init, x);
      assert s[|s| - 1] == x ==> x !in init by {
        forall i | 0 <= i < |init| ensures init[i].0 != s[|s| - 1].0 {
          assert init[i] == s[i];
        }
      }
    }
  }

  /** Reordering a sequence of pairs keeps its keys distinct. */
  lemma PermutationKeepsDistinctKeys<K, V>(a: seq<(K, V)>, b: seq<(K, V)>)
    requires multiset(a) == multiset(b)
    requires DistinctKeys(a)
    ensures DistinctKeys(b)
  {
    forall i, j | 0 <= i < j < |b| ensures b[i].0 != b[j].0 {
      assert b == b[..i] + [b[i]] + b[i + 1..j] + [b[j]] + b[j + 1..];
      DistinctKeysCount(a, b[i]);
      assert b[i] != b[j];
      assert b[i] in multiset(a) && b[j] in multiset(a);
      var p :| 0 <= p < |a| && a[p] == b[i];
      var q :| 0 <= q < |a| && a[q] == b[j];
      assert p != q;
    }
  }

  /** Reordering a sequence keeps its set of keys. */
  lemma PermutationKeepsKeys<K, V>(a: seq<(K, V)>, b: seq<(K, V)>)
    requires multiset(a) == multiset(b)
    ensures KeysOf(a) == KeysOf(b)
    ensures forall x :: x in a <==> x in b
  {
    forall x ensures x in a <==> x in b {
      assert x in a <==> x in multiset(a);
      assert x in b <==> x in multiset(b);
    }
    forall k | k in KeysOf(a) ensures k in KeysOf(b) {
      var i :| 0 <= i < |a| && a[i].0 == k;
      assert a[i] in b;
    }
    forall k | k in KeysOf(b) ensures k in KeysOf(a) {
      var i :| 0 <= i < |b| && b[i].0 == k;
      assert b[i] in a;
    }
  }

  /** `sorted(m.items(), key=..., reverse=True)`: every key once, with its value, largest key first. */
  method SortedItems<K(==), V(==)>(m: map<K, V>, key: ((K, V)) -> real) returns (sorted: seq<(K, V)>)
    ensures |sorted| == |m|
    ensures DistinctKeys(sorted)
    ensures forall i :: 0 <= i < |sorted| ==> sorted[i].0 in m && sorted[i].1 == m[sorted[i].0]
    ensures forall k :: k in m ==> k in KeysOf(sorted)
    ensures SortedDesc(sorted, key)
  {
    var items := MapItems(m);
    sorted := SortByKeyDesc(items, key);
    PermutedFirsts(items, sorted);
    PermutationKeepsKeys(items, sorted);
    ItemsOfMap(m, items, sorted);
  }

  /** A reordering of a map's items still pairs each key with its value and lists every key. */
  lemma ItemsOfMap<K, V>(m: map<K, V>, items: seq<(K, V)>, sorted: seq<(K, V)>)
    requires forall i :: 0 <= i < |items| ==> items[i].0 in m && items[i].1 == m[items[i].0]
    requires forall k :: k in m ==> exists i :: 0 <= i < |items| && items[i].0 == k
    requires forall x :: x in items <==> x in sorted
    ensures forall i :: 0 <= i < |sorted| ==> sorted[i].0 in m && sorted[i].1 == m[sorted[i].0]
    ensures forall k :: k in m ==> k in KeysOf(sorted)
  {
    forall i | 0 <= i < |sorted| ensures sorted[i].0 in m && sorted[i].1 == m[sorted[i].0] {
      assert sorted[i] in items;
    }
    forall k | k in m ensures k in KeysOf(sorted) {
      var i :| 0 <= i < |items| && items[i].0 == k;
      assert items[i] in sorted;
    }
  }

  /** `vs` is `m.values()` in some order: the value of every key, as often as there are keys holding it. */
  ghost predicate ListsValues<K(!new), V(!new)>(m: map<K, V>, vs: seq<V>) {
    exists items :: IsListing(m, items) && multiset(vs) == multiset(Seconds(items))
  }

  /** A listing of the values of a map has one element per key, and holds exactly the map's values. */
  lemma ListedValues<K(!new), V(!new)>(m: map<K, V>, vs: seq<V>)
    requires ListsValues(m, vs)
    ensures |vs| == |m|
    ensures forall x :: x in vs <==> x in m.Values
  {
    var items :| IsListing(m, items) && multiset(vs) == multiset(Seconds(items));
    MapValuesListed(m, items, vs);
    forall x | x in m.Values ensures x in vs {
      var k :| k in m && m[k] == x;
    }
  }

  /** A reordering of the values of a map's items lists every value of the map, and nothing else. */
  lemma MapValuesListed<K, V>(m: map<K, V>, items: seq<(K, V)>, sorted: seq<V>)
    requires |items| == |m|
    requires forall i :: 0 <= i < |items| ==> items[i].0 in m && items[i].1 == m[items[i].0]
    requires forall k :: k in m ==> exists i :: 0 <= i < |items| && items[i].0 == k
    requires multiset(sorted) == multiset(Seconds(items))
    ensures |sorted| == |m|
    ensures forall i :: 0 <= i < |sorted| ==> sorted[i] in m.Values
    ensures forall k :: k in m ==> m[k] in sorted
  {
    var values := Seconds(items);
    assert |sorted| == |multiset(sorted)| == |multiset(values)| == |values|;
    forall i | 0 <= i < |sorted| ensures sorted[i] in m.Values {
      assert sorted[i] in multiset(values);
      var k :| 0 <= k < |values| && values[k] == sorted[i];
      assert m[items[k].0] == sorted[i];
    }
    forall k | k in m ensures m[k] in sorted {
      var i :| 0 <= i < |items| && items[i].0 == k;
      assert values[i] in multiset(sorted);
    }
  }
}
