/**
 * The string operations the scripts rely on: the `in` substring test,
 * `str.replace(c, '')`, `str(int)`, `int(str)` and `sep.join(...)`.
 */
module Text {
  import opened Wrappers

  predicate IsDigit(c: char) {
    '0' <= c <= '9'
  }

  /** The class `[A-Za-z0-9]` of the link-name regular expressions. */
  predicate IsAsciiAlnum(c: char) {
    'A' <= c <= 'Z' || 'a' <= c <= 'z' || IsDigit(c)
  }

  /** `sub` occurs in `s` at position `i`. */
  ghost predicate OccursAt(s: string, sub: string, i: int) {
    0 <= i <= |s| - |sub| && s[i..i + |sub|] == sub
  }

  /** Python's `sub in s`: the empty string occurs in every string. */
  function Contains(s: string, sub: string): (b: bool)
    ensures b <==> exists i :: OccursAt(s, sub, i)
    decreases |s|
  {
    if |sub| > |s| then false
    else if s[..|sub|] == sub then
      assert OccursAt(s, sub, 0);
      true
    else
      var rest := Contains(s[1..], sub);
      assert rest ==> exists i :: OccursAt(s, sub, i) by {
        if rest {
          var j :| OccursAt(s[1..], sub, j);
          assert s[1..][j..j + |sub|] == s[j + 1..j + 1 + |sub|];
          assert OccursAt(s, sub, j + 1);
        }
      }
      assert (exists i :: OccursAt(s, sub, i)) ==> rest by {
        if exists i :: OccursAt(s, sub, i) {
          var i :| OccursAt(s, sub, i);
          assert i != 0;
          assert s[1..][i - 1..i - 1 + |sub|] == s[i..i + |sub|];
          assert OccursAt(s[1..], sub, i - 1);
        }
      }
      rest
  }

  /** Some word of `words` is a substring of `s` (the keyword loops of the filters). */
  predicate ContainsAny(s: string, words: seq<string>) {
    exists w :: w in words && Contains(s, w)
  }

  /** `s.replace(c, '')`. */
  function RemoveAll(s: string, c: char): (r: string)
    ensures c !in r
    ensures forall x :: x != c ==> (x in r <==> x in s)
    ensures c !in s ==> r == s
    ensures |r| <= |s|
  {
    if |s| == 0 then ""
    else if s[0] == c then RemoveAll(s[1..], c)
    else [s[0]] + RemoveAll(s[1..], c)
  }

  /** `replace` drops every occurrence of `c` and keeps every other character as often as it occurs. */
  lemma {:induction false} RemoveAllCount(s: string, c: char)
    ensures multiset(RemoveAll(s, c)) == multiset(s)[c := 0]
  {
    if |s| > 0 {
      assert s == [s[0]] + s[1..];
      RemoveAllCount(s[1..], c);
    }
  }

  /** Removing works piece by piece, so the kept characters stay in their order. */
  lemma {:induction false} RemoveAllAppend(a: string, b: string, c: char)
    ensures RemoveAll(a + b, c) == RemoveAll(a, c) + RemoveAll(b, c)
  {
    if |a| == 0 {
      assert a + b == b;
    } else {
      assert (a + b)[1..] == a[1..] + b;
      RemoveAllAppend(a[1..], b, c);
    }
  }

  function DigitChar(d: nat): (c: char)
    requires d < 10
    ensures IsDigit(c)
  {
    (('0' as int) + d) as char
  }

  function DigitValue(c: char): (d: nat)
    requires IsDigit(c)
    ensures d < 10 && DigitChar(d) == c
  {
    (c as int) - ('0' as int)
  }

  predicate AllDigits(s: string) {
    forall i :: 0 <= i < |s| ==> IsDigit(s[i])
  }

  /** The decimal value of a string of digits, most significant first. */
  function DigitsValue(s: string): nat
    requires AllDigits(s)
  {
    if |s| == 0 then 0 else 10 * DigitsValue(s[..|s| - 1]) + DigitValue(s[|s| - 1])
  }

  /** `str(n)` for `n >= 0`: no leading zero except for 0 itself. */
  function NatToString(n: nat): (s: string)
    ensures |s| > 0 && AllDigits(s)
    ensures s[0] == '0' ==> n == 0
  {
    if n < 10 then [DigitChar(n)] else NatToString(n / 10) + [DigitChar(n % 10)]
  }

  /** `str(n)`. */
  function IntToString(n: int): (s: string)
    ensures |s| > 0
    ensures n < 0 <==> s[0] == '-'
  {
    if n < 0 then "-" + NatToString(-n) else NatToString(n)
  }

  /**
   * `int(s)` on an already stripped string: an optional sign followed by one
   * or more decimal digits; anything else is the `ValueError` case (None).
   */
  function ParseInt(s: string): (r: Option<int>)
    ensures r.Some? ==> |s| > 0
    ensures r.Some? && r.value < 0 ==> s[0] == '-'
  {
    if |s| > 0 && (s[0] == '-' || s[0] == '+') then
      var digits := s[1..];
      if |digits| > 0 && AllDigits(digits) then
        Some(if s[0] == '-' then -(DigitsValue(digits) as int) else DigitsValue(digits))
      else None
    else if |s| > 0 && AllDigits(s) then Some(DigitsValue(s))
    else None
  }

  /** The three digits of a group after a thousands separator, with leading zeros. */
  function ThreeDigits(k: nat): (s: string)
    requires k < 1000
    ensures |s| == 3 && AllDigits(s)
  {
    [DigitChar(k / 100), DigitChar(k / 10 % 10), DigitChar(k % 10)]
  }

  /** `f"{n:,}"` for `n >= 0`: the decimal digits in groups of three, separated by commas. */
  function GroupedNat(n: nat): (s: string)
    ensures |s| > 0 && s[0] != '-' && s[0] != '+'
  {
    if n < 1000 then NatToString(n) else GroupedNat(n / 1000) + "," + ThreeDigits(n % 1000)
  }

  /** `f"{n:,}"`: how the leaderboards print a score, such as "-1,234,567". */
  function Grouped(n: int): string {
    if n < 0 then "-" + GroupedNat(-n) else GroupedNat(n)
  }

  /** `sep.join(parts)`. */
  function Join(parts: seq<string>, sep: string): string {
    if |parts| == 0 then ""
    else if |parts| == 1 then parts[0]
    else parts[0] + sep + Join(parts[1..], sep)
  }

  lemma {:induction false} DigitsValueOfNatToString(n: nat)
    ensures DigitsValue(NatToString(n)) == n
  {
    if n >= 10 {
      DigitsValueOfNatToString(n / 10);
      var s := NatToString(n);
      assert s[..|s| - 1] == NatToString(n / 10);
    }
  }

  /** `int(str(n)) == n`: printing and parsing an integer round-trip. */
  lemma ParseIntOfIntToString(n: int)
    ensures ParseInt(IntToString(n)) == Some(n)
  {
    if n < 0 {
      var digits := NatToString(-n);
      DigitsValueOfNatToString(-n);
      assert IntToString(n) == "-" + digits;
      assert ("-" + digits)[1..] == digits;
    } else {
      DigitsValueOfNatToString(n);
    }
  }

  /** A string with a character that is neither a digit nor a leading sign does not parse. */
  lemma ParseIntRejectsNonDigit(s: string, i: int)
    requires 0 <= i < |s| && !IsDigit(s[i])
    requires i > 0 || (s[0] != '-' && s[0] != '+')
    ensures ParseInt(s).None?
  {
    if |s| > 0 && (s[0] == '-' || s[0] == '+') {
      assert s[1..][i - 1] == s[i];
    }
  }

  lemma DigitsValueOfThreeDigits(k: nat)
    requires k < 1000
    ensures DigitsValue(ThreeDigits(k)) == k
  {
    var s := ThreeDigits(k);
    var a, b, c := k / 100, k / 10 % 10, k % 10;
    assert k / 10 == 10 * a + b by {
      assert k / 10 / 10 == a;
    }
    assert s[..2][..1] == [s[0]] && s[..2] == [s[0], s[1]];
    assert [s[0]][..0] == "";
    assert DigitValue(s[0]) == a && DigitValue(s[1]) == b && DigitValue(s[2]) == c;
    assert DigitsValue(s[..2][..1]) == a;
    assert DigitsValue(s[..2]) == 10 * a + b;
  }

  /** Appending a group of three digits multiplies the value in front by a thousand. */
  lemma DigitsValueOfGroup(a: string, g: string)
    requires AllDigits(a) && AllDigits(g) && |g| == 3
    ensures AllDigits(a + g)
    ensures DigitsValue(a + g) == 1000 * DigitsValue(a) + DigitsValue(g)
  {
    var s := a + g;
    assert AllDigits(s) by {
      forall i | 0 <= i < |s| ensures IsDigit(s[i]) {
        if i >= |a| {
          assert s[i] == g[i - |a|];
        }
      }
    }
    var s1, s2 := a + g[..1], a + g[..2];
    assert s[..|s| - 1] == s2 && s2[..|s2| - 1] == s1 && s1[..|s1| - 1] == a;
    assert g[..2][..1] == g[..1] && g[..1][..0] == "";
    var v, x, y, z := DigitsValue(a), DigitValue(g[0]), DigitValue(g[1]), DigitValue(g[2]);
    assert DigitsValue(s1) == 10 * v + x;
    assert DigitsValue(s2) == 100 * v + 10 * x + y;
    assert DigitsValue(s) == 1000 * v + 100 * x + 10 * y + z;
    assert DigitsValue(g[..1]) == x;
    assert DigitsValue(g[..2]) == 10 * x + y;
    assert DigitsValue(g) == 100 * x + 10 * y + z;
  }

  /** Dropping the commas of a grouped number leaves its decimal digits. */
  lemma {:induction false} UngroupedDigits(n: nat)
    ensures var s := RemoveAll(GroupedNat(n), ',');
      |s| > 0 && AllDigits(s) && DigitsValue(s) == n
  {
    if n < 1000 {
      DigitsValueOfNatToString(n);
    } else {
      var head := GroupedNat(n / 1000);
      var group := ThreeDigits(n % 1000);
      UngroupedDigits(n / 1000);
      RemoveAllAppend(head + ",", group, ',');
      RemoveAllAppend(head, ",", ',');
      assert RemoveAll(",", ',') == "";
      assert ',' !in group;
      assert RemoveAll(GroupedNat(n), ',') == RemoveAll(head, ',') + group;
      DigitsValueOfGroup(RemoveAll(head, ','), group);
      DigitsValueOfThreeDigits(n % 1000);
    }
  }

  /** A string of digits, with or without a minus sign in front, is read as its decimal value. */
  lemma ParseIntOfDigits(digits: string)
    requires |digits| > 0 && AllDigits(digits)
    ensures ParseInt(digits) == Some(DigitsValue(digits) as int)
    ensures ParseInt("-" + digits) == Some(-(DigitsValue(digits) as int))
  {
    assert IsDigit(digits[0]);
    var s := "-" + digits;
    assert s[0] == '-' && s[1..] == digits;
  }

  /** `int(f"{n:,}".replace(',', '')) == n`: a comma-grouped number reads back once its commas are dropped. */
  lemma ParseIntOfGrouped(n: int)
    ensures ParseInt(RemoveAll(Grouped(n), ',')) == Some(n)
  {
    var m: nat := if n < 0 then -n else n;
    var digits := RemoveAll(GroupedNat(m), ',');
    UngroupedDigits(m);
    ParseIntOfDigits(digits);
    if n < 0 {
      RemoveAllAppend("-", GroupedNat(m), ',');
      assert RemoveAll("-", ',') == "-";
    }
  }

  lemma DropSeparators()
    ensures RemoveAll("1,234", ',') == "1234"
  {
    assert "1,234"[1..] == ",234" && ",234"[1..] == "234";
    assert RemoveAll("234", ',') == "234";
  }

  lemma DigitsOf1234()
    ensures ParseInt("1234") == Some(1234)
  {
    assert "1234"[..3] == "123" && "123"[..2] == "12" && "12"[..1] == "1" && "1"[..0] == "";
    assert DigitsValue("12") == 12;
    assert DigitsValue("1234") == 1234;
  }

  /** The thousands separators of a leaderboard cell: `int("1,234".replace(',', ''))` is 1234. */
  lemma ThousandsSeparatorExample()
    ensures ParseInt(RemoveAll("1,234", ',')) == Some(1234)
  {
    DropSeparators();
    DigitsOf1234();
  }

  /** An occurrence inside `s` is still one once text is put around `s`. */
  lemma OccursInContext(a: string, s: string, b: string, sub: string, q: int)
    requires OccursAt(s, sub, q)
    ensures OccursAt(a + s + b, sub, |a| + q)
  {
    assert (a + s + b)[|a| + q..|a| + q + |sub|] == s[q..q + |sub|];
  }

  /** Every part occurs in `sep.join(parts)`. */
  lemma {:induction false} JoinHoldsParts(parts: seq<string>, sep: string, i: int)
    requires 0 <= i < |parts|
    ensures Contains(Join(parts, sep), parts[i])
  {
    var joined := Join(parts, sep);
    if |parts| == 1 {
      assert OccursAt(joined, parts[0], 0);
    } else if i == 0 {
      assert joined == parts[0] + (sep + Join(parts[1..], sep));
      assert OccursAt(joined, parts[0], 0);
    } else {
      JoinHoldsParts(parts[1..], sep, i - 1);
      var q :| OccursAt(Join(parts[1..], sep), parts[i], q);
      OccursInContext(parts[0] + sep, Join(parts[1..], sep), "", parts[i], q);
      assert joined == parts[0] + sep + Join(parts[1..], sep) + "";
    }
  }
}
