/**
 * The round table of `config.py`: which rule-set version is pinned to each
 * technical round id, the id list in descending order with its last-N windows,
 * and the mapping from a technical id to the public round number.
 */
module Config {
  import opened Collections

  /** The six scoring rule sets; the JSON documents behind them are not part of this model. */
  datatype RuleVersion = V1 | V2 | V3 | V4 | V5 | V6 {
    function Number(): nat {
      match this
      case V1 => 1
      case V2 => 2
      case V3 => 3
      case V4 => 4
      case V5 => 5
      case V6 => 6
    }
  }

  /** `ALL_BLOP_ROUNDS`: technical round id to pinned rule-set version. */
  const AllBlopRounds: map<int, RuleVersion> := map[
    69 := V6, 67 := V5, 66 := V4, 64 := V4, 63 := V4, 61 := V4, 60 := V4, 58 := V4,
    56 := V3, 54 := V2, 52 := V2, 51 := V1, 49 := V1, 48 := V1, 47 := V1, 45 := V1,
    44 := V1, 42 := V1, 41 := V1, 39 := V1, 38 := V1, 36 := V1, 35 := V1, 33 := V1,
    30 := V1, 28 := V1, 26 := V1]

  /** `ALL_ROUNDS = sorted(ALL_BLOP_ROUNDS.keys(), reverse=True)`, written out. */
  const AllRounds: seq<int> := [
    69, 67, 66, 64, 63, 61, 60, 58, 56, 54, 52, 51, 49, 48,
    47, 45, 44, 42, 41, 39, 38, 36, 35, 33, 30, 28, 26]

  const LastRound: int := AllRounds[0]
  const LastFiveRounds: seq<int> := AllRounds[..5]
  const LastTenRounds: seq<int> := AllRounds[..10]

  function Reverse<T>(s: seq<T>): (r: seq<T>)
    ensures |r| == |s|
    ensures forall i :: 0 <= i < |s| ==> r[i] == s[|s| - 1 - i]
  {
    if |s| == 0 then [] else Reverse(s[1..]) + [s[0]]
  }

  /** `s.index(x)`: the first position of `x`. */
  function IndexOf(s: seq<int>, x: int): (i: nat)
    requires x in s
    ensures i < |s| && s[i] == x
    ensures forall j :: 0 <= j < i ==> s[j] != x
  {
    if s[0] == x then 0 else 1 + IndexOf(s[1..], x)
  }

  /** The round ids smaller than `roundId`. */
  function RoundsBefore(roundId: int): set<int> {
    set r | r in AllRounds && r < roundId
  }

  /**
   * `round_number_of_round_id`: `20 + ALL_ROUNDS[::-1].index(round_id)`, the
   * position of the id counted from the end of `ALL_ROUNDS` (the ids are distinct,
   * see RoundNumberIsReversedIndex). The public number counts the known rounds
   * before this one, starting at 20; an id that is not in the table is the
   * `ValueError` case, excluded here.
   */
  function RoundNumberOfRoundId(roundId: int): (n: int)
    requires roundId in AllRounds
    ensures 20 <= n < 20 + |AllRounds|
    ensures n == 20 + |RoundsBefore(roundId)|
  {
    AllRoundsDecreasing();
    AscendingIndexCounts(AllRounds, roundId);
    IndexInReverse(AllRounds, IndexOf(AllRounds, roundId));
    20 + (|AllRounds| - 1 - IndexOf(AllRounds, roundId))
  }

  /** The number is 20 plus the id's index in the reversed list, exactly as the source computes it. */
  lemma RoundNumberIsReversedIndex(roundId: int)
    requires roundId in AllRounds
    ensures roundId in Reverse(AllRounds)
    ensures RoundNumberOfRoundId(roundId) == 20 + IndexOf(Reverse(AllRounds), roundId)
  {
    AllRoundsDecreasing();
    IndexInReverse(AllRounds, IndexOf(AllRounds, roundId));
  }

  lemma AllRoundsDecreasing()
    ensures StrictlyDecreasing(AllRounds)
  {
  }

  /** In a strictly decreasing sequence, the position of `x` in the reversed sequence counts the elements below `x`. */
  lemma AscendingIndexCounts(s: seq<int>, x: int)
    requires StrictlyDecreasing(s) && x in s
    ensures x in Reverse(s)
    ensures IndexOf(Reverse(s), x) == |set r | r in s && r < x|
  {
    var ascending := Reverse(s);
    var k :| 0 <= k < |s| && s[k] == x;
    assert ascending[|s| - 1 - k] == x;
    var i := IndexOf(ascending, x);
    SameElements(s);
    CountBefore(ascending, i);
    assert (set r | r in s && r < x) == set r | r in ascending && r < ascending[i];
  }

  lemma SameElements(s: seq<int>)
    ensures forall r :: r in s <==> r in Reverse(s)
  {
    var t := Reverse(s);
    forall r | r in s ensures r in t {
      var k :| 0 <= k < |s| && s[k] == r;
      assert t[|s| - 1 - k] == r;
    }
    forall r | r in t ensures r in s {
      var k :| 0 <= k < |t| && t[k] == r;
      assert s[|s| - 1 - k] == r;
    }
  }

  predicate StrictlyIncreasing(s: seq<int>) {
    forall i, j :: 0 <= i < j < |s| ==> s[i] < s[j]
  }

  /** In a strictly increasing sequence, the position of an element counts the elements below it. */
  lemma {:induction false} CountBefore(s: seq<int>, i: nat)
    requires StrictlyIncreasing(s) && i < |s|
    ensures |set r | r in s && r < s[i]| == i
  {
    if i == 0 {
      assert (set r | r in s && r < s[0]) == {};
    } else {
      CountBefore(s, i - 1);
      var below, lower := set r | r in s && r < s[i], set r | r in s && r < s[i - 1];
      assert below == lower + {s[i - 1]};
      assert s[i - 1] !in lower;
    }
  }

  /** `ALL_ROUNDS` is the key set of `ALL_BLOP_ROUNDS`, largest first, and `LAST_ROUND` is 69. */
  lemma AllRoundsAreSortedKeys()
    ensures StrictlyDecreasing(AllRounds)
    ensures forall r :: r in AllRounds <==> r in AllBlopRounds
    ensures AllRounds == SortedDescSet(AllBlopRounds.Keys)
    ensures LastRound == 69
    ensures forall r :: r in AllBlopRounds ==> r <= LastRound
  {
    AllRoundsDecreasing();
    AllRoundsAreKeys();
    StrictlyDecreasingUnique(AllRounds, SortedDescSet(AllBlopRounds.Keys));
  }

  lemma AllRoundsAreKeys()
    ensures forall r :: r in AllRounds <==> r in AllBlopRounds
  {
  }

  /** `LAST_FIVE_ROUNDS` and `LAST_TEN_ROUNDS` are the five and ten largest ids. */
  lemma LastWindowsAreLargest()
    ensures |LastFiveRounds| == 5 && |LastTenRounds| == 10
    ensures forall r, s :: r in LastFiveRounds && s in AllRounds && s !in LastFiveRounds ==> r > s
    ensures forall r, s :: r in LastTenRounds && s in AllRounds && s !in LastTenRounds ==> r > s
    ensures LastFiveRounds == LastTenRounds[..5]
  {
    AllRoundsDecreasing();
    PrefixHoldsLargest(AllRounds, 5);
    PrefixHoldsLargest(AllRounds, 10);
  }

  /** The first `n` elements of a strictly decreasing sequence exceed all the others. */
  lemma PrefixHoldsLargest(s: seq<int>, n: nat)
    requires StrictlyDecreasing(s) && n <= |s|
    ensures forall r, t :: r in s[..n] && t in s && t !in s[..n] ==> r > t
  {
    forall r, t | r in s[..n] && t in s && t !in s[..n] ensures r > t {
      var i :| 0 <= i < n && s[..n][i] == r;
      var j :| 0 <= j < |s| && s[j] == t;
    }
  }

  /** In a strictly decreasing sequence, `s[k]` sits at position |s| - 1 - k of the reversed sequence. */
  lemma IndexInReverse(s: seq<int>, k: nat)
    requires StrictlyDecreasing(s) && k < |s|
    ensures s[k] in Reverse(s)
    ensures IndexOf(Reverse(s), s[k]) == |s| - 1 - k
  {
    var t := Reverse(s);
    assert t[|s| - 1 - k] == s[k];
    var i := IndexOf(t, s[k]);
    assert t[i] == s[|s| - 1 - i];
  }

  /** The id at position k of `ALL_ROUNDS` is public round 20 + |ALL_ROUNDS| - 1 - k. */
  lemma RoundNumberAt(k: nat)
    requires k < |AllRounds|
    ensures RoundNumberOfRoundId(AllRounds[k]) == 20 + |AllRounds| - 1 - k
  {
    AllRoundsDecreasing();
    IndexInReverse(AllRounds, k);
  }

  /** A later round id always gets a larger public round number. */
  lemma RoundNumberStrictlyIncreasing(a: int, b: int)
    requires a in AllRounds && b in AllRounds && a < b
    ensures RoundNumberOfRoundId(a) < RoundNumberOfRoundId(b)
  {
    AllRoundsDecreasing();
    var i, j := IndexOf(AllRounds, a), IndexOf(AllRounds, b);
    RoundNumberAt(i);
    RoundNumberAt(j);
  }

  /** Every public number from 20 to 20 + |ALL_ROUNDS| - 1 belongs to a round id. */
  lemma RoundNumberOnto(n: int)
    requires 20 <= n < 20 + |AllRounds|
    ensures exists r :: r in AllRounds && RoundNumberOfRoundId(r) == n
  {
    var k := |AllRounds| - 1 - (n - 20);
    RoundNumberAt(k);
  }

  /**
   * The public round numbers written next to the table (69 is round 46 down to 61,
   * round 41), in the rushrankings docstring (51 is round 35, 52 is round 36),
   * and the oldest id, 26, which is round 20.
   */
  const DocumentedRoundNumbers: seq<(int, int)> :=
    [(69, 46), (67, 45), (66, 44), (64, 43), (63, 42), (61, 41), (52, 36), (51, 35), (26, 20)]

  lemma RoundNumberDocumentedValues()
    ensures forall i :: 0 <= i < |DocumentedRoundNumbers| ==>
      var (roundId, number) := DocumentedRoundNumbers[i];
      roundId in AllRounds && RoundNumberOfRoundId(roundId) == number
  {
    forall i | 0 <= i < |DocumentedRoundNumbers|
      ensures var (roundId, number) := DocumentedRoundNumbers[i];
        roundId in AllRounds && RoundNumberOfRoundId(roundId) == number
    {
      var (roundId, number) := DocumentedRoundNumbers[i];
      assert AllRounds[46 - number] == roundId;
      RoundNumberAt(46 - number);
    }
  }

  /** The version pinned to a round id, by threshold. */
  function VersionFromThresholds(roundId: int): RuleVersion {
    if roundId <= 51 then V1
    else if roundId <= 54 then V2
    else if roundId <= 56 then V3
    else if roundId <= 66 then V4
    else if roundId <= 67 then V5
    else V6
  }

  /** The table pins v1 up to 51, v2 to 52 and 54, v3 to 56, v4 from 58 to 66, v5 to 67 and v6 to 69. */
  lemma PinnedVersionsByThreshold()
    ensures forall r :: r in AllBlopRounds ==> AllBlopRounds[r] == VersionFromThresholds(r)
  {
  }

  /** The pinned rule-set version never decreases as the round id grows. */
  lemma PinnedVersionMonotone(a: int, b: int)
    requires a in AllBlopRounds && b in AllBlopRounds && a <= b
    ensures AllBlopRounds[a].Number() <= AllBlopRounds[b].Number()
  {
    PinnedVersionsByThreshold();
  }
}
