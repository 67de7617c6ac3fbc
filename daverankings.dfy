/**
 * `rush/daverankings.py`: the "Dave" ranking. A player's score in a round is
 * the sum of their raw scores on four fixed leaderboards; the round's list keeps
 * the players with a positive score, highest first, and the scores of all
 * rounds are added up per player. Loading the rounds (the pickle cache and the
 * scraper) is not part of this model: each round's leaderboards are given.
 */
module DaveRankings {
  import opened Collections
  import opened RankingScraper
  import opened RushRankings

  /** `scoring_rankings`. */
  const ScoringRankings: seq<string> :=
    ["The Largest Dominions", "Most Prestigious Dominions", "Most Masterful Spies", "Most Masterful Wizards"]

  /** `stats[ranking]` does not raise for any of the four rankings. */
  predicate HasScoringRankings(stats: RoundStats) {
    forall r :: r in ScoringRankings ==> r in stats
  }

  /** No leaderboard of the round lists anybody. */
  predicate NoPlayers(stats: RoundStats) {
    forall s, p :: s in stats ==> p !in stats[s]
  }

  /** The player's raw score on one leaderboard, 0 when they are not on it. */
  function RawIn(stats: RoundStats, ranking: string, name: string): int
    requires ranking in stats
  {
    if name in stats[ranking] then stats[ranking][name].score else 0
  }

  /** The sum of the player's raw scores over `rankings`, in list order. */
  function RawSum(stats: RoundStats, rankings: seq<string>, name: string): int
    requires forall r :: r in rankings ==> r in stats
  {
    if |rankings| == 0 then 0
    else RawSum(stats, rankings[..|rankings| - 1], name) + RawIn(stats, rankings[|rankings| - 1], name)
  }

  /** The Dave score of a player in one round. */
  function DaveScore(stats: RoundStats, name: string): int
    requires HasScoringRankings(stats)
  {
    RawSum(stats, ScoringRankings, name)
  }

  /** `dave_score_for_player`: the accumulator loop over the four rankings. */
  method DaveScoreForPlayer(stats: RoundStats, name: string) returns (score: int)
    requires HasScoringRankings(stats)
    ensures score == DaveScore(stats, name)
  {
    score := 0;
    var i := 0;
    while i < |ScoringRankings|
      invariant 0 <= i <= |ScoringRankings|
      invariant score == RawSum(stats, ScoringRankings[..i], name)
    {
      var ranking := ScoringRankings[i];
      if name in stats[ranking] {
        score := score + stats[ranking][name].score;
      }
      assert ScoringRankings[..i + 1][..i] == ScoringRankings[..i];
      i := i + 1;
    }
    assert ScoringRankings[..i] == ScoringRankings;
  }

  /** The Dave score is the sum of the four raw scores, each 0 where the player is absent. */
  lemma DaveScoreIsFourTerms(stats: RoundStats, name: string)
    requires HasScoringRankings(stats)
    ensures DaveScore(stats, name) ==
      RawIn(stats, "The Largest Dominions", name) + RawIn(stats, "Most Prestigious Dominions", name) +
      RawIn(stats, "Most Masterful Spies", name) + RawIn(stats, "Most Masterful Wizards", name)
  {
    var r := ScoringRankings;
    assert r[..3][..2][..1][..0] == [];
    assert r[..3][..2][..1] == ["The Largest Dominions"];
    assert r[..3][..2] == ["The Largest Dominions", "Most Prestigious Dominions"];
    assert r[..3] == ["The Largest Dominions", "Most Prestigious Dominions", "Most Masterful Spies"];
    assert RawSum(stats, r[..3][..2][..1], name) == RawIn(stats, "The Largest Dominions", name);
    assert RawSum(stats, r[..3][..2], name) ==
      RawSum(stats, r[..3][..2][..1], name) + RawIn(stats, "Most Prestigious Dominions", name);
    assert RawSum(stats, r[..3], name) == RawSum(stats, r[..3][..2], name) + RawIn(stats, "Most Masterful Spies", name);
    assert RawSum(stats, r, name) == RawSum(stats, r[..3], name) + RawIn(stats, "Most Masterful Wizards", name);
  }

  /** A player on none of the given leaderboards sums to 0. */
  lemma {:induction false} RawSumAbsent(stats: RoundStats, rankings: seq<string>, name: string)
    requires forall r :: r in rankings ==> r in stats
    requires forall r :: r in rankings ==> name !in stats[r]
    ensures RawSum(stats, rankings, name) == 0
  {
    if |rankings| > 0 {
      var init := rankings[..|rankings| - 1];
      assert forall r :: r in init ==> r in rankings;
      RawSumAbsent(stats, init, name);
    }
  }

  /** With non-negative raw scores, being on a scoring leaderboard gives at least that score. */
  lemma {:induction false} RawSumAtLeast(stats: RoundStats, rankings: seq<string>, name: string, k: nat)
    requires forall r :: r in rankings ==> r in stats
    requires forall r, p :: r in rankings && p in stats[r] ==> stats[r][p].score >= 0
    requires k < |rankings|
    ensures RawSum(stats, rankings, name) >= RawIn(stats, rankings[k], name) >= 0
  {
    var init := rankings[..|rankings| - 1];
    assert forall r :: r in init ==> r in rankings;
    RawSumNonNegative(stats, init, name);
    if k < |rankings| - 1 {
      assert rankings[k] == init[k];
      RawSumAtLeast(stats, init, name, k);
    }
  }

  lemma {:induction false} RawSumNonNegative(stats: RoundStats, rankings: seq<string>, name: string)
    requires forall r :: r in rankings ==> r in stats
    requires forall r, p :: r in rankings && p in stats[r] ==> stats[r][p].score >= 0
    ensures RawSum(stats, rankings, name) >= 0
  {
    if |rankings| > 0 {
      var init := rankings[..|rankings| - 1];
      assert forall r :: r in init ==> r in rankings;
      RawSumNonNegative(stats, init, name);
    }
  }

  /** Sorting key for the (name, score) pairs: the score. */
  function ScoreKey(e: (string, int)): real {
    e.1 as real
  }

  /** The dict comprehension of line 34: every listed player with their Dave score. */
  method ScoreAll(stats: RoundStats, names: seq<string>) returns (daveScores: map<string, int>)
    requires forall i :: 0 <= i < |names| ==> InSomeLeaderboard(stats, names[i])
    requires HasScoringRankings(stats) || NoPlayers(stats)
    ensures forall p :: p in daveScores <==> p in names
    ensures forall p :: p in daveScores ==> HasScoringRankings(stats) && daveScores[p] == DaveScore(stats, p)
  {
    daveScores := map[];
    var i := 0;
    while i < |names|
      invariant 0 <= i <= |names|
      invariant forall p :: p in daveScores <==> p in names[..i]
      invariant forall p :: p in daveScores ==> HasScoringRankings(stats) && daveScores[p] == DaveScore(stats, p)
    {
      var name := names[i];
      assert HasScoringRankings(stats) by {
        var s :| s in stats && name in stats[s];
      }
      var score := DaveScoreForPlayer(stats, name);
      assert names[..i + 1] == names[..i] + [name];
      daveScores := daveScores[name := score];
      i := i + 1;
    }
    assert names[..i] == names;
  }

  /**
   * `dave_scores_for_round`: score every player of `all_player_names`, keep the
   * positive scores and sort them by score, highest first. The four rankings need
   * only be present when somebody is listed, since only then is
   * `dave_score_for_player` called.
   */
  method DaveScoresForRound(stats: RoundStats) returns (result: seq<(string, int)>)
    requires HasScoringRankings(stats) || NoPlayers(stats)
    ensures forall i :: 0 <= i < |result| ==>
      InSomeLeaderboard(stats, result[i].0) && HasScoringRankings(stats) &&
      result[i].1 == DaveScore(stats, result[i].0) && result[i].1 > 0
    ensures forall p :: InSomeLeaderboard(stats, p) && HasScoringRankings(stats) && DaveScore(stats, p) > 0 ==>
      p in KeysOf(result)
    ensures DistinctKeys(result)
    ensures SortedDesc(result, ScoreKey)
  {
    var players := AllPlayerNames(stats);
    var names := SetToSeq(players);
    var daveScores := ScoreAll(stats, names);
    var filtered := map p | p in daveScores && daveScores[p] > 0 :: daveScores[p];
    result := SortedItems(filtered, ScoreKey);
  }

  // ---------------------------------------------------------------------------
  // The totals over all rounds (lines 50-56)

  /** The scores listed under `name` in one round's pairs, added up. */
  function PairsTotal(pairs: seq<(string, int)>, name: string): int {
    if |pairs| == 0 then 0
    else PairsTotal(pairs[..|pairs| - 1], name) + (if pairs[|pairs| - 1].0 == name then pairs[|pairs| - 1].1 else 0)
  }

  /** The scores listed under `name` in all rounds, added up. */
  function RoundsTotal(rounds: seq<seq<(string, int)>>, name: string): int {
    if |rounds| == 0 then 0
    else RoundsTotal(rounds[..|rounds| - 1], name) + PairsTotal(rounds[|rounds| - 1], name)
  }

  /** The names listed in any round. */
  function NamesOf(rounds: seq<seq<(string, int)>>): set<string> {
    if |rounds| == 0 then {} else NamesOf(rounds[..|rounds| - 1]) + KeysOf(rounds[|rounds| - 1])
  }

  /** `total_score[name]` of the defaultdict: a missing name reads as 0. */
  function Get(total: map<string, int>, name: string): int {
    if name in total then total[name] else 0
  }

  /** The inner loop: `total_score[name] += score` for every pair of one round. */
  method AddRoundTotals(total: map<string, int>, pairs: seq<(string, int)>) returns (next: map<string, int>)
    ensures forall p :: p in next <==> p in total || p in KeysOf(pairs)
    ensures forall p :: p in next ==> next[p] == Get(total, p) + PairsTotal(pairs, p)
  {
    next := total;
    var j := 0;
    while j < |pairs|
      invariant 0 <= j <= |pairs|
      invariant forall p :: p in next <==> p in total || p in KeysOf(pairs[..j])
      invariant forall p :: p in next ==> next[p] == Get(total, p) + PairsTotal(pairs[..j], p)
    {
      var (name, score) := pairs[j];
      AddPairTotal(total, pairs, j, next);
      next := next[name := Get(next, name) + score];
      j := j + 1;
    }
    assert pairs[..j] == pairs;
  }

  /** `total_score[name] += score` for pair `j` keeps the inner loop's invariant. */
  lemma AddPairTotal(total: map<string, int>, pairs: seq<(string, int)>, j: nat, next: map<string, int>)
    requires j < |pairs|
    requires forall p :: p in next <==> p in total || p in KeysOf(pairs[..j])
    requires forall p :: p in next ==> next[p] == Get(total, p) + PairsTotal(pairs[..j], p)
    ensures var next' := next[pairs[j].0 := Get(next, pairs[j].0) + pairs[j].1];
      && (forall p :: p in next' <==> p in total || p in KeysOf(pairs[..j + 1]))
      && (forall p :: p in next' ==> next'[p] == Get(total, p) + PairsTotal(pairs[..j + 1], p))
  {
    KeysOfExtend(pairs, j);
    if pairs[j].0 !in next {
      PairsTotalMissing(pairs[..j], pairs[j].0);
    }
    PairsTotalStep(pairs, j);
  }

  /** One more pair adds its score to its own name's total only. */
  lemma PairsTotalStep(pairs: seq<(string, int)>, j: nat)
    requires j < |pairs|
    ensures forall p :: PairsTotal(pairs[..j + 1], p) == PairsTotal(pairs[..j], p) + (if pairs[j].0 == p then pairs[j].1 else 0)
  {
    assert pairs[..j + 1][..j] == pairs[..j];
  }

  /** The nested loop over `all_round_scores`: every listed name with the sum of its scores. */
  method TotalScores(rounds: seq<seq<(string, int)>>) returns (total: map<string, int>)
    ensures forall p :: p in total <==> p in NamesOf(rounds)
    ensures forall p :: p in total ==> total[p] == RoundsTotal(rounds, p)
  {
    total := map[];
    var k := 0;
    while k < |rounds|
      invariant 0 <= k <= |rounds|
      invariant forall p :: p in total <==> p in NamesOf(rounds[..k])
      invariant forall p :: p in total ==> total[p] == RoundsTotal(rounds[..k], p)
    {
      assert rounds[..k + 1][..k] == rounds[..k];
      NamesOfMissing(rounds[..k]);
      total := AddRoundTotals(total, rounds[k]);
      k := k + 1;
    }
    assert rounds[..k] == rounds;
  }

  /** A name listed in no round has a total of 0. */
  lemma {:induction false} NamesOfMissing(rounds: seq<seq<(string, int)>>)
    ensures forall p :: p !in NamesOf(rounds) ==> RoundsTotal(rounds, p) == 0
  {
    if |rounds| > 0 {
      NamesOfMissing(rounds[..|rounds| - 1]);
      forall p | p !in NamesOf(rounds) ensures PairsTotal(rounds[|rounds| - 1], p) == 0 {
        PairsTotalMissing(rounds[|rounds| - 1], p);
      }
    }
  }

  /** A name not listed in the pairs adds nothing. */
  lemma {:induction false} PairsTotalMissing(pairs: seq<(string, int)>, name: string)
    requires name !in KeysOf(pairs)
    ensures PairsTotal(pairs, name) == 0
  {
    if |pairs| > 0 {
      var init := pairs[..|pairs| - 1];
      assert forall i :: 0 <= i < |init| ==> init[i] == pairs[i];
      PairsTotalMissing(init, name);
    }
  }

  /**
   * Lines 50-57: the totals of all rounds, listed as (name, total) pairs, highest
   * total first, each listed name once.
   */
  method DaveTotals(rounds: seq<seq<(string, int)>>) returns (listing: seq<(string, int)>)
    ensures DistinctKeys(listing)
    ensures forall i :: 0 <= i < |listing| ==> listing[i].0 in NamesOf(rounds) && listing[i].1 == RoundsTotal(rounds, listing[i].0)
    ensures forall p :: p in NamesOf(rounds) ==> p in KeysOf(listing)
    ensures SortedDesc(listing, ScoreKey)
  {
    var total := TotalScores(rounds);
    listing := SortedItems(total, ScoreKey);
  }

  /**
   * A round's list names each player at most once (DistinctKeys of
   * DaveScoresForRound), so the round adds exactly that player's one listed score.
   */
  lemma {:induction false} PairsTotalOfDistinct(pairs: seq<(string, int)>, i: nat)
    requires DistinctKeys(pairs) && i < |pairs|
    ensures PairsTotal(pairs, pairs[i].0) == pairs[i].1
  {
    var init := pairs[..|pairs| - 1];
    assert forall k :: 0 <= k < |init| ==> init[k] == pairs[k];
    if i < |pairs| - 1 {
      PairsTotalOfDistinct(init, i);
    } else {
      assert pairs[i].0 !in KeysOf(init);
      PairsTotalMissing(init, pairs[i].0);
    }
  }

  /** With positive scores only, as `dave_scores_for_round` produces, every listed name has a positive total. */
  lemma {:induction false} TotalsPositive(rounds: seq<seq<(string, int)>>, name: string)
    requires forall k, j :: 0 <= k < |rounds| && 0 <= j < |rounds[k]| ==> rounds[k][j].1 > 0
    ensures name in NamesOf(rounds) ==> RoundsTotal(rounds, name) > 0
    ensures RoundsTotal(rounds, name) >= 0
  {
    if |rounds| > 0 {
      var init, last := rounds[..|rounds| - 1], rounds[|rounds| - 1];
      assert forall k :: 0 <= k < |init| ==> init[k] == rounds[k];
      TotalsPositive(init, name);
      PairsPositive(last, name);
    }
  }

  lemma {:induction false} PairsPositive(pairs: seq<(string, int)>, name: string)
    requires forall j :: 0 <= j < |pairs| ==> pairs[j].1 > 0
    ensures name in KeysOf(pairs) ==> PairsTotal(pairs, name) > 0
    ensures PairsTotal(pairs, name) >= 0
  {
    if |pairs| > 0 {
      var init := pairs[..|pairs| - 1];
      assert forall k :: 0 <= k < |init| ==> init[k] == pairs[k];
      PairsPositive(init, name);
      if name in KeysOf(pairs) && pairs[|pairs| - 1].0 != name {
        var k :| 0 <= k < |pairs| && pairs[k].0 == name;
        assert init[k].0 == name;
      }
    }
  }
}
