/**
 * `rush/rushrankings.py`: the Rush Rankings of OpenDominion, which score players
 * in the black-ops role. A rule set maps each scoring component to a list of stat
 * (leaderboard) names and a weight; a player's component score is the mean of
 * their feature-scaled scores over those leaderboards times the weight, and the
 * round score is the sum of the components. The round's leaderboards are given
 * as input, already filtered and scaled.
 */
module RushRankings {
  import opened Wrappers
  import opened Text
  import opened Collections
  import opened RankingScraper

  const MasteryStats: seq<string> := ["Most Masterful Spies", "Most Masterful Wizards"]
  const OpsStats: seq<string> := ["Most Successful Spies", "Most Successful Wizards"]
  const TheftStats: seq<string> := [
    "Top Platinum Thieves", "Top Food Thieves", "Top Lumber Thieves",
    "Top Mana Thieves", "Top Ore Thieves", "Top Gem Thieves"]
  const BlackopStats: seq<string> := [
    "Masters of Plague", "Masters of Swarm", "Masters of Air",
    "Masters of Lightning", "Masters of Water", "Masters of Earth", "Top Snare Setters"]
  const AssassinationStats: seq<string> := [
    "Most Spies Executed", "Top Saboteurs", "Top Magical Assassins",
    "Top Military Assassins", "Most Wizards Executed", "Top Spy Disbanders"]
  const FireballStat: seq<string> := ["Masters of Fire"]

  /** The keyword list of `is_blop_stat`. */
  const BlopKeywords: seq<string> :=
    ["Wizard", "Spies", "Thieves", "Masters", "Saboteurs", "Snare", "Spy", "Assassins", "Bounties"]

  /** `is_blop_stat`: the keyword loop with its early return. */
  method IsBlopStat(statName: string) returns (b: bool)
    ensures b <==> ContainsAny(statName, BlopKeywords)
  {
    var i := 0;
    while i < |BlopKeywords|
      invariant 0 <= i <= |BlopKeywords|
      invariant forall k :: 0 <= k < i ==> !Contains(statName, BlopKeywords[k])
    {
      if Contains(statName, BlopKeywords[i]) {
        return true;
      }
      i := i + 1;
    }
    return false;
  }

  /** Some keyword occurs at some position of `s`. */
  ghost predicate HasKeyword(s: string) {
    exists k, pos :: 0 <= k < |BlopKeywords| && OccursAt(s, BlopKeywords[k], pos)
  }

  lemma HasKeywordIsBlopStat(s: string)
    ensures HasKeyword(s) <==> ContainsAny(s, BlopKeywords)
  {
    if ContainsAny(s, BlopKeywords) {
      var w :| w in BlopKeywords && Contains(s, w);
      var k :| 0 <= k < |BlopKeywords| && BlopKeywords[k] == w;
      var pos :| OccursAt(s, w, pos);
    }
    if HasKeyword(s) {
      var k, pos :| 0 <= k < |BlopKeywords| && OccursAt(s, BlopKeywords[k], pos);
      assert BlopKeywords[k] in BlopKeywords;
    }
  }

  lemma MasteryHaveKeywords()
    ensures forall i :: 0 <= i < |MasteryStats| ==> HasKeyword(MasteryStats[i])
  {
    assert OccursAt(MasteryStats[0], BlopKeywords[1], 15);
    assert OccursAt(MasteryStats[1], BlopKeywords[0], 15);
  }

  lemma OpsHaveKeywords()
    ensures forall i :: 0 <= i < |OpsStats| ==> HasKeyword(OpsStats[i])
  {
    assert OccursAt(OpsStats[0], BlopKeywords[1], 16);
    assert OccursAt(OpsStats[1], BlopKeywords[0], 16);
  }

  lemma TheftHaveKeywords1()
    ensures HasKeyword(TheftStats[0]) && HasKeyword(TheftStats[1]) && HasKeyword(TheftStats[2])
  {
    assert OccursAt(TheftStats[0], BlopKeywords[2], 13);
    assert OccursAt(TheftStats[1], BlopKeywords[2], 9);
    assert OccursAt(TheftStats[2], BlopKeywords[2], 11);
  }

  lemma TheftHaveKeywords2()
    ensures HasKeyword(TheftStats[3]) && HasKeyword(TheftStats[4]) && HasKeyword(TheftStats[5])
  {
    assert OccursAt(TheftStats[3], BlopKeywords[2], 9);
    assert OccursAt(TheftStats[4], BlopKeywords[2], 8);
    assert OccursAt(TheftStats[5], BlopKeywords[2], 8);
  }

  lemma TheftHaveKeywords()
    ensures forall i :: 0 <= i < |TheftStats| ==> HasKeyword(TheftStats[i])
  {
    TheftHaveKeywords1();
    TheftHaveKeywords2();
  }

  lemma BlackopHaveKeywords1()
    ensures HasKeyword(BlackopStats[0]) && HasKeyword(BlackopStats[1]) && HasKeyword(BlackopStats[2])
  {
    assert OccursAt(BlackopStats[0], BlopKeywords[3], 0);
    assert OccursAt(BlackopStats[1], BlopKeywords[3], 0);
    assert OccursAt(BlackopStats[2], BlopKeywords[3], 0);
  }

  lemma BlackopHaveKeywords2()
    ensures HasKeyword(BlackopStats[3]) && HasKeyword(BlackopStats[4]) && HasKeyword(BlackopStats[5])
  {
    assert OccursAt(BlackopStats[3], BlopKeywords[3], 0);
    assert OccursAt(BlackopStats[4], BlopKeywords[3], 0);
    assert OccursAt(BlackopStats[5], BlopKeywords[3], 0);
  }

  lemma BlackopHaveKeywords3()
    ensures HasKeyword(BlackopStats[6])
  {
    assert BlackopStats[6] == "Top " + BlopKeywords[5] + " Setters";
    assert OccursAt(BlackopStats[6], BlopKeywords[5], 4);
  }

  lemma BlackopHaveKeywords()
    ensures forall i :: 0 <= i < |BlackopStats| ==> HasKeyword(BlackopStats[i])
  {
    BlackopHaveKeywords1();
    BlackopHaveKeywords2();
    BlackopHaveKeywords3();
  }

  lemma AssassinationHaveKeywords1()
    ensures HasKeyword(AssassinationStats[0]) && HasKeyword(AssassinationStats[1]) && HasKeyword(AssassinationStats[2])
  {
    assert OccursAt(AssassinationStats[0], BlopKeywords[1], 5);
    assert OccursAt(AssassinationStats[1], BlopKeywords[4], 4);
    assert OccursAt(AssassinationStats[2], BlopKeywords[7], 12);
  }

  lemma AssassinationHaveKeywords2()
    ensures HasKeyword(AssassinationStats[3]) && HasKeyword(AssassinationStats[4]) && HasKeyword(AssassinationStats[5])
  {
    assert OccursAt(AssassinationStats[3], BlopKeywords[7], 13);
    assert OccursAt(AssassinationStats[4], BlopKeywords[0], 5);
    assert OccursAt(AssassinationStats[5], BlopKeywords[6], 4);
  }

  lemma AssassinationHaveKeywords()
    ensures forall i :: 0 <= i < |AssassinationStats| ==> HasKeyword(AssassinationStats[i])
  {
    AssassinationHaveKeywords1();
    AssassinationHaveKeywords2();
  }

  lemma FireballHaveKeywords()
    ensures forall i :: 0 <= i < |FireballStat| ==> HasKeyword(FireballStat[i])
  {
    assert OccursAt(FireballStat[0], BlopKeywords[3], 0);
  }

  /** The stat names of all six tuples. */
  const ScoringStats: seq<string> :=
    MasteryStats + OpsStats + TheftStats + BlackopStats + AssassinationStats + FireballStat

  /** Every stat named in the tuples at the top of the script passes `is_blop_stat`. */
  lemma ScoringStatsAreBlopStats()
    ensures forall s :: s in ScoringStats ==> ContainsAny(s, BlopKeywords)
  {
    MasteryHaveKeywords();
    OpsHaveKeywords();
    TheftHaveKeywords();
    BlackopHaveKeywords();
    AssassinationHaveKeywords();
    FireballHaveKeywords();
    forall s | s in ScoringStats ensures ContainsAny(s, BlopKeywords) {
      HasKeywordIsBlopStat(s);
      assert HasKeyword(s) by {
        var i :| 0 <= i < |ScoringStats| && ScoringStats[i] == s;
        if i < 4 {
          assert s == (MasteryStats + OpsStats)[i];
        } else if i < 10 {
          assert s == TheftStats[i - 4];
        } else if i < 17 {
          assert s == BlackopStats[i - 10];
        } else {
          assert s == (AssassinationStats + FireballStat)[i - 17];
        }
      }
    }
  }

  /** The stat names that occur in some leaderboard of the round. */
  ghost predicate InSomeLeaderboard(stats: RoundStats, p: string) {
    exists s :: s in stats && p in stats[s]
  }

  /** `all_player_names`: the union of the key sets of all leaderboards. */
  method AllPlayerNames(stats: RoundStats) returns (players: set<string>)
    ensures forall p :: p in players <==> InSomeLeaderboard(stats, p)
  {
    var boards := MapItems(stats);
    players := {};
    var i := 0;
    while i < |boards|
      invariant 0 <= i <= |boards|
      invariant forall p :: p in players <==> exists k :: 0 <= k < i && p in boards[k].1
    {
      players := players + boards[i].1.Keys;
      i := i + 1;
    }
    forall p ensures p in players <==> InSomeLeaderboard(stats, p) {
      if InSomeLeaderboard(stats, p) {
        var s :| s in stats && p in stats[s];
        var k :| 0 <= k < |boards| && boards[k].0 == s;
        assert p in boards[k].1;
      }
    }
  }

  // ---------------------------------------------------------------------------
  // Components

  /** A component of a rule set: the stats it averages over and its weight. */
  datatype Component = Component(statNames: seq<string>, weight: real)

  /** A rule set: component name to component. */
  type Ratios = map<string, Component>

  /** The rule set can be applied to the round: every component has stats, and all of them are loaded. */
  predicate RatiosFit(ratios: Ratios, stats: RoundStats) {
    forall c :: c in ratios ==>
      |ratios[c].statNames| > 0 && forall s :: s in ratios[c].statNames ==> s in stats
  }

  /** The player's scaled score in one leaderboard, 0 when absent. */
  function FsIn(stats: RoundStats, statName: string, name: string): real
    requires statName in stats
  {
    if name in stats[statName] then stats[statName][name].fs else 0.0
  }

  /** The sum of the player's scaled scores over `statNames`, in list order. */
  function FsSum(stats: RoundStats, statNames: seq<string>, name: string): real
    requires forall s :: s in statNames ==> s in stats
  {
    if |statNames| == 0 then 0.0
    else FsSum(stats, statNames[..|statNames| - 1], name) + FsIn(stats, statNames[|statNames| - 1], name)
  }

  /** `total / len(score_component[0]) * score_component[1]`. */
  function ComponentScore(stats: RoundStats, c: Component, name: string): real
    requires |c.statNames| > 0 && forall s :: s in c.statNames ==> s in stats
  {
    FsSum(stats, c.statNames, name) / (|c.statNames| as real) * c.weight
  }

  /** What `score_components` returns: one score per component. */
  function ComponentScores(ratios: Ratios, stats: RoundStats, name: string): (r: map<string, real>)
    requires RatiosFit(ratios, stats)
    ensures r.Keys == ratios.Keys
  {
    map c | c in ratios :: ComponentScore(stats, ratios[c], name)
  }

  /** The inner loop of `score_components`: the player's scaled scores over the component's stats, added up. */
  method ComponentTotal(stats: RoundStats, statNames: seq<string>, name: string) returns (total: real)
    requires forall s :: s in statNames ==> s in stats
    ensures total == FsSum(stats, statNames, name)
  {
    total := 0.0;
    var j := 0;
    while j < |statNames|
      invariant 0 <= j <= |statNames|
      invariant total == FsSum(stats, statNames[..j], name)
    {
      var statName := statNames[j];
      if name in stats[statName] {
        total := total + stats[statName][name].fs;
      }
      assert statNames[..j + 1][..j] == statNames[..j];
      j := j + 1;
    }
    assert statNames[..j] == statNames;
  }

  /** `score_components`: for each component, accumulate the player's scaled scores and scale by the weight. */
  method ScoreComponents(ratios: Ratios, stats: RoundStats, name: string) returns (result: map<string, real>)
    requires RatiosFit(ratios, stats)
    ensures result.Keys == ratios.Keys
    ensures forall c :: c in result ==> result[c] == ComponentScore(stats, ratios[c], name)
  {
    var components := MapItems(ratios);
    result := map[];
    var i := 0;
    while i < |components|
      invariant 0 <= i <= |components|
      invariant forall k :: 0 <= k < i ==> components[k].0 in result
      invariant forall c :: c in result ==> c in ratios && result[c] == ComponentScore(stats, ratios[c], name)
    {
      var (componentName, component) := components[i];
      assert component == ratios[componentName];
      var total := ComponentTotal(stats, component.statNames, name);
      var score := total / (|component.statNames| as real) * component.weight;
      assert score == ComponentScore(stats, ratios[componentName], name);
      result := result[componentName := score];
      i := i + 1;
    }
    assert result.Keys == ratios.Keys;
  }

  lemma {:induction false} FsSumBounds(stats: RoundStats, statNames: seq<string>, name: string)
    requires forall s :: s in statNames ==> s in stats
    requires ScaledToUnit(stats)
    ensures 0.0 <= FsSum(stats, statNames, name) <= |statNames| as real
  {
    if |statNames| > 0 {
      var init := statNames[..|statNames| - 1];
      assert forall s :: s in init ==> s in statNames;
      FsSumBounds(stats, init, name);
    }
  }

  /** With scaled scores in [0, 1] and a non-negative weight, a component scores between 0 and its weight. */
  lemma ComponentWithinWeight(stats: RoundStats, c: Component, name: string)
    requires |c.statNames| > 0 && forall s :: s in c.statNames ==> s in stats
    requires ScaledToUnit(stats) && c.weight >= 0.0
    ensures 0.0 <= ComponentScore(stats, c, name) <= c.weight
  {
    FsSumBounds(stats, c.statNames, name);
    var total, n := FsSum(stats, c.statNames, name), |c.statNames| as real;
    var w := c.weight;
    MeanTimesWeight(total, n, w);
    var x := total / n * w;
    assert 0.0 <= x <= w;
    assert ComponentScore(stats, c, name) == x;
  }

  lemma MeanTimesWeight(total: real, n: real, w: real)
    requires n > 0.0 && 0.0 <= total <= n && w >= 0.0
    ensures 0.0 <= total / n * w <= w
  {
    var mean := total / n;
    assert 0.0 <= mean <= 1.0 by {
      assert mean * n == total;
    }
    assert mean * w <= 1.0 * w by {
      assert (1.0 - mean) * w >= 0.0;
    }
  }

  /** A player who is in none of a component's leaderboards scores 0 on it. */
  lemma {:induction false} AbsentPlayerScoresZero(stats: RoundStats, statNames: seq<string>, name: string)
    requires forall s :: s in statNames ==> s in stats
    requires forall s :: s in statNames ==> name !in stats[s]
    ensures FsSum(stats, statNames, name) == 0.0
  {
    if |statNames| > 0 {
      var init := statNames[..|statNames| - 1];
      assert forall s :: s in init ==> s in statNames;
      AbsentPlayerScoresZero(stats, init, name);
    }
  }

  // ---------------------------------------------------------------------------
  // The round score

  /** `calculate_player_score` before rounding: the sum of the component scores. */
  ghost function PlayerScore(ratios: Ratios, stats: RoundStats, name: string): real
    requires RatiosFit(ratios, stats)
  {
    SumOver(ComponentScores(ratios, stats, name))
  }

  /** `calculate_player_score`: the component scores, then their sum. */
  method CalculatePlayerScore(ratios: Ratios, stats: RoundStats, name: string) returns (score: real)
    requires RatiosFit(ratios, stats)
    ensures score == PlayerScore(ratios, stats, name)
  {
    var components := ScoreComponents(ratios, stats, name);
    assert components == ComponentScores(ratios, stats, name);
    score := SumValues(components);
  }

  /** The weights of a rule set. */
  function Weights(ratios: Ratios): (w: map<string, real>)
    ensures w.Keys == ratios.Keys
  {
    map c | c in ratios :: ratios[c].weight
  }

  /** With scaled scores in [0, 1] and non-negative weights, a round score lies between 0 and the total weight. */
  lemma PlayerScoreWithinTotalWeight(ratios: Ratios, stats: RoundStats, name: string)
    requires RatiosFit(ratios, stats) && ScaledToUnit(stats)
    requires forall c :: c in ratios ==> ratios[c].weight >= 0.0
    ensures 0.0 <= PlayerScore(ratios, stats, name) <= SumOver(Weights(ratios))
  {
    var scores := ComponentScores(ratios, stats, name);
    forall c | c in scores ensures 0.0 <= scores[c] <= Weights(ratios)[c] {
      ComponentWithinWeight(stats, ratios[c], name);
    }
    SumOverMonotone(scores, Weights(ratios));
  }

  /** A round entry: player name and round score. */
  type ScoreEntry = (string, real)

  /** The pairs of one round: one per player in some leaderboard, each with that player's round score. */
  ghost predicate IsRoundScoring(ratios: Ratios, stats: RoundStats, scores: seq<ScoreEntry>)
    requires RatiosFit(ratios, stats)
  {
    && DistinctKeys(scores)
    && (forall p :: p in KeysOf(scores) <==> InSomeLeaderboard(stats, p))
    && (forall i :: 0 <= i < |scores| ==> scores[i].1 == PlayerScore(ratios, stats, scores[i].0))
  }

  /** `blop_scores_for_round`, with the round's filtered and scaled leaderboards given: one pair per player. */
  method BlopScoresForRound(ratios: Ratios, stats: RoundStats) returns (scores: seq<ScoreEntry>)
    requires RatiosFit(ratios, stats)
    ensures IsRoundScoring(ratios, stats, scores)
  {
    var players := AllPlayerNames(stats);
    var names := SetToSeq(players);
    scores := [];
    var i := 0;
    while i < |names|
      invariant 0 <= i <= |names|
      invariant |scores| == i
      invariant forall k :: 0 <= k < i ==> scores[k] == (names[k], PlayerScore(ratios, stats, names[k]))
    {
      var score := CalculatePlayerScore(ratios, stats, names[i]);
      scores := scores + [(names[i], score)];
      i := i + 1;
    }
    forall p ensures p in KeysOf(scores) <==> InSomeLeaderboard(stats, p) {
      if p in players {
        var k :| 0 <= k < |names| && names[k] == p;
        assert scores[k].0 == p;
      }
    }
  }

  function ScoreOf(e: ScoreEntry): real {
    e.1
  }

  /** The ranking `round_scores` writes: the round's pairs, highest score first. */
  method RoundScores(ratios: Ratios, stats: RoundStats) returns (top: seq<ScoreEntry>)
    requires RatiosFit(ratios, stats)
    ensures IsRoundScoring(ratios, stats, top)
    ensures SortedDesc(top, ScoreOf)
  {
    var scores := BlopScoresForRound(ratios, stats);
    top := SortByKeyDesc(scores, ScoreOf);
    PermutationKeepsDistinctKeys(scores, top);
    PermutationKeepsKeys(scores, top);
    forall i | 0 <= i < |top| ensures top[i].1 == PlayerScore(ratios, stats, top[i].0) {
      assert top[i] in multiset(scores);
    }
  }

  // ---------------------------------------------------------------------------
  // Lifetime scores over several rounds

  /** A player's score in a round's pair list: the score of the first pair for them, 0 when absent. */
  function ScoreInRound(scores: seq<ScoreEntry>, p: string): (r: real)
    ensures p !in KeysOf(scores) ==> r == 0.0
  {
    if |scores| == 0 then 0.0
    else if scores[0].0 == p then scores[0].1
    else
      assert KeysOf(scores[1..]) <= KeysOf(scores) by {
        forall k | k in KeysOf(scores[1..]) ensures k in KeysOf(scores) {
          var i :| 0 <= i < |scores[1..]| && scores[1..][i].0 == k;
          assert scores[i + 1].0 == k;
        }
      }
      ScoreInRound(scores[1..], p)
  }

  /** In a list with one pair per player, a player's round score is the score of their pair. */
  lemma {:induction false} ScoreInRoundIsPairScore(scores: seq<ScoreEntry>, i: nat)
    requires DistinctKeys(scores) && i < |scores|
    ensures ScoreInRound(scores, scores[i].0) == scores[i].1
  {
    if i > 0 {
      assert scores[0].0 != scores[i].0;
      assert DistinctKeys(scores[1..]) by {
        forall a, b | 0 <= a < b < |scores[1..]| ensures scores[1..][a].0 != scores[1..][b].0 {
          assert scores[1..][a] == scores[a + 1] && scores[1..][b] == scores[b + 1];
        }
      }
      ScoreInRoundIsPairScore(scores[1..], i - 1);
    }
  }

  /** `Player`: a name and one score per round of the window. */
  class Player {
    const name: string
    var roundScores: map<int, real>

    /** Every round of the window starts at 0. */
    constructor (name: string, roundNumbers: seq<int>)
      ensures this.name == name
      ensures roundScores == map nr | nr in roundNumbers :: 0.0
    {
      this.name := name;
      roundScores := map nr | nr in roundNumbers :: 0.0;
    }

    /** `add_round_score`: sets one round, keeps every other. */
    method AddRoundScore(nr: int, score: real)
      modifies this
      ensures roundScores == old(roundScores)[nr := score]
    {
      roundScores := roundScores[nr := score];
    }

    /** `total_score` before rounding. */
    ghost function Total(): real
      reads this
    {
      SumOver(roundScores)
    }

    method TotalScore() returns (total: real)
      ensures total == Total()
    {
      total := SumValues(roundScores);
    }

    /**
     * `average_score` before rounding: the total over the number of rounds in
     * the window, played or not. An empty window divides by zero.
     */
    method AverageScore() returns (average: real)
      requires |roundScores| > 0
      ensures average == Total() / (|roundScores| as real)
    {
      var total := TotalScore();
      average := total / (|roundScores| as real);
    }

    /** The scores `scores_text` prints, newest round (largest number) first; the number formatting is not modelled. */
    method ScoresInRoundOrder() returns (scores: seq<real>)
      ensures var nrs := SortedDescSet(roundScores.Keys);
        |scores| == |nrs| && forall i :: 0 <= i < |nrs| ==> scores[i] == roundScores[nrs[i]]
    {
      var rs := roundScores;
      var nrs := SortSetDesc(rs.Keys);
      scores := ScoresByNumber(rs, nrs);
    }
  }

  /** The scores of `nrs`, in that order. */
  function ScoresByNumber(rs: map<int, real>, nrs: seq<int>): (scores: seq<real>)
    requires forall i :: 0 <= i < |nrs| ==> nrs[i] in rs
    ensures |scores| == |nrs| && forall i :: 0 <= i < |nrs| ==> scores[i] == rs[nrs[i]]
  {
    if |nrs| == 0 then [] else [rs[nrs[0]]] + ScoresByNumber(rs, nrs[1..])
  }

  /** Scores 10, 0, 20, 0 and 5 in a window of five rounds. */
  const ExampleWindow: map<int, real> := map[69 := 10.0, 67 := 0.0, 66 := 20.0, 64 := 0.0, 63 := 5.0]

  lemma ExampleWindowTotal()
    ensures SumOver(ExampleWindow) == 35.0
  {
    var m0: map<int, real> := map[];
    var m1 := m0[69 := 10.0];
    var m2 := m1[67 := 0.0];
    var m3 := m2[66 := 20.0];
    var m4 := m3[64 := 0.0];
    SumOverInsert(m0, 69, 10.0);
    SumOverInsert(m1, 67, 0.0);
    SumOverInsert(m2, 66, 20.0);
    SumOverInsert(m3, 64, 0.0);
    SumOverInsert(m4, 63, 5.0);
  }

  /** The window totals 35 and averages 7: a round without a score still counts in the average. */
  lemma AverageOverWholeWindow()
    ensures SumOver(ExampleWindow) == 35.0 && SumOver(ExampleWindow) / (|ExampleWindow| as real) == 7.0
  {
    ExampleWindowTotal();
  }

  /** Every round of the window has a pair list with one pair per player. */
  ghost predicate RoundsScored(roundNumbers: seq<int>, blopScores: map<int, seq<ScoreEntry>>) {
    && (forall nr :: nr in roundNumbers ==> nr in blopScores && DistinctKeys(blopScores[nr]))
    && (forall r :: 0 <= r < |roundNumbers| ==> roundNumbers[r] in blopScores)
  }

  /** `p` is in a pair list of one of the first `k` rounds, or among the first `j` pairs of round `k`. */
  ghost predicate SeenBy(roundNumbers: seq<int>, blopScores: map<int, seq<ScoreEntry>>, k: nat, j: nat, p: string)
    requires RoundsScored(roundNumbers, blopScores) && k <= |roundNumbers|
  {
    (exists r :: 0 <= r < k && p in KeysOf(blopScores[roundNumbers[r]]))
    || (k < |roundNumbers| && j <= |blopScores[roundNumbers[k]]| && p in KeysOf(blopScores[roundNumbers[k]][..j]))
  }

  /** A player's score for round `nr` once the first `k` rounds and `j` pairs of round `k` are processed. */
  ghost function ScoreSoFar(roundNumbers: seq<int>, blopScores: map<int, seq<ScoreEntry>>, k: nat, j: nat, p: string, nr: int): real
    requires RoundsScored(roundNumbers, blopScores) && k <= |roundNumbers|
    requires nr in roundNumbers
  {
    if nr in roundNumbers[..k] then ScoreInRound(blopScores[nr], p)
    else if k < |roundNumbers| && nr == roundNumbers[k] && j <= |blopScores[nr]| && p in KeysOf(blopScores[nr][..j])
    then ScoreInRound(blopScores[nr], p)
    else 0.0
  }

  /** Per player, one score per round of the window: the value the `Player` objects hold. */
  type ScoreTable = map<string, map<int, real>>

  /** The scores of a new `Player`. */
  function Zeros(roundNumbers: seq<int>): map<int, real> {
    map nr | nr in roundNumbers :: 0.0
  }

  /** `player_scores[player].add_round_score(nr, score)`, creating the player first if needed. */
  function Credit(table: ScoreTable, roundNumbers: seq<int>, p: string, nr: int, score: real): ScoreTable {
    table[p := (if p in table then table[p] else Zeros(roundNumbers))[nr := score]]
  }

  /** The table after the first `k` rounds and `j` pairs of round `k`. */
  ghost predicate ScoresAt(table: ScoreTable, roundNumbers: seq<int>, blopScores: map<int, seq<ScoreEntry>>, k: nat, j: nat)
    requires RoundsScored(roundNumbers, blopScores) && k <= |roundNumbers|
  {
    && (forall p :: p in table <==> SeenBy(roundNumbers, blopScores, k, j, p))
    && (forall p :: p in table ==> forall nr :: nr in table[p] <==> nr in roundNumbers)
    && (forall p, nr :: p in table && nr in roundNumbers ==>
          table[p][nr] == ScoreSoFar(roundNumbers, blopScores, k, j, p, nr))
  }

  /** The player objects are distinct, named by their key, and hold the scores of `table`. */
  ghost predicate Mirrors(players: map<string, Player>, table: ScoreTable)
    reads set p | p in players :: players[p]
  {
    && players.Keys == table.Keys
    && (forall p :: p in players ==> players[p].name == p && players[p].roundScores == table[p])
    && (forall p, q :: p in players && q in players && p != q ==> players[p] != players[q])
  }

  /**
   * The accumulate part of `multiple_round_scores`, given each round's pairs as
   * `blop_scores_for_round` returns them: one new `Player` per name seen, holding
   * its score in each round of the window (0 where absent).
   */
  method AccumulateRounds(roundNumbers: seq<int>, blopScores: map<int, seq<ScoreEntry>>)
    returns (players: map<string, Player>)
    requires forall nr :: nr in roundNumbers ==> nr in blopScores && DistinctKeys(blopScores[nr])
    ensures forall p :: p in players <==> exists nr :: nr in roundNumbers && p in KeysOf(blopScores[nr])
    ensures forall p :: p in players ==> fresh(players[p]) && players[p].name == p
    ensures forall p, q :: p in players && q in players && p != q ==> players[p] != players[q]
    ensures forall p :: p in players ==> forall nr :: nr in players[p].roundScores <==> nr in roundNumbers
    ensures forall p, nr :: p in players && nr in roundNumbers ==>
      players[p].roundScores[nr] == ScoreInRound(blopScores[nr], p)
  {
    RoundsScoredFromMembership(roundNumbers, blopScores);
    players := map[];
    ghost var table: ScoreTable := map[];
    var k := 0;
    while k < |roundNumbers|
      invariant 0 <= k <= |roundNumbers|
      invariant forall p :: p in players ==> fresh(players[p])
      invariant Mirrors(players, table)
      invariant ScoresAt(table, roundNumbers, blopScores, k, 0)
    {
      players, table := AddRound(players, table, roundNumbers, blopScores, k);
      NextRoundStep(table, roundNumbers, blopScores, k);
      k := k + 1;
    }
    FinalScores(table, roundNumbers, blopScores);
  }

  /**
   * `multiple_round_scores` after the pair lists are fetched: the players of
   * AccumulateRounds, ordered by total, highest first.
   */
  method MultipleRoundScores(roundNumbers: seq<int>, blopScores: map<int, seq<ScoreEntry>>)
    returns (players: map<string, Player>, ranked: seq<Player>)
    requires forall nr :: nr in roundNumbers ==> nr in blopScores && DistinctKeys(blopScores[nr])
    ensures forall p :: p in players <==> exists nr :: nr in roundNumbers && p in KeysOf(blopScores[nr])
    ensures forall p :: p in players ==> fresh(players[p]) && players[p].name == p
    ensures forall p :: p in players ==> forall nr :: nr in players[p].roundScores <==> nr in roundNumbers
    ensures forall p, nr :: p in players && nr in roundNumbers ==>
      players[p].roundScores[nr] == ScoreInRound(blopScores[nr], p)
    ensures |ranked| == |players|
    ensures forall p :: p in players ==> players[p] in ranked
    ensures forall i :: 0 <= i < |ranked| ==> ranked[i] in players.Values
    ensures forall i, j :: 0 <= i < j < |ranked| ==> ranked[i] != ranked[j] && ranked[i].Total() >= ranked[j].Total()
  {
    players := AccumulateRounds(roundNumbers, blopScores);
    ranked := RankByTotal(players);
  }

  lemma RoundsScoredFromMembership(roundNumbers: seq<int>, blopScores: map<int, seq<ScoreEntry>>)
    requires forall nr :: nr in roundNumbers ==> nr in blopScores && DistinctKeys(blopScores[nr])
    ensures RoundsScored(roundNumbers, blopScores)
  {
    forall r | 0 <= r < |roundNumbers| ensures roundNumbers[r] in blopScores {
      var nr := roundNumbers[r];
      assert nr in roundNumbers;
      assert nr in blopScores;
    }
  }

  /** After the last round, the table holds every player seen and each one's score per round. */
  lemma FinalScores(table: ScoreTable, roundNumbers: seq<int>, blopScores: map<int, seq<ScoreEntry>>)
    requires RoundsScored(roundNumbers, blopScores)
    requires ScoresAt(table, roundNumbers, blopScores, |roundNumbers|, 0)
    ensures forall p :: p in table <==> exists nr :: nr in roundNumbers && p in KeysOf(blopScores[nr])
    ensures forall p :: p in table ==> forall nr :: nr in table[p] <==> nr in roundNumbers
    ensures forall p, nr :: p in table && nr in roundNumbers ==> table[p][nr] == ScoreInRound(blopScores[nr], p)
  {
    var k := |roundNumbers|;
    assert roundNumbers[..k] == roundNumbers;
    forall p ensures p in table <==> exists nr :: nr in roundNumbers && p in KeysOf(blopScores[nr]) {
      if p in table {
        var r :| 0 <= r < k && p in KeysOf(blopScores[roundNumbers[r]]);
        assert roundNumbers[r] in roundNumbers;
      }
      if exists nr :: nr in roundNumbers && p in KeysOf(blopScores[nr]) {
        var nr :| nr in roundNumbers && p in KeysOf(blopScores[nr]);
        var r :| 0 <= r < |roundNumbers| && roundNumbers[r] == nr;
        assert SeenBy(roundNumbers, blopScores, k, 0, p);
      }
    }
  }

  /** The pair loop of one round of `multiple_round_scores`. */
  method AddRound(players: map<string, Player>, ghost table: ScoreTable, roundNumbers: seq<int>,
                  blopScores: map<int, seq<ScoreEntry>>, k: nat)
    returns (next: map<string, Player>, ghost nextTable: ScoreTable)
    requires RoundsScored(roundNumbers, blopScores) && k < |roundNumbers|
    requires Mirrors(players, table) && ScoresAt(table, roundNumbers, blopScores, k, 0)
    modifies set p | p in players :: players[p]
    ensures Mirrors(next, nextTable)
    ensures ScoresAt(nextTable, roundNumbers, blopScores, k, |blopScores[roundNumbers[k]]|)
    ensures forall p :: p in next ==> (p in players && next[p] == players[p]) || fresh(next[p])
  {
    var nr := roundNumbers[k];
    var scores := blopScores[nr];
    next, nextTable := players, table;
    var j := 0;
    while j < |scores|
      invariant 0 <= j <= |scores|
      invariant Mirrors(next, nextTable)
      invariant ScoresAt(nextTable, roundNumbers, blopScores, k, j)
      invariant forall p :: p in next ==> (p in players && next[p] == players[p]) || fresh(next[p])
    {
      var (player, score) := scores[j];
      AddPairStep(nextTable, roundNumbers, blopScores, k, j);
      next := CreditPlayer(next, nextTable, roundNumbers, player, nr, score);
      nextTable := Credit(nextTable, roundNumbers, player, nr, score);
      j := j + 1;
    }
  }

  /** One pass of the inner loop body: find or create the player, then set the round's score. */
  method CreditPlayer(players: map<string, Player>, ghost table: ScoreTable, roundNumbers: seq<int>,
                      player: string, nr: int, score: real)
    returns (next: map<string, Player>)
    requires Mirrors(players, table)
    modifies if player in players then {players[player]} else {}
    ensures Mirrors(next, Credit(table, roundNumbers, player, nr, score))
    ensures forall p :: p in next ==> (p in players && next[p] == players[p]) || (p == player && fresh(next[p]))
  {
    next := players;
    if player !in next {
      var newPlayer := new Player(player, roundNumbers);
      next := next[player := newPlayer];
    }
    next[player].AddRoundScore(nr, score);
  }

  /** Processing pair `j` of round `k` credits its player with its score for that round. */
  lemma AddPairStep(table: ScoreTable, roundNumbers: seq<int>, blopScores: map<int, seq<ScoreEntry>>, k: nat, j: nat)
    requires RoundsScored(roundNumbers, blopScores)
    requires k < |roundNumbers| && j < |blopScores[roundNumbers[k]]|
    requires ScoresAt(table, roundNumbers, blopScores, k, j)
    ensures var (p0, s0) := blopScores[roundNumbers[k]][j];
      ScoresAt(Credit(table, roundNumbers, p0, roundNumbers[k], s0), roundNumbers, blopScores, k, j + 1)
  {
    var (p0, s0) := blopScores[roundNumbers[k]][j];
    var next := Credit(table, roundNumbers, p0, roundNumbers[k], s0);
    CreditSeen(table, roundNumbers, blopScores, k, j);
    forall p, nr | p in next && nr in roundNumbers
      ensures next[p][nr] == ScoreSoFar(roundNumbers, blopScores, k, j + 1, p, nr)
    {
      CreditValue(table, roundNumbers, blopScores, k, j, p, nr);
    }
  }

  /** After pair `j`, the seen players are those seen before and the pair's player. */
  lemma CreditSeen(table: ScoreTable, roundNumbers: seq<int>, blopScores: map<int, seq<ScoreEntry>>, k: nat, j: nat)
    requires RoundsScored(roundNumbers, blopScores)
    requires k < |roundNumbers| && j < |blopScores[roundNumbers[k]]|
    requires ScoresAt(table, roundNumbers, blopScores, k, j)
    ensures var (p0, s0) := blopScores[roundNumbers[k]][j];
      forall p :: p in Credit(table, roundNumbers, p0, roundNumbers[k], s0) <==> SeenBy(roundNumbers, blopScores, k, j + 1, p)
  {
    KeysOfExtend(blopScores[roundNumbers[k]], j);
  }

  /** After pair `j`, one score: the pair's own round for its player, unchanged otherwise. */
  lemma CreditValue(table: ScoreTable, roundNumbers: seq<int>, blopScores: map<int, seq<ScoreEntry>>, k: nat, j: nat,
                    p: string, nr: int)
    requires RoundsScored(roundNumbers, blopScores)
    requires k < |roundNumbers| && j < |blopScores[roundNumbers[k]]|
    requires nr in roundNumbers
    requires p in table <==> SeenBy(roundNumbers, blopScores, k, j, p)
    requires p in table ==> forall n :: n in table[p] <==> n in roundNumbers
    requires p in table ==> table[p][nr] == ScoreSoFar(roundNumbers, blopScores, k, j, p, nr)
    requires p in Credit(table, roundNumbers, blopScores[roundNumbers[k]][j].0, roundNumbers[k], blopScores[roundNumbers[k]][j].1)
    ensures Credit(table, roundNumbers, blopScores[roundNumbers[k]][j].0, roundNumbers[k], blopScores[roundNumbers[k]][j].1)[p][nr]
         == ScoreSoFar(roundNumbers, blopScores, k, j + 1, p, nr)
  {
    var nr0 := roundNumbers[k];
    var scores := blopScores[nr0];
    var (p0, s0) := scores[j];
    var next := Credit(table, roundNumbers, p0, nr0, s0);
    KeysOfExtend(scores, j);
    if p == p0 && nr == nr0 {
      ScoreInRoundIsPairScore(scores, j);
      assert next[p][nr] == s0;
    } else if p == p0 && p0 !in table {
      assert next[p][nr] == 0.0;
      assert !SeenBy(roundNumbers, blopScores, k, j, p0);
      if nr in roundNumbers[..k] {
        var r :| 0 <= r < k && roundNumbers[..k][r] == nr;
        assert roundNumbers[r] == nr;
      }
    } else {
      assert p in table;
      assert next[p][nr] == table[p][nr];
      SoFarUnchanged(roundNumbers, blopScores, k, j, p, nr);
    }
  }

  /** A pair changes no score but its own player's in its own round. */
  lemma SoFarUnchanged(roundNumbers: seq<int>, blopScores: map<int, seq<ScoreEntry>>, k: nat, j: nat, p: string, nr: int)
    requires RoundsScored(roundNumbers, blopScores)
    requires k < |roundNumbers| && j < |blopScores[roundNumbers[k]]|
    requires nr in roundNumbers
    requires p != blopScores[roundNumbers[k]][j].0 || nr != roundNumbers[k]
    ensures ScoreSoFar(roundNumbers, blopScores, k, j, p, nr) == ScoreSoFar(roundNumbers, blopScores, k, j + 1, p, nr)
  {
    KeysOfExtend(blopScores[roundNumbers[k]], j);
  }

  /** Finishing round `k` is starting round `k + 1`. */
  lemma NextRoundStep(table: ScoreTable, roundNumbers: seq<int>, blopScores: map<int, seq<ScoreEntry>>, k: nat)
    requires RoundsScored(roundNumbers, blopScores)
    requires k < |roundNumbers|
    requires ScoresAt(table, roundNumbers, blopScores, k, |blopScores[roundNumbers[k]]|)
    ensures ScoresAt(table, roundNumbers, blopScores, k + 1, 0)
  {
    var scores := blopScores[roundNumbers[k]];
    assert scores[..|scores|] == scores;
    assert roundNumbers[..k + 1] == roundNumbers[..k] + [roundNumbers[k]];
    forall p | SeenBy(roundNumbers, blopScores, k + 1, 0, p) ensures SeenBy(roundNumbers, blopScores, k, |scores|, p) {
      var r :| 0 <= r < k + 1 && p in KeysOf(blopScores[roundNumbers[r]]);
    }
  }

  function TotalOf(e: (Player, real)): real {
    e.1
  }

  /** Each player with its `total_score`, in the order of `items`. */
  method TotalsOf(items: seq<(string, Player)>) returns (rows: seq<(Player, real)>)
    ensures |rows| == |items|
    ensures forall k :: 0 <= k < |items| ==> rows[k] == (items[k].1, items[k].1.Total())
  {
    rows := [];
    var i := 0;
    while i < |items|
      invariant 0 <= i <= |items|
      invariant |rows| == i
      invariant forall k :: 0 <= k < i ==> rows[k] == (items[k].1, items[k].1.Total())
    {
      var total := items[i].1.TotalScore();
      rows := rows + [(items[i].1, total)];
      i := i + 1;
    }
  }

  /** Every pair of a permutation of the rows carries its player's total. */
  lemma TotalsCarried(items: seq<(string, Player)>, rows: seq<(Player, real)>, sorted: seq<(Player, real)>)
    requires |rows| == |items|
    requires forall k :: 0 <= k < |items| ==> rows[k] == (items[k].1, items[k].1.Total())
    requires forall m :: 0 <= m < |sorted| ==> sorted[m] in rows
    ensures forall m :: 0 <= m < |sorted| ==> TotalOf(sorted[m]) == sorted[m].0.Total()
  {
    forall m | 0 <= m < |sorted| ensures TotalOf(sorted[m]) == sorted[m].0.Total() {
      var k :| 0 <= k < |rows| && rows[k] == sorted[m];
    }
  }

  /**
   * Listing the values of a map through its items and any permutation of them
   * reaches every value of the map, and nothing else.
   */
  lemma ValuesListed<K, V, W>(m: map<K, V>, items: seq<(K, V)>, rows: seq<(V, W)>, sorted: seq<(V, W)>)
    requires forall i :: 0 <= i < |items| ==> items[i].0 in m && items[i].1 == m[items[i].0]
    requires forall k :: k in m ==> exists i :: 0 <= i < |items| && items[i].0 == k
    requires |rows| == |items|
    requires forall k :: 0 <= k < |items| ==> rows[k].0 == items[k].1
    requires forall k :: 0 <= k < |rows| ==> rows[k] in sorted
    requires forall j :: 0 <= j < |sorted| ==> sorted[j] in rows
    ensures forall p :: p in m ==> m[p] in Firsts(sorted)
    ensures forall j :: 0 <= j < |sorted| ==> Firsts(sorted)[j] in m.Values
  {
    var ranked := Firsts(sorted);
    forall p | p in m ensures m[p] in ranked {
      var k :| 0 <= k < |items| && items[k].0 == p;
      var j :| 0 <= j < |sorted| && sorted[j] == rows[k];
      assert ranked[j] == m[p];
    }
    forall j | 0 <= j < |sorted| ensures ranked[j] in m.Values {
      var k :| 0 <= k < |rows| && rows[k] == sorted[j];
      assert m[items[k].0] == ranked[j];
    }
  }

  /** `sorted(player_scores.values(), key=lambda e: e.total_score, reverse=True)`. */
  method RankByTotal(players: map<string, Player>) returns (ranked: seq<Player>)
    requires forall p, q :: p in players && q in players && p != q ==> players[p] != players[q]
    ensures |ranked| == |players|
    ensures forall p :: p in players ==> players[p] in ranked
    ensures forall i :: 0 <= i < |ranked| ==> ranked[i] in players.Values
    ensures forall i, j :: 0 <= i < j < |ranked| ==> ranked[i] != ranked[j] && ranked[i].Total() >= ranked[j].Total()
  {
    var items := MapItems(players);
    var rows := TotalsOf(items);
    assert DistinctKeys(rows) by {
      forall a, b | 0 <= a < b < |rows| ensures rows[a].0 != rows[b].0 {
        assert items[a].0 != items[b].0;
      }
    }
    var sorted := SortByKeyDesc(rows, TotalOf);
    PermutedFirsts(rows, sorted);
    TotalsCarried(items, rows, sorted);
    ValuesListed(players, items, rows, sorted);
    ranked := Firsts(sorted);
  }
}
