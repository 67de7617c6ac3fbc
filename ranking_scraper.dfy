/**
 * `rush/rankingscraper.py`: turning the rows of a Valhalla leaderboard page into
 * `Ranking` records keyed by player, and min-max feature scaling of the scores.
 * Fetching the pages and walking the HTML are not part of this model: a page is
 * given as its table rows, each row the stripped texts of its cells.
 */
module RankingScraper {
  import opened Wrappers
  import opened Text
  import opened Collections

  /** One player's entry in one leaderboard; `fs` is the feature-scaled score, 0 until scaled. */
  datatype Ranking = Ranking(rank: int, player: string, score: int, fs: real)

  /** One leaderboard: player name to entry. */
  type Leaderboard = map<string, Ranking>

  /** All leaderboards of one round: stat name to leaderboard. */
  type RoundStats = map<string, Leaderboard>

  /** The stripped texts of the cells of one table row. */
  type Row = seq<string>

  /**
   * The exceptions loading a page can raise: `IndexError` and `ValueError` from
   * `int()` in the row conversion, and the `ValueError` of `max()` on a page
   * without rows.
   */
  datatype ParseError = MissingColumn(column: int) | NotAnInteger(text: string) | EmptyLeaderboard

  /** `row[column]`, or the `IndexError`. */
  function Cell(row: Row, column: nat): (r: Result<string, ParseError>)
    ensures r.Ok? <==> column < |row|
    ensures r.Ok? ==> r.value == row[column]
  {
    if column < |row| then Ok(row[column]) else Err(MissingColumn(column))
  }

  /** `int(text)`. */
  function IntCell(text: string): (r: Result<int, ParseError>)
    ensures r.Ok? <==> ParseInt(text).Some?
    ensures r.Ok? ==> ParseInt(text) == Some(r.value)
  {
    match ParseInt(text)
    case Some(n) => Ok(n)
    case None => Err(NotAnInteger(text))
  }

  /** `int(text.replace(',', ''))`: a score with thousands separators. */
  function ScoreCell(text: string): Result<int, ParseError> {
    IntCell(RemoveAll(text, ','))
  }

  /** Every score as the leaderboards print it, with thousands separators, reads back. */
  lemma ScoreCellOfGrouped(n: int)
    ensures ScoreCell(Grouped(n)) == Ok(n)
  {
    ParseIntOfGrouped(n);
  }

  /**
   * `Ranking(int(entry[0]), entry[2], int(entry[-1].replace(',', '')))`, the
   * arguments evaluated left to right so that the first failure is the one raised.
   */
  function ParseRow(row: Row): (r: Result<Ranking, ParseError>)
    ensures r.Ok? <==> |row| >= 3 && ParseInt(row[0]).Some? && ParseInt(RemoveAll(row[|row| - 1], ',')).Some?
    ensures r.Ok? ==> && Some(r.value.rank) == ParseInt(row[0])
                      && r.value.player == row[2]
                      && Some(r.value.score) == ParseInt(RemoveAll(row[|row| - 1], ','))
                      && r.value.fs == 0.0
  {
    match Cell(row, 0)
    case Err(e) => Err(e)
    case Ok(rankText) =>
      match IntCell(rankText)
      case Err(e) => Err(e)
      case Ok(rank) =>
        match Cell(row, 2)
        case Err(e) => Err(e)
        case Ok(player) =>
          match ScoreCell(row[|row| - 1])
          case Err(e) => Err(e)
          case Ok(score) => Ok(Ranking(rank, player, score, 0.0))
  }

  /**
   * A row printed from a ranking (rank first, player third, the score last with
   * thousands separators) converts back to it.
   */
  lemma ParseRowOfPrintedRanking(rank: int, player: string, score: int, middle: seq<string>)
    requires |middle| >= 1
    ensures ParseRow([IntToString(rank), middle[0], player] + middle[1..] + [Grouped(score)])
         == Ok(Ranking(rank, player, score, 0.0))
  {
    var row := [IntToString(rank), middle[0], player] + middle[1..] + [Grouped(score)];
    ParseIntOfIntToString(rank);
    ScoreCellOfGrouped(score);
    assert row[0] == IntToString(rank) && row[2] == player && row[|row| - 1] == Grouped(score);
  }

  /** A cell such as "1,234" is the score 1234: all commas are dropped before `int()`. */
  lemma ScoreCellDropsCommas()
    ensures ScoreCell("1,234") == Ok(1234)
  {
    ThousandsSeparatorExample();
  }

  /** A row with fewer than three cells is an `IndexError`; a non-numeric rank a `ValueError`. */
  lemma ParseRowErrors(row: Row)
    ensures |row| == 0 ==> ParseRow(row) == Err(MissingColumn(0))
    ensures |row| > 0 && ParseInt(row[0]).None? ==> ParseRow(row) == Err(NotAnInteger(row[0]))
    ensures |row| > 0 && ParseInt(row[0]).Some? && |row| < 3 ==> ParseRow(row) == Err(MissingColumn(2))
  {
  }

  // ---------------------------------------------------------------------------
  // parse_entries_from_page: rows -> dict keyed by player

  /**
   * `m` is what filling a dict row by row gives: every row's player is a key, and
   * each key holds the record of the LAST row with that player.
   */
  ghost predicate KeyedByLastRow<T>(rows: seq<Row>, parse: Row -> Result<T, ParseError>, player: T -> string, m: map<string, T>) {
    && (forall i :: 0 <= i < |rows| ==> parse(rows[i]).Ok? && player(parse(rows[i]).value) in m)
    && (forall p :: p in m ==>
          player(m[p]) == p &&
          exists i :: 0 <= i < |rows| && parse(rows[i]) == Ok(m[p]) &&
            forall j :: i < j < |rows| ==> player(parse(rows[j]).value) != p)
  }

  /** Storing one more converted row under its player keeps the map keyed by the last row. */
  lemma KeyedByLastRowStep<T>(rows: seq<Row>, row: Row, parse: Row -> Result<T, ParseError>, player: T -> string,
                              m: map<string, T>, entry: T)
    requires KeyedByLastRow(rows, parse, player, m)
    requires parse(row) == Ok(entry)
    ensures KeyedByLastRow(rows + [row], parse, player, m[player(entry) := entry])
  {
    var rows', m' := rows + [row], m[player(entry) := entry];
    forall i | 0 <= i < |rows'| ensures parse(rows'[i]).Ok? && player(parse(rows'[i]).value) in m' {
      if i < |rows| {
        assert rows'[i] == rows[i];
      }
    }
    forall p | p in m'
      ensures player(m'[p]) == p
      ensures exists i :: 0 <= i < |rows'| && parse(rows'[i]) == Ok(m'[p]) &&
                forall j :: i < j < |rows'| ==> player(parse(rows'[j]).value) != p
    {
      if p == player(entry) {
        assert parse(rows'[|rows|]) == Ok(m'[p]);
      } else {
        var i :| 0 <= i < |rows| && parse(rows[i]) == Ok(m[p]) &&
                 forall j :: i < j < |rows| ==> player(parse(rows[j]).value) != p;
        assert rows'[i] == rows[i];
        forall j | i < j < |rows'| ensures player(parse(rows'[j]).value) != p {
          if j < |rows| {
            assert rows'[j] == rows[j];
          }
        }
      }
    }
  }

  /**
   * The row loop of `parse_entries_from_page`, for any record type: convert each
   * row, store it under its player (a later row overwrites an earlier one), and
   * stop at the first row that raises.
   */
  method CollectByPlayer<T>(rows: seq<Row>, parse: Row -> Result<T, ParseError>, player: T -> string)
    returns (r: Result<map<string, T>, ParseError>)
    ensures r.Ok? <==> forall i :: 0 <= i < |rows| ==> parse(rows[i]).Ok?
    ensures r.Ok? ==> KeyedByLastRow(rows, parse, player, r.value)
    ensures r.Err? ==> exists i :: 0 <= i < |rows| && parse(rows[i]) == Err(r.error) &&
                                   forall j :: 0 <= j < i ==> parse(rows[j]).Ok?
  {
    var results: map<string, T> := map[];
    var i := 0;
    while i < |rows|
      invariant 0 <= i <= |rows|
      invariant KeyedByLastRow(rows[..i], parse, player, results)
    {
      match parse(rows[i])
      case Err(e) =>
        assert forall j :: 0 <= j < i ==> parse(rows[j]).Ok? by {
          assert forall j :: 0 <= j < i ==> rows[..i][j] == rows[j];
        }
        return Err(e);
      case Ok(entry) =>
        KeyedByLastRowStep(rows[..i], rows[i], parse, player, results, entry);
        assert rows[..i + 1] == rows[..i] + [rows[i]];
        results := results[player(entry) := entry];
        i := i + 1;
    }
    assert rows[..i] == rows;
    r := Ok(results);
  }

  /** The dict key of a record: `ranking.player`. */
  function PlayerOf(x: Ranking): string {
    x.player
  }

  /** `parse_entries_from_page`: the table rows of one stat page as a leaderboard. */
  method ParseEntriesFromPage(rows: seq<Row>) returns (r: Result<Leaderboard, ParseError>)
    ensures r.Ok? <==> forall i :: 0 <= i < |rows| ==> ParseRow(rows[i]).Ok?
    ensures r.Ok? ==> KeyedByLastRow(rows, ParseRow, PlayerOf, r.value)
    ensures r.Ok? ==> forall p :: p in r.value ==> r.value[p].player == p && r.value[p].fs == 0.0
    ensures r.Err? ==> exists i :: 0 <= i < |rows| && ParseRow(rows[i]) == Err(r.error) &&
                                   forall j :: 0 <= j < i ==> ParseRow(rows[j]).Ok?
  {
    r := CollectByPlayer(rows, ParseRow, PlayerOf);
  }

  // ---------------------------------------------------------------------------
  // feature_scaled_scores

  /** The raw scores of a leaderboard. */
  function Scores(b: Leaderboard): set<int> {
    set p | p in b :: b[p].score
  }

  /** `max([r.score for r in rankings.values()])`. */
  ghost function BoardMax(b: Leaderboard): (m: int)
    requires |b| > 0
    ensures m in Scores(b) && forall p :: p in b ==> b[p].score <= m
  {
    var p :| p in b;
    assert b[p].score in Scores(b);
    assert forall q :: q in b ==> b[q].score in Scores(b);
    SetMax(Scores(b))
  }

  /** `min([r.score for r in rankings.values()])`. */
  ghost function BoardMin(b: Leaderboard): (m: int)
    requires |b| > 0
    ensures m in Scores(b) && forall p :: p in b ==> m <= b[p].score
  {
    var p :| p in b;
    assert b[p].score in Scores(b);
    assert forall q :: q in b ==> b[q].score in Scores(b);
    SetMin(Scores(b))
  }

  /** The new `fs_score` of one entry (lines 61-64): linear in the score, or 1 when there is no spread. */
  function ScaledScore(score: int, minScore: int, maxScore: int, low: real, high: real): real {
    if maxScore - minScore > 0 then
      low + Step((score - minScore) as real, (maxScore - minScore) as real, high - low)
    else 1.0
  }

  /** The fraction t / d of the width w. */
  function Step(t: real, d: real, w: real): real
    requires d > 0.0
  {
    t * w / d
  }

  /** Every entry of `b` with its `fs_score` rescaled against the given extremes. */
  function ScaledWith(b: Leaderboard, minScore: int, maxScore: int, low: real, high: real): Leaderboard {
    map p | p in b :: b[p].(fs := ScaledScore(b[p].score, minScore, maxScore, low, high))
  }

  /** The leaderboard after `feature_scaled_scores(rankings, low, high)`. */
  ghost function ScaledBoard(b: Leaderboard, low: real, high: real): Leaderboard
    requires |b| > 0
  {
    ScaledWith(b, BoardMin(b), BoardMax(b), low, high)
  }

  /**
   * `feature_scaled_scores`: the maximum and minimum score, then a loop that
   * rewrites every entry's `fs_score`. An empty leaderboard makes `max` raise.
   */
  method FeatureScaledScores(rankings: Leaderboard, low: real, high: real) returns (scaled: Leaderboard)
    requires |rankings| > 0
    ensures scaled == ScaledBoard(rankings, low, high)
  {
    var items := MapItems(rankings);
    var scores := seq(|items|, i requires 0 <= i < |items| => items[i].1.score);
    var maxScore := MaxOf(scores);
    var minScore := MinOf(scores);
    ExtremesOfItems(rankings, items, scores);
    scaled := RescaleEntries(rankings, items, minScore, maxScore, low, high);
  }

  /** The loop of `feature_scaled_scores` that sets each entry's `fs_score`, over the items of the board. */
  method RescaleEntries(b: Leaderboard, items: seq<(string, Ranking)>, minScore: int, maxScore: int, low: real, high: real)
    returns (scaled: Leaderboard)
    requires forall i :: 0 <= i < |items| ==> items[i].0 in b && b[items[i].0] == items[i].1
    requires forall p :: p in b ==> exists i :: 0 <= i < |items| && items[i].0 == p
    ensures scaled == ScaledWith(b, minScore, maxScore, low, high)
  {
    scaled := map[];
    var i := 0;
    while i < |items|
      invariant 0 <= i <= |items|
      invariant forall k :: 0 <= k < i ==> items[k].0 in scaled
      invariant forall p :: p in scaled ==> p in b
      invariant forall p :: p in scaled ==>
        scaled[p] == b[p].(fs := ScaledScore(b[p].score, minScore, maxScore, low, high))
    {
      var (name, r) := items[i];
      scaled := scaled[name := r.(fs := ScaledScore(r.score, minScore, maxScore, low, high))];
      i := i + 1;
    }
    assert scaled.Keys == b.Keys;
  }

  /** The extremes of the item scores are the extremes of the leaderboard. */
  lemma ExtremesOfItems(b: Leaderboard, items: seq<(string, Ranking)>, scores: seq<int>)
    requires |b| > 0 && |items| == |b| && |scores| == |items|
    requires forall i :: 0 <= i < |items| ==> items[i].0 in b && b[items[i].0] == items[i].1
    requires forall p :: p in b ==> exists i :: 0 <= i < |items| && items[i].0 == p
    requires forall i :: 0 <= i < |items| ==> scores[i] == items[i].1.score
    ensures forall x :: x in scores <==> x in Scores(b)
    ensures MaxOf(scores) == BoardMax(b) && MinOf(scores) == BoardMin(b)
  {
    forall x | x in Scores(b) ensures x in scores {
      var p :| p in b && b[p].score == x;
      var i :| 0 <= i < |items| && items[i].0 == p;
      assert scores[i] == x;
    }
    forall x | x in scores ensures x in Scores(b) {
      var i :| 0 <= i < |scores| && scores[i] == x;
      assert b[items[i].0].score == x;
    }
  }

  /** Only `fs_score` changes: the same players, with the same rank, name and raw score. */
  lemma ScalingKeepsEntries(b: Leaderboard, low: real, high: real)
    requires |b| > 0
    ensures ScaledBoard(b, low, high).Keys == b.Keys
    ensures forall p :: p in b ==>
      var s := ScaledBoard(b, low, high)[p];
      s.rank == b[p].rank && s.player == b[p].player && s.score == b[p].score
  {
  }

  /** With a spread of scores, a lowest-scoring entry gets `low` and a highest-scoring one `high`. */
  lemma ScalingHitsBounds(b: Leaderboard, low: real, high: real)
    requires |b| > 0 && BoardMax(b) > BoardMin(b)
    ensures forall p :: p in b && b[p].score == BoardMin(b) ==> ScaledBoard(b, low, high)[p].fs == low
    ensures forall p :: p in b && b[p].score == BoardMax(b) ==> ScaledBoard(b, low, high)[p].fs == high
  {
    var lo, hi := BoardMin(b), BoardMax(b);
    var d := (hi - lo) as real;
    StepAtEnds(d, high - low);
    assert ScaledScore(lo, lo, hi, low, high) == low;
    assert ScaledScore(hi, lo, hi, low, high) == high;
  }

  lemma StepAtEnds(d: real, w: real)
    requires d > 0.0
    ensures Step(0.0, d, w) == 0.0 && Step(d, d, w) == w
  {
  }

  /** With a spread of scores and low <= high, every scaled score lies in [low, high]. */
  lemma ScalingWithinBounds(b: Leaderboard, low: real, high: real)
    requires |b| > 0 && BoardMax(b) > BoardMin(b) && low <= high
    ensures forall p :: p in b ==> low <= ScaledBoard(b, low, high)[p].fs <= high
  {
    var lo, hi := BoardMin(b), BoardMax(b);
    var d := (hi - lo) as real;
    StepAtEnds(d, high - low);
    forall p | p in b ensures low <= ScaledBoard(b, low, high)[p].fs <= high {
      var t := (b[p].score - lo) as real;
      StepMonotone(0.0, t, d, high - low);
      StepMonotone(t, d, d, high - low);
    }
  }

  /** The scaling step t * w / d grows with t when the width w is not negative. */
  lemma StepMonotone(t1: real, t2: real, d: real, w: real)
    requires t1 <= t2 && d > 0.0 && w >= 0.0
    ensures Step(t1, d, w) <= Step(t2, d, w)
  {
    ProductNonNegative(t2 - t1, w);
    assert t1 * w <= t2 * w by {
      assert (t2 - t1) * w == t2 * w - t1 * w;
    }
    DivideMonotone(t1 * w, t2 * w, d);
  }

  lemma ProductNonNegative(a: real, b: real)
    requires a >= 0.0 && b >= 0.0
    ensures a * b >= 0.0
  {
  }

  lemma DivideMonotone(x: real, y: real, d: real)
    requires x <= y && d > 0.0
    ensures x / d <= y / d
  {
    assert (y - x) / d >= 0.0;
    assert y / d - x / d == (y - x) / d;
  }

  /** Equal raw scores give equal scaled scores, and for low <= high a higher score never scales lower. */
  lemma ScalingMonotone(b: Leaderboard, low: real, high: real, p: string, q: string)
    requires |b| > 0 && p in b && q in b
    ensures b[p].score == b[q].score ==> ScaledBoard(b, low, high)[p].fs == ScaledBoard(b, low, high)[q].fs
    ensures low <= high && b[p].score <= b[q].score ==>
      ScaledBoard(b, low, high)[p].fs <= ScaledBoard(b, low, high)[q].fs
  {
    var lo, hi := BoardMin(b), BoardMax(b);
    if hi > lo && low <= high && b[p].score <= b[q].score {
      var d := (hi - lo) as real;
      StepMonotone((b[p].score - lo) as real, (b[q].score - lo) as real, d, high - low);
    }
  }

  /** Without a spread (one entry, or all tied), every scaled score is 1, whatever `low` and `high` are. */
  lemma ScalingWithoutSpread(b: Leaderboard, low: real, high: real)
    requires |b| > 0 && BoardMax(b) == BoardMin(b)
    ensures forall p :: p in b ==> ScaledBoard(b, low, high)[p].fs == 1.0
  {
  }

  /** Every scaled score of the round lies in [0, 1], as `load_stats` produces them. */
  ghost predicate ScaledToUnit(stats: RoundStats) {
    forall s, p :: s in stats && p in stats[s] ==> 0.0 <= stats[s][p].fs <= 1.0
  }

  /** Every feature-scaled score of the board lies in [0, 1]. */
  ghost predicate BoardInUnit(board: Leaderboard) {
    forall p :: p in board ==> 0.0 <= board[p].fs <= 1.0
  }

  /** Scaling with the defaults low = 0 and high = 1 puts every score in [0, 1], with or without a spread. */
  lemma ScaledBoardInUnit(b: Leaderboard)
    requires |b| > 0
    ensures forall p :: p in b ==> 0.0 <= ScaledBoard(b, 0.0, 1.0)[p].fs <= 1.0
  {
    if BoardMax(b) > BoardMin(b) {
      ScalingWithinBounds(b, 0.0, 1.0);
    } else {
      ScalingWithoutSpread(b, 0.0, 1.0);
    }
  }

  // ---------------------------------------------------------------------------
  // load_stats

  /** `{k: v for k, v in stat_page_urls.items() if stat_filter(k)}`. */
  function FilterStatPages<V>(pages: map<string, V>, statFilter: string -> bool): (r: map<string, V>)
    ensures forall k :: k in r <==> k in pages && statFilter(k)
    ensures forall k :: k in r ==> r[k] == pages[k]
  {
    map k | k in pages && statFilter(k) :: pages[k]
  }

  /** Filtering twice with the same filter is filtering once. */
  lemma FilterStatPagesIdempotent<V>(pages: map<string, V>, statFilter: string -> bool)
    ensures FilterStatPages(FilterStatPages(pages, statFilter), statFilter) == FilterStatPages(pages, statFilter)
  {
    var once := FilterStatPages(pages, statFilter);
    assert FilterStatPages(once, statFilter).Keys == once.Keys;
  }

  /** A page whose loading raises: it has no rows (`max` of nothing) or a row does not convert. */
  ghost predicate PageFails(rows: seq<Row>) {
    |rows| == 0 || exists i :: 0 <= i < |rows| && ParseRow(rows[i]).Err?
  }

  /** `e` is what loading the rows raises: the error of the first row that does not convert, or that of `max` on no rows. */
  ghost predicate PageRaises(rows: seq<Row>, e: ParseError) {
    || (|rows| == 0 && e == EmptyLeaderboard)
    || exists i :: 0 <= i < |rows| && ParseRow(rows[i]) == Err(e) && forall j :: 0 <= j < i ==> ParseRow(rows[j]).Ok?
  }

  /** `board` is what loading the rows gives: the records keyed by the last row per player, scaled to [0, 1]. */
  ghost predicate LoadedBoard(rows: seq<Row>, board: Leaderboard) {
    exists b: Leaderboard :: |b| > 0 && KeyedByLastRow(rows, ParseRow, PlayerOf, b) && board == ScaledBoard(b, 0.0, 1.0)
  }

  /** The rows of every page, or `None` where `get_page` found nothing. */
  type Pages = map<string, Option<seq<Row>>>

  /** The body of the page loop of `load_stats`: convert the rows of one page and scale them to [0, 1]. */
  method LoadPage(rows: seq<Row>) returns (r: Result<Leaderboard, ParseError>)
    ensures r.Ok? <==> !PageFails(rows)
    ensures r.Ok? ==> LoadedBoard(rows, r.value)
    ensures r.Ok? ==> BoardInUnit(r.value)
    ensures r.Err? ==> PageRaises(rows, r.error)
  {
    var parsed := ParseEntriesFromPage(rows);
    if parsed.Err? {
      return Err(parsed.error);
    }
    // Once every row converted, the dict is empty exactly when there were no rows, and `max` raises.
    if |rows| == 0 {
      return Err(EmptyLeaderboard);
    }
    RowsGiveEntries(rows, parsed.value);
    var scaled := FeatureScaledScores(parsed.value, 0.0, 1.0);
    ScaledBoardInUnit(parsed.value);
    r := Ok(scaled);
  }

  /**
   * `load_stats` once the pages are fetched: keep the stat pages the filter
   * accepts, convert and scale each page that loaded, and skip (with a warning)
   * those that did not.  The first page that raises ends the load.
   */
  method LoadStats(pages: Pages, statFilter: string -> bool) returns (r: Result<RoundStats, ParseError>)
    ensures r.Ok? <==> forall s :: s in pages && statFilter(s) && pages[s].Some? ==> !PageFails(pages[s].value)
    ensures r.Ok? ==> forall s :: s in r.value <==> s in pages && statFilter(s) && pages[s].Some?
    ensures r.Ok? ==> forall s :: s in r.value ==> LoadedBoard(pages[s].value, r.value[s])
    ensures r.Ok? ==> ScaledToUnit(r.value)
    ensures r.Err? ==> exists s :: s in pages && statFilter(s) && pages[s].Some? && PageRaises(pages[s].value, r.error)
  {
    var statPages := FilterStatPages(pages, statFilter);
    var result: RoundStats := map[];
    var rest := statPages.Keys;
    while rest != {}
      invariant rest <= statPages.Keys
      invariant forall s :: s in statPages && s !in rest && statPages[s].Some? ==> !PageFails(statPages[s].value)
      invariant forall s :: s in result <==> s in statPages && s !in rest && statPages[s].Some?
      invariant forall s :: s in result ==> LoadedBoard(statPages[s].value, result[s])
      invariant forall s :: s in result ==> BoardInUnit(result[s])
      decreases |rest|
    {
      var name :| name in rest;
      var page := statPages[name];
      if page.Some? {
        var board := LoadPage(page.value);
        if board.Err? {
          assert name in statPages && statPages[name].Some? && PageFails(statPages[name].value);
          assert name in pages && statFilter(name) && PageRaises(pages[name].value, board.error);
          return Err(board.error);
        }
        result := result[name := board.value];
      }
      rest := rest - {name};
    }
    assert forall s :: s in statPages && statPages[s].Some? ==> s in result;
    r := Ok(result);
  }

  /** Converting at least one row gives at least one entry. */
  lemma RowsGiveEntries(rows: seq<Row>, b: Leaderboard)
    requires KeyedByLastRow(rows, ParseRow, PlayerOf, b) && |rows| > 0
    ensures |b| > 0
  {
    assert PlayerOf(ParseRow(rows[0]).value) in b;
  }
}
