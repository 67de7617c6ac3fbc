/**
 * `title-holders.py`: the title holders of a round. For every leaderboard that
 * is not about realms or packs, the holders are the entries with the board's
 * highest score, in the board's own order. Loading the round and writing the
 * result file are not part of this model: the loaded leaderboards are given.
 */
module TitleHolders {
  import opened Wrappers
  import opened Text
  import opened Collections
  import opened RankingScraper

  /** `EXCLUDE_STATS`. */
  const ExcludeStats: seq<string> := ["Realm", "Pack"]

  /** A stat is kept when none of the excluded words occurs in its name. */
  predicate Included(statName: string) {
    !ContainsAny(statName, ExcludeStats)
  }

  /** `to_include`: the exclusion loop with its early return. */
  method ToInclude(statName: string) returns (b: bool)
    ensures b <==> Included(statName)
  {
    var i := 0;
    while i < |ExcludeStats|
      invariant 0 <= i <= |ExcludeStats|
      invariant forall k :: 0 <= k < i ==> !Contains(statName, ExcludeStats[k])
    {
      if Contains(statName, ExcludeStats[i]) {
        return false;
      }
      i := i + 1;
    }
    return true;
  }

  /** A stat is left out exactly when "Realm" or "Pack" occurs in its name. */
  lemma IncludedIff(statName: string)
    ensures Included(statName) <==> !Contains(statName, "Realm") && !Contains(statName, "Pack")
  {
    assert ExcludeStats[0] == "Realm" && ExcludeStats[1] == "Pack";
  }

  /** The realm boards are left out. */
  lemma RealmBoardExcluded()
    ensures !Included("Largest Realms")
  {
    var name := "Largest Realms";
    assert name[8..13] == "Realm";
    assert OccursAt(name, "Realm", 8);
    assert Contains(name, ExcludeStats[0]);
  }

  /** The pack boards are left out. */
  lemma PackBoardExcluded()
    ensures !Included("Largest Packs")
  {
    var name := "Largest Packs";
    assert name[8..12] == "Pack";
    assert OccursAt(name, "Pack", 8);
    assert Contains(name, ExcludeStats[1]);
  }

  /** `[r.score for r in rankings]`. */
  function ScoresOf(rs: seq<Ranking>): (r: seq<int>)
    ensures |r| == |rs|
    ensures forall i :: 0 <= i < |rs| ==> r[i] == rs[i].score
  {
    if |rs| == 0 then [] else [rs[0].score] + ScoresOf(rs[1..])
  }

  /** `[r for r in rankings if r.score == top]`. */
  function Holders(rs: seq<Ranking>, top: int): (h: seq<Ranking>)
    ensures forall x :: x in h <==> x in rs && x.score == top
    ensures |h| <= |rs|
  {
    if |rs| == 0 then []
    else
      var rest := Holders(rs[1..], top);
      assert forall x :: x in rs <==> x == rs[0] || x in rs[1..];
      (if rs[0].score == top then [rs[0]] else []) + rest
  }

  /** The holders keep the order of the board: filtering distributes over concatenation. */
  lemma {:induction false} HoldersAppend(a: seq<Ranking>, b: seq<Ranking>, top: int)
    ensures Holders(a + b, top) == Holders(a, top) + Holders(b, top)
  {
    if |a| == 0 {
      assert a + b == b;
    } else {
      assert (a + b)[1..] == a[1..] + b;
      HoldersAppend(a[1..], b, top);
    }
  }

  /**
   * The holders of one board: `max` of the scores, then the entries with that
   * score in the order of `rankings.values()` (`values`). `max` of an empty list
   * raises.
   */
  method BoardHolders(board: Leaderboard) returns (items: seq<(string, Ranking)>, holders: seq<Ranking>)
    requires |board| > 0
    ensures IsListing(board, items)
    ensures holders == Holders(Seconds(items), BoardMax(board))
    ensures HoldsTitle(board, holders)
  {
    items := MapItems(board);
    var values := Seconds(items);
    MapValuesListed(board, items, values);
    var scores := ScoresOf(values);
    ExtremesOfItems(board, items, scores);
    var top := MaxOf(scores);
    holders := Holders(values, top);
    HoldersOfListing(board, values, top);
  }

  /** `holders` is what the comprehension gives for some iteration order of `rankings.values()`. */
  ghost predicate ListedHolders(board: Leaderboard, holders: seq<Ranking>)
    requires |board| > 0
  {
    exists items :: IsListing(board, items) && holders == Holders(Seconds(items), BoardMax(board))
  }

  /** Filtering a list without repetitions gives a list without repetitions. */
  lemma {:induction false} HoldersDistinct(rs: seq<Ranking>, top: int)
    requires Distinct(rs)
    ensures Distinct(Holders(rs, top))
  {
    if |rs| > 0 {
      var tail := rs[1..];
      assert Distinct(tail) by {
        forall i, j | 0 <= i < j < |tail| ensures tail[i] != tail[j] {
          assert tail[i] == rs[i + 1] && tail[j] == rs[j + 1];
        }
      }
      HoldersDistinct(tail, top);
      assert rs[0] !in tail by {
        forall i | 0 <= i < |tail| ensures tail[i] != rs[0] {
          assert tail[i] == rs[i + 1];
        }
      }
      var rest := Holders(tail, top);
      var h := Holders(rs, top);
      if rs[0].score == top {
        assert h == [rs[0]] + rest;
        forall i, j | 0 <= i < j < |h| ensures h[i] != h[j] {
          assert h[j] == rest[j - 1];
          if i > 0 {
            assert h[i] == rest[i - 1];
          }
        }
      }
    }
  }

  /**
   * On a board keyed by player, as every loaded board is, each title holder is
   * listed once: the entries of different keys differ.
   */
  lemma ListedHoldersDistinct(board: Leaderboard, holders: seq<Ranking>)
    requires |board| > 0 && ListedHolders(board, holders)
    requires forall p :: p in board ==> board[p].player == p
    ensures Distinct(holders)
  {
    var items: seq<(string, Ranking)> :| IsListing(board, items) && holders == Holders(Seconds(items), BoardMax(board));
    var values := Seconds(items);
    forall i, j | 0 <= i < j < |values| ensures values[i] != values[j] {
      assert values[i].player == items[i].0 && values[j].player == items[j].0;
    }
    HoldersDistinct(values, BoardMax(board));
  }

  /** Filtering any listing of the board's entries by the top score gives the title holders. */
  lemma HoldersOfListing(board: Leaderboard, values: seq<Ranking>, top: int)
    requires |board| > 0 && top == BoardMax(board)
    requires forall x :: x in values <==> x in board.Values
    ensures HoldsTitle(board, Holders(values, top))
  {
    var p :| p in board && board[p].score == top;
    assert board[p] in values;
  }

  /** The holders of a board: not empty, and exactly its entries with the highest score. */
  ghost predicate HoldsTitle(board: Leaderboard, holders: seq<Ranking>)
    requires |board| > 0
  {
    |holders| > 0 && forall x :: x in holders <==> x in board.Values && x.score == BoardMax(board)
  }

  /** Every title holder scores at least as much as every entry of its board. */
  lemma HolderBeatsBoard(board: Leaderboard, holders: seq<Ranking>)
    requires |board| > 0 && HoldsTitle(board, holders)
    ensures forall x, p :: x in holders && p in board ==> x.score >= board[p].score
  {
    forall x, p | x in holders && p in board ensures x.score >= board[p].score {
      assert x.score == BoardMax(board);
    }
  }

  /**
   * A board where one player alone has the top score has that entry as its only
   * title holder, listed once when the holders have no repetitions.
   */
  lemma SingleTopHolder(board: Leaderboard, holders: seq<Ranking>, x: Ranking)
    requires |board| > 0 && HoldsTitle(board, holders)
    requires x in holders
    requires forall p, q :: p in board && q in board && board[p].score == BoardMax(board) && board[q].score == BoardMax(board) ==> p == q
    ensures forall y :: y in holders ==> y == x
    ensures Distinct(holders) ==> holders == [x]
  {
    forall y | y in holders ensures y == x {
      var p :| p in board && board[p] == x;
      var q :| q in board && board[q] == y;
    }
    if |holders| > 1 {
      assert holders[0] == holders[1];
    }
  }

  /**
   * The loop of `main`: one entry per stat, holding the board's title holders.
   * Every board loaded by LoadStats is non-empty (LoadedBoardIsNonEmpty).
   */
  method TitleHoldersOf(stats: RoundStats) returns (titleHolders: map<string, seq<Ranking>>)
    requires forall s :: s in stats ==> |stats[s]| > 0
    ensures titleHolders.Keys == stats.Keys
    ensures forall s {:trigger titleHolders[s]} :: s in titleHolders ==> BoardTitle(stats[s], titleHolders[s])
  {
    titleHolders := map[];
    var rest := stats.Keys;
    while rest != {}
      invariant rest <= stats.Keys
      invariant titleHolders.Keys == stats.Keys - rest
      invariant forall s {:trigger titleHolders[s]} :: s in titleHolders ==> BoardTitle(stats[s], titleHolders[s])
      decreases |rest|
    {
      var statName :| statName in rest;
      var holders := BoardTitleOf(stats[statName]);
      titleHolders := titleHolders[statName := holders];
      rest := rest - {statName};
    }
  }

  /**
   * The holders of one board: exactly its top-scoring entries, in the order of
   * some iteration of `rankings.values()`.
   */
  ghost predicate BoardTitle(board: Leaderboard, holders: seq<Ranking>)
    requires |board| > 0
  {
    HoldsTitle(board, holders) && ListedHolders(board, holders)
  }

  /** The value of the comprehension for one board, with both promises about it. */
  method BoardTitleOf(board: Leaderboard) returns (holders: seq<Ranking>)
    requires |board| > 0
    ensures BoardTitle(board, holders)
  {
    var items: seq<(string, Ranking)>;
    items, holders := BoardHolders(board);
    assert ListedHolders(board, holders);
  }

  /**
   * Every board LoadStats returns has an entry, so TitleHoldersOf can take
   * LoadStats' result, and is keyed by player.
   */
  lemma LoadedBoardIsNonEmpty(rows: seq<Row>, board: Leaderboard)
    requires LoadedBoard(rows, board)
    ensures |board| > 0
    ensures forall p :: p in board ==> board[p].player == p
  {
    var b: Leaderboard :| |b| > 0 && KeyedByLastRow(rows, ParseRow, PlayerOf, b) && board == ScaledBoard(b, 0.0, 1.0);
    ScalingKeepsEntries(b, 0.0, 1.0);
    assert |board| == |board.Keys| == |b.Keys| == |b|;
  }

  /**
   * `main` up to the output file: load the round's stat pages through the
   * filter, then take the title holders of every board that loaded.
   */
  method RoundTitleHolders(pages: Pages) returns (r: Result<map<string, seq<Ranking>>, ParseError>)
    ensures r.Ok? <==> forall s :: s in pages && Included(s) && pages[s].Some? ==> !PageFails(pages[s].value)
    ensures r.Ok? ==> forall s :: s in r.value <==> s in pages && Included(s) && pages[s].Some?
    ensures r.Ok? ==> forall s :: s in r.value ==>
      exists board :: LoadedBoard(pages[s].value, board) && |board| > 0 && BoardTitle(board, r.value[s])
    ensures r.Ok? ==> forall s :: s in r.value ==> Distinct(r.value[s])
  {
    var stats := LoadStats(pages, Included);
    if stats.Err? {
      return Err(stats.error);
    }
    forall s | s in stats.value ensures |stats.value[s]| > 0 {
      LoadedBoardIsNonEmpty(pages[s].value, stats.value[s]);
    }
    var titleHolders := TitleHoldersOf(stats.value);
    forall s | s in titleHolders
      ensures exists board :: LoadedBoard(pages[s].value, board) && |board| > 0 && BoardTitle(board, titleHolders[s])
      ensures Distinct(titleHolders[s])
    {
      var board := stats.value[s];
      assert LoadedBoard(pages[s].value, board);
      LoadedBoardIsNonEmpty(pages[s].value, board);
      ListedHoldersDistinct(board, titleHolders[s]);
    }
    r := Ok(titleHolders);
  }
}
