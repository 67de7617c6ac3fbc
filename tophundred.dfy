/**
 * `tophundred.py`: the generator of the wiki page listing the top 100 dominions
 * of a round. Each table row becomes an entry whose link name is a slug of the
 * dominion name; the entries are sorted by rank, the dominions of the first
 * entry's realm are marked as the winning realm, and the lines are put into a
 * wiki table. Fetching the page and walking its HTML are not part of this
 * model: the table rows are given as the stripped texts of their cells.
 */
module TopHundred {
  import opened Wrappers
  import opened Text
  import opened Collections
  import opened Config
  import opened RankingScraper

  // ---------------------------------------------------------------------------
  // The link slug of `Ranking.__post_init__`

  /** `re.sub('[^A-Za-z0-9]', '_', s)`: every character outside the class becomes an underscore. */
  function ReplaceNonAlnum(s: string): (r: string)
    ensures |r| == |s|
    ensures forall i :: 0 <= i < |s| ==> r[i] == (if IsAsciiAlnum(s[i]) then s[i] else '_')
  {
    if |s| == 0 then "" else [if IsAsciiAlnum(s[0]) then s[0] else '_'] + ReplaceNonAlnum(s[1..])
  }

  /** `re.sub('_{2,}', '_', s)`: every run of two or more underscores becomes one underscore. */
  function CollapseUnderscores(s: string): string {
    if |s| <= 1 then s
    else if s[0] == '_' && s[1] == '_' then CollapseUnderscores(s[1..])
    else [s[0]] + CollapseUnderscores(s[1..])
  }

  /** `re.sub('_*$', '', s)`: the trailing underscores are dropped. */
  function StripTrailing(s: string): string {
    if |s| > 0 && s[|s| - 1] == '_' then StripTrailing(s[..|s| - 1]) else s
  }

  /** The slug part of the link name: the three substitutions in order. */
  function Slug(dominion: string): string {
    StripTrailing(CollapseUnderscores(ReplaceNonAlnum(dominion)))
  }

  predicate SlugChars(s: string) {
    forall i :: 0 <= i < |s| ==> IsAsciiAlnum(s[i]) || s[i] == '_'
  }

  predicate NoDoubleUnderscore(s: string) {
    forall i :: 0 <= i < |s| - 1 ==> !(s[i] == '_' && s[i + 1] == '_')
  }

  predicate NoTrailingUnderscore(s: string) {
    |s| == 0 || s[|s| - 1] != '_'
  }

  /** The ASCII letters and digits of `s`, in order. */
  function Alnums(s: string): string {
    if |s| == 0 then "" else (if IsAsciiAlnum(s[0]) then [s[0]] else "") + Alnums(s[1..])
  }

  /** The characters of `s` other than the underscore, in order. */
  function NonUnderscores(s: string): string {
    if |s| == 0 then "" else (if s[0] != '_' then [s[0]] else "") + NonUnderscores(s[1..])
  }

  lemma {:induction false} NonUnderscoresAppend(a: string, b: string)
    ensures NonUnderscores(a + b) == NonUnderscores(a) + NonUnderscores(b)
  {
    if |a| > 0 {
      assert (a + b)[1..] == a[1..] + b;
      NonUnderscoresAppend(a[1..], b);
    } else {
      assert a + b == b;
    }
  }

  /** Replacing leaves every ASCII alphanumeric where it was and turns the rest into underscores. */
  lemma {:induction false} ReplaceKeepsAlnums(s: string)
    ensures SlugChars(ReplaceNonAlnum(s))
    ensures NonUnderscores(ReplaceNonAlnum(s)) == Alnums(s)
  {
    if |s| > 0 {
      ReplaceKeepsAlnums(s[1..]);
      assert ReplaceNonAlnum(s)[1..] == ReplaceNonAlnum(s[1..]);
    }
  }

  /** A non-empty string collapses to a non-empty string with the same first character. */
  lemma {:induction false} CollapseHead(s: string)
    requires |s| > 0
    ensures |CollapseUnderscores(s)| > 0 && CollapseUnderscores(s)[0] == s[0]
  {
    if |s| > 1 && s[0] == '_' && s[1] == '_' {
      CollapseHead(s[1..]);
    }
  }

  /**
   * Collapsing keeps the non-underscore characters and the character class,
   * leaves no run of two, and turns each run of underscores into exactly one.
   */
  lemma {:induction false} CollapseProperties(s: string)
    ensures SlugChars(s) ==> SlugChars(CollapseUnderscores(s))
    ensures NoDoubleUnderscore(CollapseUnderscores(s))
    ensures NonUnderscores(CollapseUnderscores(s)) == NonUnderscores(s)
    ensures CollapseUnderscores(s) == CollapseScan(s, false)
  {
    CollapseIsScan(s, false);
    assert (if false then "_" else "") + s == s;
    if |s| > 1 {
      var rest := CollapseUnderscores(s[1..]);
      CollapseProperties(s[1..]);
      CollapseHead(s[1..]);
      if !(s[0] == '_' && s[1] == '_') {
        var r := [s[0]] + rest;
        assert r[1..] == rest;
        assert forall i :: 1 <= i < |r| ==> r[i] == rest[i - 1];
      }
    }
  }

  /** Stripping drops only underscores at the end, and leaves none there. */
  lemma {:induction false} StripProperties(s: string)
    ensures var r := StripTrailing(s);
      && |r| <= |s| && r == s[..|r|]
      && (forall i :: |r| <= i < |s| ==> s[i] == '_')
      && NoTrailingUnderscore(r)
  {
    if |s| > 0 && s[|s| - 1] == '_' {
      StripProperties(s[..|s| - 1]);
    }
  }

  /** Dropping trailing underscores keeps the character class, the no-run property and the other characters. */
  lemma StripKeeps(s: string)
    ensures SlugChars(s) ==> SlugChars(StripTrailing(s))
    ensures NoDoubleUnderscore(s) ==> NoDoubleUnderscore(StripTrailing(s))
    ensures NonUnderscores(StripTrailing(s)) == NonUnderscores(s)
  {
    var r := StripTrailing(s);
    StripProperties(s);
    var tail := s[|r|..];
    assert s == r + tail;
    NonUnderscoresAppend(r, tail);
    AllUnderscores(tail);
  }

  lemma {:induction false} AllUnderscores(s: string)
    requires forall i :: 0 <= i < |s| ==> s[i] == '_'
    ensures NonUnderscores(s) == ""
  {
    if |s| > 0 {
      AllUnderscores(s[1..]);
    }
  }

  /**
   * The slug holds only ASCII letters, digits and underscores, has no two
   * underscores in a row, does not end with an underscore, its other
   * characters are exactly the ASCII alphanumerics of the dominion name, in
   * order, and it has an underscore exactly where the name has a run of other
   * characters before a letter or digit.
   */
  lemma SlugProperties(dominion: string)
    ensures SlugChars(Slug(dominion))
    ensures NoDoubleUnderscore(Slug(dominion))
    ensures NoTrailingUnderscore(Slug(dominion))
    ensures NonUnderscores(Slug(dominion)) == Alnums(dominion)
    ensures Slug(dominion) == SlugScan(dominion, false)
  {
    SlugIsScan(dominion);
    var replaced := ReplaceNonAlnum(dominion);
    ReplaceKeepsAlnums(dominion);
    CollapseProperties(replaced);
    StripKeeps(CollapseUnderscores(replaced));
    StripProperties(CollapseUnderscores(replaced));
  }

  // ---------------------------------------------------------------------------
  // The slug read left to right

  /**
   * `re.sub('_{2,}', '_', s)` read left to right: an underscore is held back
   * (`pending`) and written once, before the next other character or at the end.
   */
  function CollapseScan(s: string, pending: bool): string {
    if |s| == 0 then (if pending then "_" else "")
    else if s[0] == '_' then CollapseScan(s[1..], true)
    else (if pending then "_" else "") + [s[0]] + CollapseScan(s[1..], false)
  }

  /**
   * The slug read left to right: letters and digits are copied, a run of other
   * characters becomes one underscore in front of the next letter or digit, and
   * a run at the end leaves nothing.
   */
  function SlugScan(s: string, pending: bool): string {
    if |s| == 0 then ""
    else if IsAsciiAlnum(s[0]) then (if pending then "_" else "") + [s[0]] + SlugScan(s[1..], false)
    else SlugScan(s[1..], true)
  }

  /** Collapsing replaces every run of underscores by exactly one underscore. */
  lemma {:induction false} CollapseIsScan(s: string, pending: bool)
    ensures CollapseUnderscores((if pending then "_" else "") + s) == CollapseScan(s, pending)
    decreases |s|, if pending then 1 else 0
  {
    var t := (if pending then "_" else "") + s;
    if !pending {
      assert t == s;
      if |s| > 0 && s[0] == '_' {
        CollapseIsScan(s[1..], true);
        assert "_" + s[1..] == s;
      } else if |s| > 1 {
        CollapseIsScan(s[1..], false);
        assert (if false then "_" else "") + s[1..] == s[1..];
        assert CollapseUnderscores(s) == [s[0]] + CollapseUnderscores(s[1..]);
      }
    } else if |s| > 0 {
      assert t[1..] == s;
      if s[0] == '_' {
        CollapseIsScan(s, false);
        assert (if false then "_" else "") + s == s;
        assert CollapseUnderscores(t) == CollapseUnderscores(s);
        assert CollapseScan(s, false) == CollapseScan(s[1..], true) == CollapseScan(s, true);
      } else {
        CollapseIsScan(s, false);
        assert t == [t[0]] + s;
      }
    }
  }

  /** After a last character that is not an underscore, stripping only looks at what follows. */
  lemma {:induction false} StripAfter(a: string, y: string)
    requires |a| > 0 && a[|a| - 1] != '_'
    ensures StripTrailing(a + y) == a + StripTrailing(y)
    decreases |y|
  {
    if |y| > 0 && y[|y| - 1] == '_' {
      assert (a + y)[..|a + y| - 1] == a + y[..|y| - 1];
      StripAfter(a, y[..|y| - 1]);
    } else if |y| == 0 {
      assert a + y == a;
    }
  }

  /** On letters, digits and underscores, collapsing and then stripping is the left-to-right slug. */
  lemma {:induction false} StripCollapseScan(t: string, pending: bool)
    requires SlugChars(t)
    ensures StripTrailing(CollapseScan(t, pending)) == SlugScan(t, pending)
    decreases |t|
  {
    if |t| == 0 {
      if pending {
        assert StripTrailing("_") == StripTrailing("");
      }
    } else {
      assert SlugChars(t[1..]) by {
        forall i | 0 <= i < |t[1..]| ensures IsAsciiAlnum(t[1..][i]) || t[1..][i] == '_' {
          assert t[1..][i] == t[i + 1];
        }
      }
      StripCollapseScan(t[1..], false);
      StripCollapseScan(t[1..], true);
      if t[0] != '_' {
        var a := (if pending then "_" else "") + [t[0]];
        StripAfter(a, CollapseScan(t[1..], false));
        assert CollapseScan(t, pending) == a + CollapseScan(t[1..], false);
      }
    }
  }

  /** Replacing the other characters by underscores does not change where the letters, digits and runs are. */
  lemma {:induction false} SlugScanOfReplace(d: string, pending: bool)
    ensures SlugScan(ReplaceNonAlnum(d), pending) == SlugScan(d, pending)
    decreases |d|
  {
    if |d| > 0 {
      assert ReplaceNonAlnum(d)[1..] == ReplaceNonAlnum(d[1..]);
      SlugScanOfReplace(d[1..], false);
      SlugScanOfReplace(d[1..], true);
    }
  }

  /**
   * The three substitutions are the left-to-right slug: each run of characters
   * other than ASCII letters and digits becomes exactly one underscore when a
   * letter or digit follows it, and nothing when it ends the name.
   */
  lemma SlugIsScan(dominion: string)
    ensures Slug(dominion) == SlugScan(dominion, false)
  {
    var replaced := ReplaceNonAlnum(dominion);
    ReplaceKeepsAlnums(dominion);
    CollapseIsScan(replaced, false);
    assert (if false then "_" else "") + replaced == replaced;
    StripCollapseScan(replaced, false);
    SlugScanOfReplace(dominion, false);
  }

  predicate AllAlnum(s: string) {
    forall i :: 0 <= i < |s| ==> IsAsciiAlnum(s[i])
  }

  predicate NoAlnum(s: string) {
    forall i :: 0 <= i < |s| ==> !IsAsciiAlnum(s[i])
  }

  lemma {:induction false} SlugScanOfWord(a: string, rest: string, pending: bool)
    requires |a| > 0 && AllAlnum(a)
    ensures SlugScan(a + rest, pending) == (if pending then "_" else "") + a + SlugScan(rest, false)
    decreases |a|
  {
    assert (a + rest)[1..] == a[1..] + rest;
    if |a| == 1 {
      assert a[1..] + rest == rest;
    } else {
      SlugScanOfWord(a[1..], rest, false);
      assert a == [a[0]] + a[1..];
    }
  }

  lemma {:induction false} SlugScanOfSeparator(sep: string, rest: string, pending: bool)
    requires NoAlnum(sep)
    ensures SlugScan(sep + rest, pending) == SlugScan(rest, pending || |sep| > 0)
    decreases |sep|
  {
    if |sep| > 0 {
      assert (sep + rest)[1..] == sep[1..] + rest;
      SlugScanOfSeparator(sep[1..], rest, true);
    } else {
      assert sep + rest == rest;
    }
  }

  /** Two words with any non-empty run of other characters between them are joined by one underscore. */
  lemma SlugOfTwoWords(a: string, sep: string, b: string)
    requires |a| > 0 && AllAlnum(a) && |b| > 0 && AllAlnum(b)
    requires |sep| > 0 && NoAlnum(sep)
    ensures Slug(a + sep + b) == a + "_" + b
  {
    SlugIsScan(a + sep + b);
    assert a + sep + b == a + (sep + b);
    SlugScanOfWord(a, sep + b, false);
    SlugScanOfSeparator(sep, b, false);
    SlugScanOfWord(b, "", true);
    assert b + "" == b;
  }

  /** Each substitution changes nothing on a string that already has the property it establishes. */
  lemma {:induction false} CollapseIdentity(s: string)
    requires NoDoubleUnderscore(s)
    ensures CollapseUnderscores(s) == s
  {
    if |s| > 1 {
      assert NoDoubleUnderscore(s[1..]) by {
        forall i | 0 <= i < |s[1..]| - 1 ensures !(s[1..][i] == '_' && s[1..][i + 1] == '_') {
          assert s[1..][i] == s[i + 1] && s[1..][i + 1] == s[i + 2];
        }
      }
      CollapseIdentity(s[1..]);
      assert s == [s[0]] + s[1..];
    }
  }

  lemma ReplaceIdentity(s: string)
    requires SlugChars(s)
    ensures ReplaceNonAlnum(s) == s
  {
  }

  /** Taking the slug of a slug changes nothing. */
  lemma SlugIdempotent(dominion: string)
    ensures Slug(Slug(dominion)) == Slug(dominion)
  {
    var slug := Slug(dominion);
    SlugProperties(dominion);
    ReplaceIdentity(slug);
    CollapseIdentity(slug);
  }

  /** A dominion name made of ASCII letters and digits only is its own slug. */
  lemma SlugOfAlnum(dominion: string)
    requires forall i :: 0 <= i < |dominion| ==> IsAsciiAlnum(dominion[i])
    ensures Slug(dominion) == dominion
  {
    ReplaceIdentity(dominion);
    CollapseIdentity(dominion);
  }

  /** A concrete name: the space becomes a separator and the closing mark vanishes. */
  lemma SlugExample()
    ensures Slug("Ab c!") == "Ab_c"
  {
    var replaced := "Ab_c_";
    assert ReplaceNonAlnum("Ab c!") == replaced;
    CollapseIdentity(replaced);
    assert replaced[..4] == "Ab_c";
  }

  // ---------------------------------------------------------------------------
  // Entries

  /** The dataclass `Ranking` of this script: one row of the largest-dominions table of a round. */
  datatype Entry = Entry(rank: int, dominion: string, player: string, score: int, realm: int, round: int) {
    /** `dominion_link_name`, set in `__post_init__`. */
    function LinkName(): string {
      "Round_" + IntToString(round) + "_" + Slug(dominion)
    }
  }

  /** The link name is the round prefix followed by a slug with all of its properties. */
  lemma LinkNameParts(e: Entry)
    ensures var prefix := "Round_" + IntToString(e.round) + "_";
      && e.LinkName()[..|prefix|] == prefix
      && e.LinkName()[|prefix|..] == Slug(e.dominion)
      && ParseInt(IntToString(e.round)) == Some(e.round)
      && NonUnderscores(e.LinkName()[|prefix|..]) == Alnums(e.dominion)
      && NoDoubleUnderscore(e.LinkName()[|prefix|..])
      && NoTrailingUnderscore(e.LinkName()[|prefix|..])
  {
    SlugProperties(e.dominion);
    ParseIntOfIntToString(e.round);
  }

  /** `ranking.player`, the dict key. */
  function EntryPlayer(e: Entry): string {
    e.player
  }

  /**
   * The row conversion of `parse_entries_from_page`: rank from cell 0, dominion
   * from cell 1, player from cell 2, score from the last cell with its commas
   * dropped, realm from cell 4, arguments evaluated left to right.
   */
  function ParseEntry(row: Row, round: int): (r: Result<Entry, ParseError>)
    ensures r.Ok? <==> && |row| >= 5 && ParseInt(row[0]).Some?
                       && ParseInt(RemoveAll(row[|row| - 1], ',')).Some? && ParseInt(row[4]).Some?
    ensures r.Ok? ==> && Some(r.value.rank) == ParseInt(row[0])
                      && r.value.dominion == row[1] && r.value.player == row[2]
                      && Some(r.value.score) == ParseInt(RemoveAll(row[|row| - 1], ','))
                      && Some(r.value.realm) == ParseInt(row[4])
                      && r.value.round == round
  {
    match Cell(row, 0)
    case Err(e) => Err(e)
    case Ok(rankText) =>
      match IntCell(rankText)
      case Err(e) => Err(e)
      case Ok(rank) =>
        match Cell(row, 1)
        case Err(e) => Err(e)
        case Ok(dominion) =>
          match Cell(row, 2)
          case Err(e) => Err(e)
          case Ok(player) =>
            match ScoreCell(row[|row| - 1])
            case Err(e) => Err(e)
            case Ok(score) =>
              match Cell(row, 4)
              case Err(e) => Err(e)
              case Ok(realmText) =>
                match IntCell(realmText)
                case Err(e) => Err(e)
                case Ok(realm) => Ok(Entry(rank, dominion, player, score, realm, round))
  }

  /**
   * A printed table row of six cells (rank, dominion, player, race, realm, and
   * the land with thousands separators) converts back to its entry.
   */
  lemma ParseEntryOfPrintedRow(e: Entry, race: string)
    ensures ParseEntry([IntToString(e.rank), e.dominion, e.player, race, IntToString(e.realm), Grouped(e.score)], e.round)
         == Ok(e)
  {
    ParseIntOfIntToString(e.rank);
    ScoreCellOfGrouped(e.score);
    ParseIntOfIntToString(e.realm);
  }

  /** A row of at most four cells raises the `IndexError` of `entry[4]` at the latest. */
  lemma ShortRowFails(row: Row, round: int)
    requires |row| < 5
    ensures ParseEntry(row, round).Err?
  {
  }

  /** `round_number_of_round_id(LAST_ROUND)`, the round every entry of this script gets. */
  const TopRound: int := RoundNumberOfRoundId(LastRound)

  lemma TopRoundIs46()
    ensures TopRound == 46
  {
    RoundNumberAt(0);
  }

  function ParseTopEntry(row: Row): Result<Entry, ParseError> {
    ParseEntry(row, TopRound)
  }

  /** `parse_entries_from_page`: every row as an entry of round 46, keyed by player, the last row winning. */
  method ParseEntriesFromPage(rows: seq<Row>) returns (r: Result<map<string, Entry>, ParseError>)
    ensures r.Ok? <==> forall i :: 0 <= i < |rows| ==> ParseTopEntry(rows[i]).Ok?
    ensures r.Ok? ==> KeyedByLastRow(rows, ParseTopEntry, EntryPlayer, r.value)
    ensures r.Ok? ==> forall p :: p in r.value ==> r.value[p].player == p && r.value[p].round == 46
  {
    TopRoundIs46();
    r := CollectByPlayer(rows, ParseTopEntry, EntryPlayer);
  }

  // ---------------------------------------------------------------------------
  // main: sort, pick the winning realm, build the table

  /** `sorted(entries, key=lambda e: e.rank)` as a descending sort on the negated rank. */
  function RankKey(e: Entry): real {
    -(e.rank as real)
  }

  /** The entries of the dict, ordered by rank. */
  method SortedEntries(board: map<string, Entry>) returns (sorted: seq<Entry>)
    ensures ListsValues(board, sorted)
    ensures |sorted| == |board|
    ensures forall i :: 0 <= i < |sorted| ==> sorted[i] in board.Values
    ensures forall p :: p in board ==> board[p] in sorted
    ensures forall i, j :: 0 <= i < j < |sorted| ==> sorted[i].rank <= sorted[j].rank
  {
    var items := MapItems(board);
    var entries := Seconds(items);
    sorted := SortByKeyDesc(entries, RankKey);
    assert IsListing(board, items) && multiset(sorted) == multiset(Seconds(items));
    MapValuesListed(board, items, sorted);
    forall i, j | 0 <= i < j < |sorted| ensures sorted[i].rank <= sorted[j].rank {
      assert RankKey(sorted[i]) >= RankKey(sorted[j]);
    }
  }

  const LineHead: string := "|- style=\"vertical-align: top;\"\n| "

  /** `WIKI_LINE` filled in from the entry. */
  function WikiLine(e: Entry): string {
    LineHead + IntToString(e.rank) + " || [[" + e.LinkName() + "|" + e.dominion + "]] || " + e.player +
    " || " + IntToString(e.score)
  }

  /** `WIKI_LINE_WINNER` filled in from the entry: the link goes to the round page. */
  function WikiLineWinner(e: Entry): string {
    LineHead + IntToString(e.rank) + " || [[Round_" + IntToString(e.round) + "|" + e.dominion +
    " **winning realm**]] || " + e.player + " || " + IntToString(e.score)
  }

  /**
   * The two templates never give the same line for an entry: after the common
   * start up to the round number, the plain line goes on with the `_` of the
   * link name and the winner line with `|`.
   */
  lemma WinnerLineDiffers(e: Entry)
    ensures WikiLine(e) != WikiLineWinner(e)
  {
    TemplatesDiffer(LineHead, IntToString(e.rank), IntToString(e.round), Slug(e.dominion), e.dominion, e.player,
                    IntToString(e.score));
  }

  lemma TemplatesDiffer(head: string, rank: string, round: string, slug: string, dominion: string, player: string,
                        score: string)
    ensures head + rank + " || [[" + ("Round_" + round + "_" + slug) + "|" + dominion + "]] || " + player + " || " + score
         != head + rank + " || [[Round_" + round + "|" + dominion + " **winning realm**]] || " + player + " || " + score
  {
    var plain := head + rank + " || [[" + ("Round_" + round + "_" + slug) + "|" + dominion + "]] || " + player + " || " + score;
    var winner := head + rank + " || [[Round_" + round + "|" + dominion + " **winning realm**]] || " + player + " || " + score;
    var n := |head| + |rank| + 12 + |round|;
    var p1 := head + rank + " || [[" + ("Round_" + round + "_" + slug);
    var w1 := head + rank + " || [[Round_" + round + "|";
    assert p1[n] == '_';
    assert w1[n] == '|';
    assert plain[n] == p1[n];
    assert winner[n] == w1[n];
  }

  /** The template `main` picks for an entry, given the realm of the winner. */
  function LineFor(e: Entry, winnerRealm: int): string {
    if e.realm == winnerRealm then WikiLineWinner(e) else WikiLine(e)
  }

  /** An entry gets the winner line exactly when it is in the winner's realm, and the plain line otherwise. */
  lemma LineForWinnerIff(e: Entry, winnerRealm: int)
    ensures LineFor(e, winnerRealm) == WikiLineWinner(e) <==> e.realm == winnerRealm
    ensures LineFor(e, winnerRealm) == WikiLine(e) <==> e.realm != winnerRealm
  {
    WinnerLineDiffers(e);
  }

  /** The line loop of `main`: one line per entry, each with the template LineFor picks against the first entry's realm. */
  method WikiLines(sorted: seq<Entry>) returns (lines: seq<string>)
    requires |sorted| > 0
    ensures |lines| == |sorted|
    ensures forall i :: 0 <= i < |sorted| ==> lines[i] == LineFor(sorted[i], sorted[0].realm)
  {
    var winner := sorted[0];
    lines := [];
    var i := 0;
    while i < |sorted|
      invariant 0 <= i <= |sorted| && |lines| == i
      invariant forall k :: 0 <= k < i ==> lines[k] == LineFor(sorted[k], winner.realm)
    {
      var entry := sorted[i];
      lines := lines + [LineFor(entry, winner.realm)];
      i := i + 1;
    }
  }

  /** The first entry always gets the winner line. */
  lemma FirstLineIsWinner(sorted: seq<Entry>, lines: seq<string>)
    requires |sorted| > 0 && |lines| == |sorted|
    requires forall i :: 0 <= i < |sorted| ==> lines[i] == LineFor(sorted[i], sorted[0].realm)
    ensures lines[0] == WikiLineWinner(sorted[0])
    ensures forall i :: 0 <= i < |sorted| ==> (lines[i] == WikiLineWinner(sorted[i]) <==> sorted[i].realm == sorted[0].realm)
  {
    forall i | 0 <= i < |sorted|
      ensures lines[i] == WikiLineWinner(sorted[i]) <==> sorted[i].realm == sorted[0].realm
    {
      LineForWinnerIff(sorted[i], sorted[0].realm);
    }
  }

  const TableHead: string := "{| class=\"wikitable\"\n|- ! Rank !! Dominion Name !! Player !! Land Size\n"
  const TableTail: string := "\n|}"

  /** `WIKI_TABLE.format('\n'.join(lines))`. */
  function WikiTable(lines: seq<string>): string {
    TableHead + Join(lines, "\n") + TableTail
  }

  /** The page starts with the table header, ends with the table close, and holds every line. */
  lemma WikiTableHoldsLines(lines: seq<string>)
    ensures WikiTable(lines)[..|TableHead|] == TableHead
    ensures WikiTable(lines)[|WikiTable(lines)| - |TableTail|..] == TableTail
    ensures forall i :: 0 <= i < |lines| ==> Contains(WikiTable(lines), lines[i])
  {
    forall i | 0 <= i < |lines| ensures Contains(WikiTable(lines), lines[i]) {
      JoinHoldsParts(lines, "\n", i);
      var q :| OccursAt(Join(lines, "\n"), lines[i], q);
      OccursInContext(TableHead, Join(lines, "\n"), TableTail, lines[i], q);
    }
  }

  /**
   * `main` after the fetch: sort the entries by rank, take the first as the
   * winner, write one line per entry, and put the lines in the table.
   * `sorted_entries[0]` raises on an empty table.
   */
  method TopHundredPage(board: map<string, Entry>) returns (sorted: seq<Entry>, lines: seq<string>, page: string)
    requires |board| > 0
    ensures ListsValues(board, sorted)
    ensures |sorted| == |board| && |lines| == |board|
    ensures forall i :: 0 <= i < |sorted| ==> sorted[i] in board.Values
    ensures forall p :: p in board ==> board[p] in sorted
    ensures forall i, j :: 0 <= i < j < |sorted| ==> sorted[i].rank <= sorted[j].rank
    ensures forall i :: 0 <= i < |sorted| ==> lines[i] == LineFor(sorted[i], sorted[0].realm)
    ensures page == WikiTable(lines)
  {
    sorted := SortedEntries(board);
    lines := WikiLines(sorted);
    page := WikiTable(lines);
  }
}
