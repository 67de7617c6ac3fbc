/**
 * `rush/tophundred.py`: the same top-100 page generator, fixed to an older
 * round. The page is fetched from the newest of the rounds listed in the
 * script, and every entry gets the public round number written into the script.
 * The slug, the row conversion, the sort and the winner selection are those of
 * TopHundred; the script's `[_]{2,}` is the same pattern as `_{2,}` (a bracket
 * class holding only the underscore), so CollapseUnderscores models both.
 */
module RushTopHundred {
  import opened Wrappers
  import opened Text
  import opened Config
  import opened RankingScraper
  import opened TopHundred

  /** `ALL_REAL_ROUNDS`. */
  const AllRealRounds: seq<int> := [52, 51, 49, 48, 47, 45, 44, 42, 41, 39, 38, 36, 35, 33, 30, 28, 26]

  /** `ROUND_URL_NUMBER`: the round id in the URL of the page. */
  const RoundUrlNumber: int := AllRealRounds[0]

  /** `ROUND_NUMBER`: the public round number every entry gets. */
  const RoundNumber: int := 36

  /**
   * The listed rounds are the ids of the configured table from 52 down, and the
   * hard-wired public number 36 is the one the table gives the URL's round id 52.
   */
  lemma RoundConstantsAgree()
    ensures AllRealRounds == AllRounds[10..]
    ensures RoundUrlNumber == 52 && RoundUrlNumber in AllRounds
    ensures RoundNumberOfRoundId(RoundUrlNumber) == RoundNumber
  {
    RoundNumberAt(10);
  }

  function ParseRushEntry(row: Row): Result<Entry, ParseError> {
    ParseEntry(row, RoundNumber)
  }

  /** `parse_entries_from_page` of this script: every row as an entry of round 36, keyed by player. */
  method ParseRushEntriesFromPage(rows: seq<Row>) returns (r: Result<map<string, Entry>, ParseError>)
    ensures r.Ok? <==> forall i :: 0 <= i < |rows| ==> ParseRushEntry(rows[i]).Ok?
    ensures r.Ok? ==> KeyedByLastRow(rows, ParseRushEntry, EntryPlayer, r.value)
    ensures r.Ok? ==> forall p :: p in r.value ==> r.value[p].player == p && r.value[p].round == 36
    ensures r.Ok? ==> forall p :: p in r.value ==> r.value[p].LinkName() == "Round_36_" + Slug(r.value[p].dominion)
  {
    r := CollectByPlayer(rows, ParseRushEntry, EntryPlayer);
    if r.Ok? {
      forall p | p in r.value
        ensures r.value[p].round == 36 && r.value[p].LinkName() == "Round_36_" + Slug(r.value[p].dominion)
      {
        var i :| 0 <= i < |rows| && ParseRushEntry(rows[i]) == Ok(r.value[p]);
        LinkNameOfRound36(r.value[p]);
      }
    }
  }

  /** The link name of an entry of round 36. */
  lemma LinkNameOfRound36(e: Entry)
    requires e.round == 36
    ensures e.LinkName() == "Round_36_" + Slug(e.dominion)
  {
    assert IntToString(36) == "36";
  }
}
