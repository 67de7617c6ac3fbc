# od-rush scoring and reporting, modelled in Dafny

This project models in Dafny the scoring and reporting core of od-rush. od-rush is a set of
scripts that read the "Valhalla" leaderboards of a finished OpenDominion round and turn
them into scores and wiki pages. The model covers:

- **Leaderboard loading and normalisation** (`RankingScraper`, `rush/rankingscraper.py`).
  - Table rows become `Ranking` records keyed by player.
  - A later row for the same player replaces an earlier one.
  - Every board is min–max rescaled to `[0, 1]`; a board without spread gets 1.
  - `load_stats` keeps the stat pages its filter accepts and loads each page that was found.
- **The Rush Ranking** (`RushRankings`, `rush/rushrankings.py`).
  - The black-ops keyword filter, and the union of the players of a round.
  - The per-component weighted average of the scaled scores, and the player's round score.
  - The round scoring and its descending sort.
  - The `Player` class: a table of round scores over the whole requested window, defaulting to 0.
  - The multi-round accumulation loop and the ranking by total score.
- **The "Dave" ranking** (`DaveRankings`, `rush/daverankings.py`).
  - A raw-score sum over four fixed boards.
  - The descending list of the players who scored.
  - The totals over all rounds.
- **Round configuration** (`Config`, `config.py`).
  - The table from round id to rule version, and the sorted round list with its last-5 and last-10 windows.
  - The map from technical round id to public round number.
- **The top-100 wiki page** (`TopHundred`, `tophundred.py`; `RushTopHundred`, `rush/tophundred.py`).
  - The dominion link slug.
  - The row conversion, the sort by rank and the winning-realm template choice.
  - The table assembly.
- **Title holders** (`TitleHolders`, `title-holders.py`; `RushTitleHolders`, `rush/title-holders.py`).
  - The stat exclusion filter.
  - The entries with the highest score of every included board, in board order.

Python's `dict` becomes a Dafny `map`, a list a `seq`, and a float an exact `real`. The
fetched and parsed HTML tables are inputs: every row is the sequence of the stripped
texts of its cells (`Row = seq<string>`). Python exceptions on data, such as `int()` of a
non-number or `entry[4]` of a short row, become the `Err` side of a `Result`. Where the
code indexes a dictionary or takes `max` of a list and the callers guarantee the case,
the model uses a `requires` instead.

Shared helpers live in `Wrappers` (Option/Result), `Text` (substrings, `str(int)`,
`int(str)`, `str.replace`, `'\n'.join`) and `Collections`. `Collections` holds `dict.items()`,
`set` to list, `max`/`min`, a stable descending insertion sort that models `sorted(...,
reverse=True)`, and sums over maps.

## Model

| member | source | states |
|---|---|---|
| Text.Contains | rush/rushrankings.py:54 | `sub in s` holds iff `sub` occurs at some position of `s` |
| Text.RemoveAll | rush/rankingscraper.py:48 | `replace(',', '')` leaves no comma, keeps every other character, and changes nothing when there is no comma |
| Text.RemoveAllCount | rush/rankingscraper.py:48 | the result holds every character other than the comma exactly as often as the text does, and no comma |
| Text.RemoveAllAppend | rush/rankingscraper.py:48 | removing works piece by piece (`(a + b).replace == a.replace + b.replace`), so the kept characters keep their order |
| Text.IntToString | tophundred.py:19-25 | `str(n)` of the `{rank}`, `{score}` and `{round}` fields (and of the round in the link at line 45) is non-empty and starts with `-` exactly for negative numbers |
| Text.ParseInt | rush/rankingscraper.py:48 | `int(text)` succeeds only on non-empty text, and a negative result carries its sign |
| Text.ParseIntOfIntToString | rush/rankingscraper.py:48 | `int(str(n)) == n` for every integer: printed numbers read back |
| Text.DigitsValueOfNatToString | rush/rankingscraper.py:48 | the decimal digits of `n` read back as `n` |
| Text.ParseIntRejectsNonDigit | rush/rankingscraper.py:48 | a text with a non-digit (after an optional leading sign) is not an integer |
| Text.ParseIntOfGrouped | rush/rankingscraper.py:48 | for every integer n, the comma-grouped text of n (`f"{n:,}"`) reads back as n once its commas are dropped |
| Text.UngroupedDigits | rush/rankingscraper.py:48 | dropping the commas of a grouped non-negative number leaves non-empty decimal digits whose value is the number |
| Text.ThousandsSeparatorExample | rush/rankingscraper.py:48 | the score cell "1,234" reads as 1234 once the commas are dropped |
| Text.JoinHoldsParts | tophundred.py:85 | every line occurs in the `'\n'.join` of the lines |
| Collections.MapItems | rush/rankingscraper.py:60 | iterating a dict lists each key exactly once with its value |
| Collections.ListedValues | tophundred.py:78 | a listing of `d.values()` has one element per key and holds exactly the dict's values |
| Collections.SetToSeq | rush/daverankings.py:34 | iterating a set lists each element exactly once |
| Collections.MaxOf | rush/rankingscraper.py:58 | `max` of a non-empty list is an element and bounds every element |
| Collections.MinOf | rush/rankingscraper.py:59 | `min` of a non-empty list is an element and is below every element |
| Collections.SortByKeyDesc | rush/rushrankings.py:98 | `sorted(..., reverse=True)` returns a permutation that is non-increasing in the key |
| Collections.SortedItems | rush/daverankings.py:37 | the items of a dict sorted descending: every key once, with its value, non-increasing |
| Collections.SumValues | rush/rushrankings.py:120 | the loop summing a dict's values gives the sum over the map |
| Config.AllRoundsAreSortedKeys | config.py:21-52 | `ALL_ROUNDS` is the key set of `ALL_BLOP_ROUNDS` in strictly descending order, and `LAST_ROUND` is its maximum, 69 |
| Config.LastWindowsAreLargest | config.py:53-54 | the last-5 and last-10 windows have 5 and 10 rounds, hold the largest ids, and the first is a prefix of the second |
| Config.RoundNumberOfRoundId | config.py:58-59 | the public number of a listed id is 20 plus the count of listed ids below it, between 20 and 20+len-1 |
| Config.RoundNumberIsReversedIndex | config.py:58-59 | that number is 20 plus the index of the id in `ALL_ROUNDS[::-1]`, as the code computes it |
| Config.RoundNumberAt | config.py:58-59 | the id at position k of the descending list gets number 20 + len - 1 - k |
| Config.RoundNumberStrictlyIncreasing | config.py:58-59 | a larger id gets a larger public number |
| Config.RoundNumberOnto | config.py:58-59 | every number from 20 to 20+len-1 is the number of some id, so the range is exact |
| Config.RoundNumberDocumentedValues | config.py:22-27 | the commented numbers 69→46, 67→45, 66→44, 64→43, 63→42 and 61→41 hold, and so do 52→36 (the rush top-100 round), 51→35 (the Rush Ranking docstring) and 26→20 |
| Config.PinnedVersionsByThreshold | config.py:21-49 | the pinned version is v1 up to id 51, v2 for 52–54, v3 for 56, v4 for 58–66, v5 for 67 and v6 for 69 |
| Config.PinnedVersionMonotone | config.py:21-49 | the pinned version never decreases as the round id grows |
| RankingScraper.Cell | rush/rankingscraper.py:48 | `entry[k]` exists iff the row has more than k cells, and is that cell |
| RankingScraper.IntCell | rush/rankingscraper.py:48 | a cell converts iff `int()` accepts it, to that value |
| RankingScraper.ParseRow | rush/rankingscraper.py:48 | a row converts iff it has at least three cells, `int()` accepts cell 0 and the last cell without commas; then rank is `int(cell 0)`, player is cell 2, score is `int` of the last cell without commas, and the scaled score starts at 0 |
| RankingScraper.ParseRowOfPrintedRanking | rush/rankingscraper.py:48 | a row printing rank, player (cell 2) and the comma-grouped score (last cell) converts back to exactly that record |
| RankingScraper.ScoreCellOfGrouped | rush/rankingscraper.py:48 | every comma-grouped score cell converts to its number |
| RankingScraper.ScoreCellDropsCommas | rush/rankingscraper.py:48 | the last cell "1,234" gives score 1234 |
| RankingScraper.ParseRowErrors | rush/rankingscraper.py:48 | an empty row, a non-numeric rank and a row without cell 2 each fail with their own error |
| RankingScraper.KeyedByLastRowStep | rush/rankingscraper.py:46-49 | storing one more converted row keeps the map keyed by player, each holding that player's last row |
| RankingScraper.CollectByPlayer | rush/rankingscraper.py:44-53 | the dict-filling loop succeeds iff every row converts; then every key is a player whose value is converted from that player's last row; otherwise the error is the first failing row's |
| RankingScraper.ParseEntriesFromPage | rush/rankingscraper.py:42-53 | the same for `Ranking` rows: keys are the players, scaled scores start at 0, the first bad row's error is raised |
| RankingScraper.RowsGiveEntries | rush/rankingscraper.py:46-49 | a page with at least one row gives a non-empty board |
| RankingScraper.BoardMax | rush/rankingscraper.py:58 | the maximum of a non-empty board is one of its scores and bounds them all |
| RankingScraper.BoardMin | rush/rankingscraper.py:59 | the minimum of a non-empty board is one of its scores and is below them all |
| RankingScraper.FeatureScaledScores | rush/rankingscraper.py:56-64 | the rescaling method produces the scaled board (linear with spread, 1 without) |
| RankingScraper.RescaleEntries | rush/rankingscraper.py:60-64 | the loop over the entries rewrites each one's scaled score with the given extremes |
| RankingScraper.ExtremesOfItems | rush/rankingscraper.py:58-59 | `max` and `min` of the listed scores are the board's maximum and minimum |
| RankingScraper.ScalingKeepsEntries | rush/rankingscraper.py:60-64 | only the scaled score changes: same players, ranks, names and raw scores |
| RankingScraper.ScalingHitsBounds | rush/rankingscraper.py:61-62 | with spread, a lowest entry gets `low` and a highest entry gets `high` |
| RankingScraper.ScalingWithinBounds | rush/rankingscraper.py:62 | with spread and `low <= high`, every scaled score lies in `[low, high]` |
| RankingScraper.ScalingMonotone | rush/rankingscraper.py:62 | equal raw scores give equal scaled scores; for `low <= high` a lower raw score never gets a higher scaled one |
| RankingScraper.ScalingWithoutSpread | rush/rankingscraper.py:63-64 | without spread every entry gets 1, whatever `low` and `high` are |
| RankingScraper.ScaledBoardInUnit | rush/rankingscraper.py:56-64 | with the default range every scaled score lies in `[0, 1]` |
| RankingScraper.FilterStatPages | rush/rankingscraper.py:70 | the filtered page map keeps exactly the names the filter accepts, with their pages |
| RankingScraper.FilterStatPagesIdempotent | rush/rankingscraper.py:70 | filtering twice is filtering once |
| RankingScraper.LoadPage | rush/rankingscraper.py:75-79 | a found page loads iff it has rows and all of them convert; the board is the last-row-per-player map, scaled into `[0, 1]`; otherwise the error is the first failing row's, or that of `max` on no rows |
| RankingScraper.LoadStats | rush/rankingscraper.py:67-82 | the load succeeds iff no accepted, found page fails; then the result has exactly the accepted found pages, each the loaded board of its page, all scaled into `[0, 1]`; otherwise the error is what loading some accepted, found page raises |
| RushRankings.IsBlopStat | rush/rushrankings.py:50-56 | the keyword loop with early return is true iff some keyword is a substring of the name |
| RushRankings.HasKeywordIsBlopStat | rush/rushrankings.py:52-56 | a name has one of the nine listed keywords iff the filter accepts it |
| RushRankings.ScoringStatsAreBlopStats | rush/rushrankings.py:24-38 | every stat name of the six component tuples passes the filter |
| RushRankings.AllPlayerNames | rush/rushrankings.py:59-63 | a name is in the union iff it is a key of some leaderboard of the round |
| RushRankings.ComponentScores | rush/rushrankings.py:66-76 | there is exactly one component score per component of the rule set |
| RushRankings.ComponentTotal | rush/rushrankings.py:70-73 | the inner loop adds the player's scaled score of every listed stat, counting 0 where the player is absent |
| RushRankings.ScoreComponents | rush/rushrankings.py:66-76 | the method gives one value per component: the sum divided by the number of stats, times the weight |
| RushRankings.FsSumBounds | rush/rushrankings.py:72-73 | with scaled scores in `[0, 1]`, the sum over n stats lies in `[0, n]` |
| RushRankings.ComponentWithinWeight | rush/rushrankings.py:72-74 | with scaled scores in `[0, 1]` and a non-negative weight, each component score lies in `[0, weight]` |
| RushRankings.AbsentPlayerScoresZero | rush/rushrankings.py:72-73 | a player in none of the stats sums to 0 |
| RushRankings.CalculatePlayerScore | rush/rushrankings.py:79-82 | the player's score is the sum of the component scores |
| RushRankings.PlayerScoreWithinTotalWeight | rush/rushrankings.py:79-82 | with scaled scores in `[0, 1]` and non-negative weights, a player's score lies between 0 and the sum of the weights |
| RushRankings.BlopScoresForRound | rush/rushrankings.py:85-92 | exactly one pair per player of the round, each holding that player's score |
| RushRankings.RoundScores | rush/rushrankings.py:95-98 | the round's pairs, sorted non-increasing by score |
| RushRankings.ScoreInRoundIsPairScore | rush/rushrankings.py:137-140 | in a round listing without repeated names, the score found for a listed player is their pair's score |
| RushRankings.Player.constructor | rush/rushrankings.py:111-113 | a new player has one round score per requested round, all 0 |
| RushRankings.Player.AddRoundScore | rush/rushrankings.py:115-116 | key `nr` is set to the score and every other key is unchanged |
| RushRankings.Player.TotalScore | rush/rushrankings.py:118-120 | the total is the sum of all round scores |
| RushRankings.Player.AverageScore | rush/rushrankings.py:122-124 | the average divides the total by the number of requested rounds, not by the rounds played |
| RushRankings.Player.ScoresInRoundOrder | rush/rushrankings.py:126-129 | the scores are listed in descending round-number order |
| RushRankings.AverageOverWholeWindow | rush/rushrankings.py:118-124 | scores 10, 0, 20, 0, 5 over a five-round window total 35 and average 7.0 |
| RushRankings.AccumulateRounds | rush/rushrankings.py:133-140 | a player object exists exactly for every name scored in some requested round; each has every requested round, holding that round's score or 0 |
| RushRankings.FinalScores | rush/rushrankings.py:133-140 | the score table at the end of the loop holds exactly those players and per-round scores |
| RushRankings.AddPairStep | rush/rushrankings.py:137-140 | crediting one more round pair keeps the table equal to the scores seen so far |
| RushRankings.NextRoundStep | rush/rushrankings.py:134-140 | a finished round moves the table on to the next round |
| RushRankings.RankByTotal | rush/rushrankings.py:141 | every player appears once, and the list is non-increasing in total score |
| RushRankings.MultipleRoundScores | rush/rushrankings.py:132-141 | one player object per name scored in some requested round, holding every requested round's score or 0; the ranking lists each player once, non-increasing in total |
| DaveRankings.DaveScoreForPlayer | rush/daverankings.py:25-31 | the accumulator loop gives the raw-score sum over the four scoring rankings |
| DaveRankings.DaveScoreIsFourTerms | rush/daverankings.py:27-30 | that sum is the four boards' raw scores added, each 0 where the player is absent |
| DaveRankings.RawSumAbsent | rush/daverankings.py:29-30 | a player in none of the boards scores 0 |
| DaveRankings.RawSumAtLeast | rush/daverankings.py:28-30 | with non-negative scores, the sum is at least each board's contribution |
| DaveRankings.RawSumNonNegative | rush/daverankings.py:28-30 | with non-negative scores, the sum is non-negative |
| DaveRankings.ScoreAll | rush/daverankings.py:34 | the comprehension gives every listed name its Dave score |
| DaveRankings.DaveScoresForRound | rush/daverankings.py:33-39 | every output pair is a player of the round with their positive Dave score; every player with a positive score appears exactly once; the list is non-increasing |
| DaveRankings.AddRoundTotals | rush/daverankings.py:52-53 | after one round, each name's total is its old total plus its scores in that round |
| DaveRankings.AddPairTotal | rush/daverankings.py:52-53 | one more `total_score[name] += score` keeps the totals equal to the pairs added so far |
| DaveRankings.TotalScores | rush/daverankings.py:50-53 | the `defaultdict` holds exactly the names of all rounds, each with the sum of its scores over all rounds |
| DaveRankings.NamesOfMissing | rush/daverankings.py:50-53 | a name in no round totals 0, the `defaultdict` default |
| DaveRankings.PairsTotalOfDistinct | rush/daverankings.py:52-53 | in a round listing without repeated names, a name's round total is its one pair's score |
| DaveRankings.TotalsPositive | rush/daverankings.py:50-53 | over rounds of positive scores, listed names have a positive total and no total is negative |
| DaveRankings.DaveTotals | rush/daverankings.py:50-57 | the final listing names every player once, with their total over all rounds, non-increasing |
| TopHundred.ReplaceNonAlnum | tophundred.py:40 | every character outside `[A-Za-z0-9]` becomes `_`, the others stay |
| TopHundred.CollapseProperties | tophundred.py:42 | collapsing leaves no two underscores in a row, keeps every other character, and writes exactly one underscore for each run of underscores |
| TopHundred.CollapseIsScan | tophundred.py:42 | `re.sub('_{2,}', '_', s)` equals the left-to-right reading that holds back a run of underscores and writes it once |
| TopHundred.StripProperties | tophundred.py:44 | stripping drops only trailing underscores and leaves none at the end |
| TopHundred.SlugProperties | tophundred.py:40-44 | the slug holds only letters, digits and `_`, has no `__`, does not end in `_`, its other characters are the dominion's letters and digits in order, and it is the left-to-right slug |
| TopHundred.SlugIsScan | tophundred.py:40-44 | the three substitutions equal the left-to-right slug: letters and digits copied, each run of other characters before a letter or digit becomes exactly one `_`, a run at the end leaves nothing |
| TopHundred.StripCollapseScan | tophundred.py:42-44 | on letters, digits and underscores, collapsing and then stripping gives the left-to-right slug |
| TopHundred.SlugOfTwoWords | tophundred.py:40-44 | two alphanumeric words with any non-empty run of other characters between them become the words joined by one `_` |
| TopHundred.SlugIdempotent | tophundred.py:40-44 | the slug of a slug is the slug |
| TopHundred.SlugOfAlnum | tophundred.py:40-44 | a purely alphanumeric dominion name is its own slug |
| TopHundred.SlugExample | tophundred.py:40-44 | "Ab c!" gives "Ab_c" |
| TopHundred.LinkNameParts | tophundred.py:45 | the link name is `Round_` + the round + `_` + the slug, with the slug's properties |
| TopHundred.ParseEntry | tophundred.py:63-68 | a row converts iff it has at least five cells and `int()` accepts cell 0, the last cell without commas, and cell 4; then rank, score and realm are those integers, dominion is cell 1, player cell 2, and the round the given one |
| TopHundred.ParseEntryOfPrintedRow | tophundred.py:63-68 | a printed six-cell row (rank, dominion, player, race, realm, comma-grouped land) converts back to its entry |
| TopHundred.ShortRowFails | tophundred.py:63-67 | a row of fewer than five cells raises |
| TopHundred.TopRoundIs46 | tophundred.py:68 | every entry gets public round 46, the number of the last round id 69 |
| TopHundred.ParseEntriesFromPage | tophundred.py:57-73 | succeeds iff every row converts; then keyed by player with the last row per player, all of round 46 |
| TopHundred.SortedEntries | tophundred.py:78-79 | the list is a permutation of the dict's values (each value once per key) and is sorted by rank |
| TopHundred.WinnerLineDiffers | tophundred.py:21-25 | the ordinary and the winner templates give different lines for every entry |
| TopHundred.LineForWinnerIff | tophundred.py:83 | an entry gets the winner template iff its realm is the winner's realm, and the ordinary one otherwise |
| TopHundred.WikiLines | tophundred.py:80-84 | one line per sorted entry, each chosen against the first entry's realm |
| TopHundred.FirstLineIsWinner | tophundred.py:80-84 | the first line uses the winner template, and a line does iff its entry shares the first entry's realm |
| TopHundred.WikiTableHoldsLines | tophundred.py:16-19 | the page starts with the table head, ends with `\n\|}`, and contains every line |
| TopHundred.TopHundredPage | tophundred.py:76-86 | the entries as a permutation of the dict's values sorted by rank, one line per entry against the winner's realm, and the page built from them |
| RushTopHundred.RoundConstantsAgree | rush/tophundred.py:11-14 | the listed rounds are the configured ids from 52 down; the URL id is 52, whose public number is the hard-wired 36 |
| RushTopHundred.ParseRushEntriesFromPage | rush/tophundred.py:57-73 | succeeds iff every row converts; then keyed by player with the last row each, all of round 36, with link names `Round_36_` + slug |
| RushTopHundred.LinkNameOfRound36 | rush/tophundred.py:45 | an entry of round 36 is linked as `Round_36_` + its slug |
| TitleHolders.ToInclude | title-holders.py:7-11 | the exclusion loop with early return is true iff no excluded word occurs in the name |
| TitleHolders.IncludedIff | title-holders.py:4-11 | a stat is left out iff "Realm" or "Pack" occurs in its name |
| TitleHolders.RealmBoardExcluded | title-holders.py:4-11 | the "Largest Realms" board is left out |
| TitleHolders.PackBoardExcluded | title-holders.py:4-11 | the "Largest Packs" board is left out |
| TitleHolders.ScoresOf | title-holders.py:19 | the list of scores matches the entries one by one |
| TitleHolders.Holders | title-holders.py:20 | the comprehension keeps exactly the entries with the given score |
| TitleHolders.HoldersAppend | title-holders.py:20 | the holders keep the board's order: filtering distributes over concatenation |
| TitleHolders.BoardHolders | title-holders.py:19-20 | for the listing `items` of the board, the holders are the entries, in that `values()` order, whose score is the board's maximum; they are a non-empty set of exactly the top-scoring entries |
| TitleHolders.HoldersDistinct | title-holders.py:20 | filtering a list without repetitions gives a list without repetitions |
| TitleHolders.ListedHoldersDistinct | title-holders.py:19-20 | on a board keyed by player, the holders of any `values()` order list every entry at most once |
| TitleHolders.BoardTitleOf | title-holders.py:19-20 | the holders of one board are its top-scoring entries, filtered in some `values()` order |
| TitleHolders.HoldersOfListing | title-holders.py:19-20 | filtering any listing of a board's entries by its maximum gives its title holders |
| TitleHolders.HolderBeatsBoard | title-holders.py:19-20 | every holder's score is at least every score on its board |
| TitleHolders.SingleTopHolder | title-holders.py:19-20 | a board with one top-scoring player has only that entry as holder, and holders without repetitions are exactly `[x]` |
| TitleHolders.TitleHoldersOf | title-holders.py:17-21 | one entry per stat, each the non-empty list of that board's top-scoring entries, filtered in some `values()` order of the board |
| TitleHolders.LoadedBoardIsNonEmpty | rush/rankingscraper.py:75-79 | every board the load returns has an entry, so taking its `max` cannot raise, and each entry sits under its own player |
| TitleHolders.RoundTitleHolders | rush/title-holders.py:15-22 | loading through the filter succeeds iff no included found page fails; then one entry per included found page, holding the title holders of its loaded board in some `values()` order, each listed once |
| RushTitleHolders.RoundIsConfigured | rush/title-holders.py:5 | the hard-wired round id 51 is a configured round older than the last, with public number 35 |

## Left out

- HTTP and HTML: `get_page`, `get_stat_page_urls` and the `soup.tbody.find_all` walks are network I/O and a foreign library. The parsed rows and the map from stat name to page (`None` where no page was found) are inputs.
- File output and printing: the CSV, text and wiki files, the progress prints and the `datetime` timing. Only the sequences that get written are modelled.
- The pickle cache of `load_round_stats` and the JSON rule files of `config.py`. Rule sets are values (`Ratios`), and the table holds version tags.
- `main.py`: it is command-line wiring only.
- Python's `round(x, 3)`: totals, averages and player scores are exact sums and quotients over `real`.
- Python's `int()` in full: the model accepts an optional sign and decimal digits, and leaves out whitespace, underscores and non-ASCII digits. The cells are stripped before conversion.
- The `with_components` variant of `blop_scores_for_round` and `round_scores`: it only adds the component dict to the output.
- The calls `load_stats(..., use_cache=False)` in `rush/daverankings.py:19` and `title-holders.py:15`: `load_stats` takes no such parameter, and the first call also omits the filter, so both raise `TypeError`. `TitleHolders.RoundTitleHolders` follows the working call of `rush/title-holders.py:16`. `DaveRankings` is given the loaded round.
- Dict insertion order and object aliasing. Maps have no order, and iteration picks keys in an arbitrary order. The in-place rewrite of `fs_score` is modelled as a new map; that the `Ranking` objects are shared and mutated is not modelled.
- The order among equal scores in the sorts: the outputs are permutations that are non-increasing (by rank for the top-100 page). Python's stable order for ties depends on dict order.
- A rule naming a leaderboard the round lacks: the code raises `KeyError` at `stats[stat_name]` (`rush/rushrankings.py:72`) and at `stats[ranking]` (`rush/daverankings.py:29`). The model follows the code with a `requires` (`RatiosFit`, `HasScoringRankings`).
- DaveRankings.DaveScoresForRound: it requires the four scoring boards to be present or the round to have no players. The code raises `KeyError` only when some player exists and a board is missing.
- RushRankings.MultipleRoundScores: it requires every requested round to be scored and each round listing to name a player once, as `blop_scores_for_round` guarantees.
- `load_stats`' warning for a page it could not load: the page is skipped and the print is left out.
- RankingScraper.FeatureScaledScores: it requires a non-empty board, because `max` of an empty list raises. LoadPage turns an empty page into an error instead.
- TopHundred.TopHundredPage: it requires a non-empty entry map, because `sorted_entries[0]` raises on an empty page.
- TitleHolders.BoardHolders, TitleHolders.BoardTitleOf and TitleHolders.TitleHoldersOf require non-empty boards, because `max` of an empty list raises. LoadedBoardIsNonEmpty shows that loaded boards always are.
- The output file names, which carry the round (`Title Holders Round 51`, `top_100_round_36`): no file is written.
