/**
 * `rush/title-holders.py`: the title-holder script fixed to an older round. Its
 * exclusion list, its filter and its loop are those of TitleHolders; only the
 * round is hard-wired: the round id 51 in the page URL and the output file
 * name. The pages of that round are given, as in TitleHolders.RoundTitleHolders.
 */
module RushTitleHolders {
  import opened Config
  import opened TitleHolders

  /** `ROUND_NUMBER`: a round id of the Valhalla site. */
  const RoundNumber: int := 51

  /**
   * The hard-wired round is one of the configured rounds, older than the last
   * one, and the configured table gives it public number 35.
   */
  lemma RoundIsConfigured()
    ensures RoundNumber in AllRounds && AllRounds[11] == RoundNumber
    ensures RoundNumberOfRoundId(RoundNumber) == 35
    ensures RoundNumber < LastRound
  {
    RoundNumberAt(11);
  }
}
