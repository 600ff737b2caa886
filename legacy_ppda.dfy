/**
 * The older PPDA calculation of calculate_ppda.py: the same two counts as in
 * ppda/calculate_ppda.py, with literal zone limits and lower-case tag names.
 */
module LegacyPpda {
  import opened Match
  import opened PpdaCalculation

  const FoulTypes: set<string> := {"Foul", "Hand foul", "Late card foul", "Violent foul"}

  predicate IsFoul(e: Event) { e.subEventType in FoulTypes }
  predicate IsInterception(e: Event) { "interception" in e.tags }
  predicate IsWonDuel(e: Event) { e.subEventType == "Ground defending duel" && "won" in e.tags }
  predicate IsSlidingTackle(e: Event) { "sliding_tackle" in e.tags }

  /** The lower-case tags that mark an event of sub-type `subEventType` as a defensive action. */
  function DefensiveTags(subEventType: string): set<string>
  {
    {"interception", "sliding_tackle"} + (if subEventType == "Ground defending duel" then {"won"} else {})
  }

  /**
   * This version's defensive-action classifier: a foul-family sub-type, or some
   * lower-case tag that marks a defensive action for the event's sub-type.
   */
  predicate IsDefensiveAction(e: Event): (r: bool)
    ensures r <==> e.subEventType in FoulTypes
                   || exists t :: t in e.tags && t in DefensiveTags(e.subEventType)
  {
    IsFoul(e) || IsInterception(e) || IsWonDuel(e) || IsSlidingTackle(e)
  }

  /**
   * This file's rules: passes before x = 62.4, which is 60% of a 104-long
   * pitch, defensive actions beyond x = 41.6, which is 40%, and the classifier above.
   */
  function Legacy(): (r: Rules)
    ensures r.buildUpLimit == 104.0 * 0.6 && r.pressingLimit == 104.0 * 0.4
    ensures forall e :: r.isDefensiveAction(e) == IsDefensiveAction(e)
  {
    Rules(62.4, 41.6, e => IsDefensiveAction(e))
  }

  /** A won duel needs both the duel sub-type and the lower-case "won" tag. */
  lemma WonDuelNeedsBoth(e: Event)
    requires !IsFoul(e) && !IsInterception(e) && !IsSlidingTackle(e)
    ensures IsDefensiveAction(e) <==> e.subEventType == "Ground defending duel" && "won" in e.tags
  {
  }
}
