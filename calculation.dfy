/**
 * The PPDA calculation shared by both versions of `calculate_match_ppda`
 * (calculate_ppda.py and ppda/calculate_ppda.py). The versions differ only in
 * their zone limits and in the tag names their classifier looks for, so those
 * are a parameter.
 */
module PpdaCalculation {
  import opened Wrappers
  import opened Tally
  import opened Match

  /** What one version of the calculation fixes. */
  datatype Rules = Rules(
    /** Opponent passes count when they start before this x coordinate. */
    buildUpLimit: real,
    /** Defensive actions count when they start beyond this x coordinate. */
    pressingLimit: real,
    /** The defensive-action classifier. */
    isDefensiveAction: Event -> bool)

  const PassTypes: set<string> := {"Pass", "Free kick"}

  /** An opponent pass or free kick in its own build-up zone (the numerator). */
  predicate IsOpponentPass(rules: Rules, e: Event, opponent: TeamId)
  {
    e.teamId == opponent && e.eventType in PassTypes && e.startX < rules.buildUpLimit
  }

  /** An event of `team` in its pressing zone. */
  predicate InPressingZone(rules: Rules, e: Event, team: TeamId)
  {
    e.teamId == team && e.startX > rules.pressingLimit
  }

  /** A defensive action of `team` in its pressing zone (the denominator). */
  predicate IsPressingAction(rules: Rules, e: Event, team: TeamId)
  {
    InPressingZone(rules, e, team) && rules.isDefensiveAction(e)
  }

  function OpponentPass(rules: Rules, opponent: TeamId): Event -> bool
  {
    e => IsOpponentPass(rules, e, opponent)
  }

  function PressingZone(rules: Rules, team: TeamId): Event -> bool
  {
    e => InPressingZone(rules, e, team)
  }

  function PressingAction(rules: Rules, team: TeamId): Event -> bool
  {
    e => IsPressingAction(rules, e, team)
  }

  /**
   * The numerator for the team facing `opponent`: exactly the positions holding
   * an opponent pass in its build-up zone, so at most the opponent's events.
   */
  function PassesAllowed(rules: Rules, events: seq<Event>, opponent: TeamId): (n: nat)
    ensures n == |Matching(events, OpponentPass(rules, opponent))|
    ensures n <= Count(events, TeamIs(opponent))
  {
    CountIsMatchingSize(events, OpponentPass(rules, opponent));
    CountMonotone(events, OpponentPass(rules, opponent), TeamIs(opponent));
    Count(events, OpponentPass(rules, opponent))
  }

  /**
   * The denominator for `team`: its events in the pressing zone are selected
   * first and then classified. The result counts exactly the positions holding
   * a defensive action of `team` in that zone, so at most its zone events.
   */
  function DefensiveActions(rules: Rules, events: seq<Event>, team: TeamId): (n: nat)
    ensures n == |Matching(events, PressingAction(rules, team))|
    ensures n <= Count(events, PressingZone(rules, team))
  {
    var zone := Filter(events, PressingZone(rules, team));
    CountOfFilter(events, PressingZone(rules, team), rules.isDefensiveAction, PressingAction(rules, team));
    CountIsMatchingSize(events, PressingAction(rules, team));
    Count(zone, rules.isDefensiveAction)
  }

  /**
   * The PPDA of `team` against `opponent`: undefined exactly when `team` has no
   * defensive action in its pressing zone, otherwise numerator over denominator.
   */
  function TeamPpda(rules: Rules, events: seq<Event>, team: TeamId, opponent: TeamId): (r: Option<real>)
    ensures r.None? <==> DefensiveActions(rules, events, team) == 0
    ensures r.Some? ==>
      r.value == PassesAllowed(rules, events, opponent) as real / DefensiveActions(rules, events, team) as real
  {
    var passes, actions := PassesAllowed(rules, events, opponent), DefensiveActions(rules, events, team);
    Ratio(passes, actions)
  }

  /**
   * The PPDA of both teams of a match. It fails exactly when the log has no
   * second team; otherwise its keys are exactly the two teams picked by
   * `FirstTwoTeams`, and each team is measured against the other.
   */
  function MatchPpda(rules: Rules, events: seq<Event>): (r: Result<map<TeamId, Option<real>>, PpdaError>)
    ensures r.Failure? <==> SingleTeam(events)
    ensures r.Success? ==>
      && FirstTwoTeams(events).Some?
      && var (t1, t2) := FirstTwoTeams(events).value;
        && t1 != t2
        && r.value.Keys == {t1, t2}
        && r.value[t1] == TeamPpda(rules, events, t1, t2)
        && r.value[t2] == TeamPpda(rules, events, t2, t1)
  {
    match FirstTwoTeams(events)
    case None => Failure(FewerThanTwoTeams)
    case Some((t1, t2)) =>
      Success(map[t1 := TeamPpda(rules, events, t1, t2), t2 := TeamPpda(rules, events, t2, t1)])
  }

  /**
   * Turning an unclassified event of `team` in its pressing zone into a
   * classified one, keeping its team, type and position, raises that team's
   * denominator by exactly one and leaves every numerator alone.
   */
  lemma {:induction false} NewDefensiveActionAddsOne(rules: Rules, events: seq<Event>, k: nat, e: Event, team: TeamId)
    requires k < |events| && InPressingZone(rules, events[k], team)
    requires !rules.isDefensiveAction(events[k]) && rules.isDefensiveAction(e)
    requires e.teamId == events[k].teamId && e.eventType == events[k].eventType && e.startX == events[k].startX
    ensures DefensiveActions(rules, events[k := e], team) == DefensiveActions(rules, events, team) + 1
    ensures forall opponent :: PassesAllowed(rules, events[k := e], opponent) == PassesAllowed(rules, events, opponent)
  {
    CountUpdate(events, k, e, PressingAction(rules, team));
    CountIsMatchingSize(events, PressingAction(rules, team));
    CountIsMatchingSize(events[k := e], PressingAction(rules, team));
    forall opponent
      ensures PassesAllowed(rules, events[k := e], opponent) == PassesAllowed(rules, events, opponent)
    {
      CountUpdate(events, k, e, OpponentPass(rules, opponent));
      CountIsMatchingSize(events, OpponentPass(rules, opponent));
      CountIsMatchingSize(events[k := e], OpponentPass(rules, opponent));
    }
  }

  /**
   * A classified event of `team` in its pressing zone makes that team's
   * denominator positive, so its PPDA is defined whatever the opponent did.
   */
  lemma DefensiveActionDefinesPpda(rules: Rules, events: seq<Event>, k: nat, team: TeamId, opponent: TeamId)
    requires k < |events| && InPressingZone(rules, events[k], team)
    requires rules.isDefensiveAction(events[k])
    ensures DefensiveActions(rules, events, team) > 0
    ensures TeamPpda(rules, events, team, opponent).Some?
  {
    assert k in Matching(events, PressingAction(rules, team));
  }

  /**
   * Two versions with the same zone limits whose classifiers agree on every
   * event of a log return the same result on that log.
   */
  lemma {:induction false} SameRulesSameResult(a: Rules, b: Rules, events: seq<Event>)
    requires a.buildUpLimit == b.buildUpLimit && a.pressingLimit == b.pressingLimit
    requires forall i :: 0 <= i < |events| ==> a.isDefensiveAction(events[i]) == b.isDefensiveAction(events[i])
    ensures MatchPpda(a, events) == MatchPpda(b, events)
  {
    forall team
      ensures DefensiveActions(a, events, team) == DefensiveActions(b, events, team)
      ensures PassesAllowed(a, events, team) == PassesAllowed(b, events, team)
    {
      CountIsMatchingSize(events, PressingAction(a, team));
      CountIsMatchingSize(events, PressingAction(b, team));
      CountCongruent(events, PressingAction(a, team), PressingAction(b, team));
      CountIsMatchingSize(events, OpponentPass(a, team));
      CountIsMatchingSize(events, OpponentPass(b, team));
      CountCongruent(events, OpponentPass(a, team), OpponentPass(b, team));
    }
  }
}
