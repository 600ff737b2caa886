/**
 * PPDA (passes per defensive action) of both teams of a match, as computed by
 * `calculate_match_ppda` in ppda/calculate_ppda.py.
 */
module Ppda {
  import opened Wrappers
  import opened Tally
  import opened Match
  import opened PpdaCalculation

  /** Length of the pitch along the attacking axis. */
  const FieldLength: real := 104.0

  const FoulTypes: set<string> := {"Foul", "Hand foul", "Late card foul", "Violent foul"}

  predicate IsFoul(e: Event) { e.subEventType in FoulTypes }
  predicate IsInterception(e: Event) { "Interception" in e.tags }
  predicate IsWonDuel(e: Event) { e.subEventType == "Ground defending duel" && "Won" in e.tags }
  predicate IsSlidingTackle(e: Event) { "Sliding tackle" in e.tags }

  /** The tags that mark an event of sub-type `subEventType` as a defensive action. */
  function DefensiveTags(subEventType: string): set<string>
  {
    {"Interception", "Sliding tackle"} + (if subEventType == "Ground defending duel" then {"Won"} else {})
  }

  /**
   * The defensive-action classifier: four independent tests combined by "or".
   * Equivalently: a foul-family sub-type, or some tag that marks a defensive
   * action for the event's sub-type ("Won" only on a ground defending duel).
   */
  predicate IsDefensiveAction(e: Event): (r: bool)
    ensures r <==> e.subEventType in FoulTypes
                   || exists t :: t in e.tags && t in DefensiveTags(e.subEventType)
  {
    IsFoul(e) || IsInterception(e) || IsWonDuel(e) || IsSlidingTackle(e)
  }

  /**
   * This file's rules: passes before 60% of the pitch length (62.4), defensive
   * actions beyond 40% (41.6), and the classifier above.
   */
  function Current(): (r: Rules)
    ensures r.buildUpLimit == 62.4 && r.pressingLimit == 41.6
    ensures forall e :: r.isDefensiveAction(e) == IsDefensiveAction(e)
  {
    Rules(FieldLength * 0.6, FieldLength * 0.4, e => IsDefensiveAction(e))
  }

  /**
   * The calculation as the source runs it: pick the two teams, then fill the
   * result map over the two orientations (my team, opponent).
   */
  method CalculateMatchPpda(events: seq<Event>) returns (r: Result<map<TeamId, Option<real>>, PpdaError>)
    ensures r == MatchPpda(Current(), events)
  {
    var teams := Unique(TeamIds(events));
    if |teams| < 2 {
      return Failure(FewerThanTwoTeams);
    }
    var team1, team2 := teams[0], teams[1];
    assert team1 != team2;
    ghost var ppda1, ppda2 := TeamPpda(Current(), events, team1, team2), TeamPpda(Current(), events, team2, team1);
    var orientations := [(team1, team2), (team2, team1)];
    var results: map<TeamId, Option<real>> := map[];
    for o := 0 to |orientations|
      invariant results == if o == 0 then map[]
                           else if o == 1 then map[team1 := ppda1]
                           else map[team1 := ppda1, team2 := ppda2]
    {
      var (myTeam, opponent) := orientations[o];
      var passes := PassesAllowed(Current(), events, opponent);
      var actions := DefensiveActions(Current(), events, myTeam);
      var ppda := if actions == 0 then None else Some(passes as real / actions as real);
      assert ppda == TeamPpda(Current(), events, myTeam, opponent);
      results := results[myTeam := ppda];
    }
    assert FirstTwoTeams(events) == Some((team1, team2));
    r := Success(results);
  }

  /**
   * A ground defending duel that no other test classifies is not a defensive
   * action without the "Won" tag, and becomes one when "Won" is added.
   */
  lemma WonDecidesDuel(e: Event)
    requires e.subEventType == "Ground defending duel"
    requires "Won" !in e.tags && !IsInterception(e) && !IsSlidingTackle(e)
    ensures !IsDefensiveAction(e)
    ensures IsDefensiveAction(e.(tags := e.tags + ["Won"]))
  {
    assert "Won" in e.tags + ["Won"];
  }

  /**
   * Adding "Won" to such a duel of `team` in its pressing zone raises that
   * team's denominator by exactly one and leaves every numerator alone.
   */
  lemma WonDuelAddsOneAction(events: seq<Event>, k: nat, team: TeamId)
    requires k < |events| && InPressingZone(Current(), events[k], team)
    requires events[k].subEventType == "Ground defending duel"
    requires "Won" !in events[k].tags && !IsInterception(events[k]) && !IsSlidingTackle(events[k])
    ensures var won := events[k := events[k].(tags := events[k].tags + ["Won"])];
      && DefensiveActions(Current(), won, team) == DefensiveActions(Current(), events, team) + 1
      && forall opponent :: PassesAllowed(Current(), won, opponent) == PassesAllowed(Current(), events, opponent)
  {
    WonDecidesDuel(events[k]);
    NewDefensiveActionAddsOne(Current(), events, k, events[k].(tags := events[k].tags + ["Won"]), team);
  }

  /**
   * An event tagged "Interception" in `team`'s pressing zone is a defensive
   * action, so that team's PPDA is defined whatever the opponent did.
   */
  lemma InterceptionIsCounted(events: seq<Event>, k: nat, team: TeamId, opponent: TeamId)
    requires k < |events| && InPressingZone(Current(), events[k], team)
    requires "Interception" in events[k].tags
    ensures DefensiveActions(Current(), events, team) > 0
    ensures TeamPpda(Current(), events, team, opponent).Some?
  {
    DefensiveActionDefinesPpda(Current(), events, k, team, opponent);
  }

  /**
   * A pass by team 1 deep in its half and a foul by team 2 in its pressing
   * zone: team 2 allows one pass per defensive action, team 1 has none.
   */
  lemma FoulScenario(events: seq<Event>)
    requires events == [Event(1, "Pass", "Simple pass", 30.0, []), Event(2, "Foul", "Foul", 70.0, [])]
    ensures MatchPpda(Current(), events) == Success(map[1 := None, 2 := Some(1.0)])
  {
    assert events[..1] == [events[0]];
    assert TeamIds(events) == [1, 2];
    assert [1, 2][..1] == [1];
    assert FirstTwoTeams(events) == Some((1, 2));
    assert TeamPpda(Current(), events, 1, 2) == None;
    FoulScenarioTeam2(events);
  }

  lemma FoulScenarioTeam2(events: seq<Event>)
    requires events == [Event(1, "Pass", "Simple pass", 30.0, []), Event(2, "Foul", "Foul", 70.0, [])]
    ensures TeamPpda(Current(), events, 2, 1) == Some(1.0)
  {
    assert events[..1] == [events[0]];
    assert Count(events[..1], OpponentPass(Current(), 1)) == 1;
    assert PassesAllowed(Current(), events, 1) == 1;
    assert Filter(events[..1], PressingZone(Current(), 2)) == [];
    assert Filter(events, PressingZone(Current(), 2)) == [events[1]];
    assert Count([events[1]], Current().isDefensiveAction) == 1;
    assert DefensiveActions(Current(), events, 2)
        == Count(Filter(events, PressingZone(Current(), 2)), Current().isDefensiveAction);
  }
}
