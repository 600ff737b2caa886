/**
 * When the two PPDA calculations (calculate_ppda.py and
 * ppda/calculate_ppda.py) give the same result, and an input on which they differ.
 */
module VersionAgreement {
  import opened Wrappers
  import opened Tally
  import opened Match
  import opened PpdaCalculation
  import Ppda
  import LegacyPpda

  /**
   * The event carries each capitalised classifier tag exactly when it carries
   * the lower-case spelling; in particular when it carries neither spelling.
   */
  predicate TagsAgree(e: Event)
  {
    && ("Interception" in e.tags <==> "interception" in e.tags)
    && ("Won" in e.tags <==> "won" in e.tags)
    && ("Sliding tackle" in e.tags <==> "sliding_tackle" in e.tags)
  }

  /** The two classifiers agree on every event whose tags agree in both spellings. */
  lemma ClassifiersAgree(e: Event)
    requires TagsAgree(e)
    ensures Ppda.Current().isDefensiveAction(e) == LegacyPpda.Legacy().isDefensiveAction(e)
  {
  }

  /**
   * The exact condition: the two classifiers agree on an event iff its
   * sub-type is foul-family, or the capitalised and the lower-case tag tests
   * for its sub-type give the same answer.
   */
  lemma ClassifiersAgreeExactly(e: Event)
    ensures Ppda.Current().isDefensiveAction(e) == LegacyPpda.Legacy().isDefensiveAction(e)
        <==> (|| e.subEventType in Ppda.FoulTypes
              || ((exists t :: t in e.tags && t in Ppda.DefensiveTags(e.subEventType))
                  <==> (exists t :: t in e.tags && t in LegacyPpda.DefensiveTags(e.subEventType))))
  {
  }

  /**
   * Every event that is not a foul and is tagged "Interception" but carries
   * none of the lower-case tags is a defensive action for the newer version
   * and not for the older one.
   */
  lemma CapitalisedOnlyMissed(e: Event)
    requires e.subEventType !in LegacyPpda.FoulTypes
    requires "Interception" in e.tags
    requires "interception" !in e.tags && "won" !in e.tags && "sliding_tackle" !in e.tags
    ensures Ppda.Current().isDefensiveAction(e)
    ensures !LegacyPpda.Legacy().isDefensiveAction(e)
  {
  }

  /**
   * On a log whose every event has agreeing tags, the two versions return the
   * same result: the same failure, or the same map.
   */
  lemma MatchPpdaAgree(events: seq<Event>)
    requires forall i :: 0 <= i < |events| ==> TagsAgree(events[i])
    ensures MatchPpda(Ppda.Current(), events) == MatchPpda(LegacyPpda.Legacy(), events)
  {
    assert Ppda.Current().buildUpLimit == LegacyPpda.Legacy().buildUpLimit;
    assert Ppda.Current().pressingLimit == LegacyPpda.Legacy().pressingLimit;
    forall i | 0 <= i < |events|
      ensures Ppda.Current().isDefensiveAction(events[i]) == LegacyPpda.Legacy().isDefensiveAction(events[i])
    {
      ClassifiersAgree(events[i]);
    }
    SameRulesSameResult(Ppda.Current(), LegacyPpda.Legacy(), events);
  }

  /**
   * A team-1 pass deep in its half and a team-2 event tagged only
   * "Interception" in team 2's pressing zone: the newer version gives team 2 a
   * PPDA of 1.0, the older one finds no defensive action and leaves it undefined.
   */
  lemma CapitalisedInterceptionMissed(events: seq<Event>)
    requires events == [Event(1, "Pass", "Simple pass", 30.0, []),
                        Event(2, "Others on the ball", "Touch", 50.0, ["Interception"])]
    ensures MatchPpda(Ppda.Current(), events) == Success(map[1 := None, 2 := Some(1.0)])
    ensures MatchPpda(LegacyPpda.Legacy(), events) == Success(map[1 := None, 2 := None])
  {
    assert events[..1] == [events[0]];
    assert TeamIds(events) == [1, 2];
    assert [1, 2][..1] == [1];
    assert FirstTwoTeams(events) == Some((1, 2));
    NewerCountsInterception(events);
    OlderMissesInterception(events);
  }

  lemma NewerCountsInterception(events: seq<Event>)
    requires events == [Event(1, "Pass", "Simple pass", 30.0, []),
                        Event(2, "Others on the ball", "Touch", 50.0, ["Interception"])]
    ensures TeamPpda(Ppda.Current(), events, 1, 2) == None
    ensures TeamPpda(Ppda.Current(), events, 2, 1) == Some(1.0)
  {
    var rules := Ppda.Current();
    assert events[..1] == [events[0]];
    assert Count(events[..1], OpponentPass(rules, 1)) == 1;
    assert PassesAllowed(rules, events, 1) == 1;
    assert Filter(events, PressingZone(rules, 1)) == [];
    assert DefensiveActions(rules, events, 1) == Count(Filter(events, PressingZone(rules, 1)), rules.isDefensiveAction);
    assert Filter(events[..1], PressingZone(rules, 2)) == [];
    assert Filter(events, PressingZone(rules, 2)) == [events[1]];
    assert Count([events[1]], rules.isDefensiveAction) == 1;
    assert DefensiveActions(rules, events, 2) == Count(Filter(events, PressingZone(rules, 2)), rules.isDefensiveAction);
  }

  lemma OlderMissesInterception(events: seq<Event>)
    requires events == [Event(1, "Pass", "Simple pass", 30.0, []),
                        Event(2, "Others on the ball", "Touch", 50.0, ["Interception"])]
    ensures TeamPpda(LegacyPpda.Legacy(), events, 1, 2) == None
    ensures TeamPpda(LegacyPpda.Legacy(), events, 2, 1) == None
  {
    var rules := LegacyPpda.Legacy();
    assert events[..1] == [events[0]];
    assert Filter(events, PressingZone(rules, 1)) == [];
    assert DefensiveActions(rules, events, 1) == Count(Filter(events, PressingZone(rules, 1)), rules.isDefensiveAction);
    assert Filter(events[..1], PressingZone(rules, 2)) == [];
    assert Filter(events, PressingZone(rules, 2)) == [events[1]];
    assert "interception" !in events[1].tags;
    assert Count([events[1]], rules.isDefensiveAction) == 0;
    assert DefensiveActions(rules, events, 2) == Count(Filter(events, PressingZone(rules, 2)), rules.isDefensiveAction);
  }
}
