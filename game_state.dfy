/**
 * The game state of one team at every event of a match, as labelled by
 * `add_gamestate_to_match` in ppda/calculate_ppda.py: a left-to-right replay
 * of the log that keeps both teams' scores.
 */
module GameStates {
  import opened Tally
  import opened Match

  datatype GameState = Winning | Losing | Drawing

  /** The observed team's goals and its opponents' goals. */
  datatype Score = Score(mine: nat, theirs: nat)

  /** An event of the log together with the label written into its new column. */
  datatype LabelledEvent = LabelledEvent(event: Event, gameState: GameState)

  /** The label of a score, seen from the observed team. */
  function StateOf(s: Score): (g: GameState)
    ensures g == Winning <==> s.mine > s.theirs
    ensures g == Losing <==> s.mine < s.theirs
    ensures g == Drawing <==> s.mine == s.theirs
  {
    if s.mine > s.theirs then Winning
    else if s.mine < s.theirs then Losing
    else Drawing
  }

  /** The same situation seen from the other team. */
  function Opposite(g: GameState): GameState
  {
    match g
    case Winning => Losing
    case Losing => Winning
    case Drawing => Drawing
  }

  predicate IsShotGoal(e: Event) { e.eventType == "Shot" && "Goal" in e.tags }
  predicate IsOwnGoal(e: Event) { e.eventType == "Own goal" }
  predicate IsFreeKickGoal(e: Event)
  {
    e.eventType == "Free kick" && e.subEventType == "Free kick shot" && "Goal" in e.tags
  }

  /** The event puts a goal on `team`'s side: its own goal, or an own goal of any other team. */
  predicate ScoresFor(e: Event, team: TeamId)
  {
    || ((IsShotGoal(e) || IsFreeKickGoal(e)) && e.teamId == team)
    || (IsOwnGoal(e) && e.teamId != team)
  }

  /** The event puts a goal on the opponents' side. */
  predicate ScoresAgainst(e: Event, team: TeamId)
  {
    || ((IsShotGoal(e) || IsFreeKickGoal(e)) && e.teamId != team)
    || (IsOwnGoal(e) && e.teamId == team)
  }

  function GoalFor(team: TeamId): Event -> bool { e => ScoresFor(e, team) }
  function GoalAgainst(team: TeamId): Event -> bool { e => ScoresAgainst(e, team) }

  /**
   * The scoring effect of one event: the three scoring tests are applied one
   * after the other, independently. Because an event has one type, at most one
   * of them fires: the event adds one goal to exactly the side it scores for.
   */
  function Apply(s: Score, e: Event, team: TeamId): (r: Score)
    ensures r.mine == s.mine + (if ScoresFor(e, team) then 1 else 0)
    ensures r.theirs == s.theirs + (if ScoresAgainst(e, team) then 1 else 0)
    ensures r.mine + r.theirs <= s.mine + s.theirs + 1
  {
    var afterShot :=
      if IsShotGoal(e) then
        (if e.teamId == team then s.(mine := s.mine + 1) else s.(theirs := s.theirs + 1))
      else s;
    var afterOwnGoal :=
      if IsOwnGoal(e) then
        (if e.teamId == team then afterShot.(theirs := afterShot.theirs + 1)
         else afterShot.(mine := afterShot.mine + 1))
      else afterShot;
    if IsFreeKickGoal(e) then
      (if e.teamId == team then afterOwnGoal.(mine := afterOwnGoal.mine + 1)
       else afterOwnGoal.(theirs := afterOwnGoal.theirs + 1))
    else afterOwnGoal
  }

  /** The score after replaying `events` from 0-0: never more goals than events. */
  function ScoreAfter(events: seq<Event>, team: TeamId): (s: Score)
    ensures s.mine + s.theirs <= |events|
  {
    if events == [] then Score(0, 0)
    else Apply(ScoreAfter(events[..|events| - 1], team), events[|events| - 1], team)
  }

  /**
   * The replay equals the per-event goal counts: each side's score is the
   * number of events that score for it.
   */
  lemma {:induction false} ScoreIsGoalCount(events: seq<Event>, team: TeamId)
    ensures ScoreAfter(events, team)
         == Score(Count(events, GoalFor(team)), Count(events, GoalAgainst(team)))
  {
    if events != [] {
      ScoreIsGoalCount(events[..|events| - 1], team);
    }
  }

  /** Scores never decrease along the log. */
  lemma {:induction false} ScoreMonotone(events: seq<Event>, i: nat, j: nat, team: TeamId)
    requires i <= j <= |events|
    ensures ScoreAfter(events[..i], team).mine <= ScoreAfter(events[..j], team).mine
    ensures ScoreAfter(events[..i], team).theirs <= ScoreAfter(events[..j], team).theirs
  {
    if i < j {
      ScoreMonotone(events, i, j - 1, team);
      assert events[..j][..j - 1] == events[..j - 1];
    }
  }

  /** Replaying one more event applies that event's effect to the score so far. */
  lemma ScoreAfterNext(events: seq<Event>, i: nat, team: TeamId)
    requires i < |events|
    ensures ScoreAfter(events[..i + 1], team) == Apply(ScoreAfter(events[..i], team), events[i], team)
  {
    assert events[..i + 1][..i] == events[..i];
  }

  /**
   * In a match between `a` and `b` only, the score seen by `b` is the score
   * seen by `a` with the sides swapped, so the labels are opposite.
   */
  lemma {:induction false} MirrorScore(events: seq<Event>, a: TeamId, b: TeamId)
    requires a != b
    requires forall i :: 0 <= i < |events| ==> events[i].teamId == a || events[i].teamId == b
    ensures ScoreAfter(events, b) == Score(ScoreAfter(events, a).theirs, ScoreAfter(events, a).mine)
    ensures StateOf(ScoreAfter(events, b)) == Opposite(StateOf(ScoreAfter(events, a)))
  {
    if events != [] {
      MirrorScore(events[..|events| - 1], a, b);
    }
  }

  /**
   * A goal for the observed team at a level score leaves it winning at the
   * next event, while the scoring event itself is still labelled drawing.
   */
  lemma GoalFromLevelWins(events: seq<Event>, i: nat, team: TeamId)
    requires i < |events|
    requires StateOf(ScoreAfter(events[..i], team)) == Drawing
    requires ScoresFor(events[i], team)
    ensures StateOf(ScoreAfter(events[..i + 1], team)) == Winning
  {
    ScoreAfterNext(events, i, team);
  }

  /**
   * An own goal by the observed team at a level score puts the opponents
   * ahead: the next event is labelled losing.
   */
  lemma OwnGoalFromLevelLoses(events: seq<Event>, i: nat, team: TeamId)
    requires i < |events|
    requires StateOf(ScoreAfter(events[..i], team)) == Drawing
    requires IsOwnGoal(events[i]) && events[i].teamId == team
    ensures StateOf(ScoreAfter(events[..i + 1], team)) == Losing
  {
    ScoreAfterNext(events, i, team);
  }

  /**
   * Replays the log and writes each event's label into a new column. The label
   * of event i is taken from the score of events 0..i-1, before event i's own
   * goal is counted; the events themselves and their order are unchanged.
   */
  method AddGameState(events: seq<Event>, team: TeamId) returns (table: seq<LabelledEvent>)
    ensures |table| == |events|
    ensures forall i :: 0 <= i < |events| ==> table[i].event == events[i]
    ensures forall i :: 0 <= i < |events| ==>
      table[i].gameState == StateOf(ScoreAfter(events[..i], team))
    ensures |events| > 0 ==> table[0].gameState == Drawing
  {
    var myTeamScore: nat := 0;
    var opponentScore: nat := 0;
    var gameStates: seq<GameState> := [];
    for i := 0 to |events|
      invariant |gameStates| == i
      invariant Score(myTeamScore, opponentScore) == ScoreAfter(events[..i], team)
      invariant forall j :: 0 <= j < i ==> gameStates[j] == StateOf(ScoreAfter(events[..j], team))
    {
      var event := events[i];
      if myTeamScore > opponentScore {
        gameStates := gameStates + [Winning];
      } else if myTeamScore < opponentScore {
        gameStates := gameStates + [Losing];
      } else {
        gameStates := gameStates + [Drawing];
      }

      if event.eventType == "Shot" && "Goal" in event.tags {
        if event.teamId == team {
          myTeamScore := myTeamScore + 1;
        } else {
          opponentScore := opponentScore + 1;
        }
      }

      if event.eventType == "Own goal" {
        if event.teamId == team {
          opponentScore := opponentScore + 1;
        } else {
          myTeamScore := myTeamScore + 1;
        }
      }

      if event.eventType == "Free kick" && event.subEventType == "Free kick shot" {
        if "Goal" in event.tags {
          if event.teamId == team {
            myTeamScore := myTeamScore + 1;
          } else {
            opponentScore := opponentScore + 1;
          }
        }
      }
      ScoreAfterNext(events, i, team);
    }
    assert events[..0] == [];
    table := seq(|events|, i requires 0 <= i < |events| => LabelledEvent(events[i], gameStates[i]));
  }
}
