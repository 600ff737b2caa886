/**
 * Match events, the choice of the two teams of a match, and the
 * passes-per-defensive-action ratio with its undefined case.
 */
module Match {
  import opened Wrappers
  import opened Tally

  type TeamId = int

  /**
   * One row of a match's event log. `tags` is only ever asked whether it
   * contains a label.
   */
  datatype Event = Event(
    teamId: TeamId,
    eventType: string,
    subEventType: string,
    startX: real,
    tags: seq<string>)

  /** Why the per-team PPDA of a match cannot be computed. */
  datatype PpdaError =
    /** The log names fewer than two distinct teams (it is empty or has a single team), so indexing the teams fails. */
    | FewerThanTwoTeams

  /** The `team_id` column. */
  function TeamIds(events: seq<Event>): (ids: seq<TeamId>)
    ensures |ids| == |events|
    ensures forall i :: 0 <= i < |events| ==> ids[i] == events[i].teamId
  {
    seq(|events|, i requires 0 <= i < |events| => events[i].teamId)
  }

  /** The selector for the events of one team. */
  function TeamIs(team: TeamId): Event -> bool
  {
    (e: Event) => e.teamId == team
  }

  /** Every event of the log belongs to the team of the first event. */
  ghost predicate SingleTeam(events: seq<Event>)
  {
    forall i :: 0 <= i < |events| ==> events[i].teamId == events[0].teamId
  }

  /** `k` is the first position whose team differs from the first event's team. */
  ghost predicate FirstOtherTeamAt(events: seq<Event>, k: int)
  {
    && 0 < k < |events|
    && events[k].teamId != events[0].teamId
    && forall j :: 0 <= j < k ==> events[j].teamId == events[0].teamId
  }

  /** Finds the first event of a second team. */
  lemma FindFirstOtherTeam(events: seq<Event>) returns (k: int)
    requires !SingleTeam(events)
    ensures FirstOtherTeamAt(events, k)
  {
    var t0 := events[0].teamId;
    k := 1;
    while events[k].teamId == t0
      invariant 0 < k < |events|
      invariant forall j :: 0 <= j < k ==> events[j].teamId == t0
      invariant exists i :: k <= i < |events| && events[i].teamId != t0
      decreases |events| - k
    {
      k := k + 1;
    }
  }

  /**
   * The distinct team ids in order of appearance have fewer than two entries
   * exactly for a single-team log, and otherwise begin with the first event's
   * team followed by the first other team to appear.
   */
  lemma UniqueTeams(events: seq<Event>)
    ensures |Unique(TeamIds(events))| < 2 <==> SingleTeam(events)
    ensures |Unique(TeamIds(events))| >= 2 ==>
      exists k :: FirstOtherTeamAt(events, k)
        && Unique(TeamIds(events))[0] == events[0].teamId
        && Unique(TeamIds(events))[1] == events[k].teamId
  {
    var ids := TeamIds(events);
    if SingleTeam(events) {
      if |events| > 0 {
        UniqueConstant(ids, events[0].teamId);
      }
    } else {
      var k := FindFirstOtherTeam(events);
      UniqueFirstTwo(ids, k);
    }
  }

  /**
   * The two teams of a match: the first two distinct team ids in order of
   * appearance, or `None` when there is no second team.
   */
  function FirstTwoTeams(events: seq<Event>): (r: Option<(TeamId, TeamId)>)
    ensures r.None? <==> SingleTeam(events)
    ensures r.Some? ==>
      exists k :: FirstOtherTeamAt(events, k) && r.value == (events[0].teamId, events[k].teamId)
  {
    UniqueTeams(events);
    var teams := Unique(TeamIds(events));
    if |teams| < 2 then None else Some((teams[0], teams[1]))
  }

  /**
   * Passes per defensive action: `num / den`, undefined (NaN in the data)
   * when there are no defensive actions.
   */
  function Ratio(num: nat, den: nat): (r: Option<real>)
    ensures r.None? <==> den == 0
    ensures r.Some? ==> r.value >= 0.0 && r.value * den as real == num as real
  {
    if den == 0 then None else Some(num as real / den as real)
  }
}
