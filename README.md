# PPDA and game state over a match event log

This project models the analytics core of a football-analytics repository:

- **PPDA** ("passes per defensive action") for both teams of a match. For a
  team, it is the number of opponent passes and free kicks made in the
  opponent's own build-up zone (`start_x` below 60% of a 104-long pitch),
  divided by the team's defensive actions in its pressing zone (`start_x`
  beyond 40%). A defensive action is a foul-family sub-type, an
  "Interception" tag, a ground defending duel tagged "Won", or a "Sliding
  tackle" tag. With no defensive action the value is undefined (NaN in the
  source, `None` here).
- Two versions of that calculation: the current one in
  `ppda/calculate_ppda.py` and an older one in `calculate_ppda.py`. The older
  one writes the zone limits as 62.4 and 41.6 and looks for the lower-case
  tags "interception", "won" and "sliding_tackle". The model proves that the
  versions agree on every log whose events carry each classifier tag in both
  spellings or in neither, and exhibits a log on which they differ.
- **Game state**: for one observed team, every event is labelled `winning`,
  `losing` or `drawing` from the score before that event's own goal.

An event table is a `seq<Event>`. A boolean mask followed by `len` is
`Tally.Count`, a masked selection is `Tally.Filter`, and `unique()` on the
`team_id` column is `Tally.Unique`. Modules:

- `Wrappers`: `Option` and `Result`.
- `Tally`: counting and selection, with their lemmas.
- `Match`: the event record, the choice of the two teams, and the ratio.
- `PpdaCalculation`: the counts and the ratio that both versions of
  `calculate_match_ppda` share. They are parameterised by `Rules`: the two
  zone limits and the defensive-action classifier.
- `Ppda`: the rules of `ppda/calculate_ppda.py` (`Current()`), and the calculation as that
  file runs it: a loop over the two orientations.
- `LegacyPpda`: the rules of `calculate_ppda.py`. Its `calculate_match_ppda`
  is `MatchPpda(Legacy(), events)`, the map literal of the two orientations.
- `VersionAgreement`: the two versions compared.
- `GameStates`: `ppda/calculate_ppda.py`, `add_gamestate_to_match`.

With fewer than two distinct team ids (an empty or a single-team log), both
versions fail indexing `teams_in_match`: at the first team on an empty log,
at the second otherwise. The model returns `Failure(FewerThanTwoTeams)`.
Logs with more than two teams are not rejected; the first two teams are
used.

## Model

| member | source | states |
|---|---|---|
| `Tally.Count` | ppda/calculate_ppda.py:29 | `len` of a masked table: the number of rows that satisfy the mask. It is never more than the number of rows. |
| `Tally.Filter` | ppda/calculate_ppda.py:32-35 | A masked selection has the length of the mask's count, and each row it keeps satisfies the mask and comes from the table. |
| `Tally.FilterContents` | ppda/calculate_ppda.py:32-35 | The selection holds exactly the table's rows that satisfy the mask, each as often as in the table, and nothing else. |
| `Tally.FilterKeepsOrder` | ppda/calculate_ppda.py:32-35 | The selection keeps the table's order: selecting from a prefix of the table gives a prefix of the selection. |
| `Tally.CountOfFilter` | ppda/calculate_ppda.py:42-48 | Counting a second mask within a selection counts, over the whole table, the rows that satisfy both masks. |
| `Tally.Unique` | ppda/calculate_ppda.py:16 | `unique()` holds no repeated value and has exactly the values of the column. |
| `Tally.CountIsMatchingSize` | ppda/calculate_ppda.py:24-29 | The count is exactly the number of positions whose row satisfies the mask. |
| `Match.TeamIds` | ppda/calculate_ppda.py:16 | The `team_id` column: one entry per event, the event's team. |
| `Match.UniqueTeams` | ppda/calculate_ppda.py:16-17 | The distinct team ids have fewer than two entries exactly when every event has the first event's team. Otherwise entry 0 is the first event's team and entry 1 is the first other team to appear. |
| `Match.FirstTwoTeams` | ppda/calculate_ppda.py:16-17 | The two teams are the first event's team and the first different team in order of appearance. There is no pair exactly when the log has fewer than two distinct team ids (an empty or a single-team log), where the source fails indexing `teams_in_match`. |
| `Match.Ratio` | ppda/calculate_ppda.py:51-54 | Undefined exactly when the denominator is 0. Otherwise the value times the denominator is the numerator. |
| `PpdaCalculation.PassesAllowed` | ppda/calculate_ppda.py:24-29 | The numerator counts exactly the opponent's Pass or Free kick events that start before the build-up limit (`104*0.6` here, 62.4 in calculate_ppda.py:26-31). It is at most the opponent's event count. |
| `PpdaCalculation.DefensiveActions` | ppda/calculate_ppda.py:32-48 | The table is first restricted to the team's events beyond the pressing limit (`104*0.4` here, 41.6 in calculate_ppda.py:34-37), then classified. The result counts exactly the events that are both in that zone and a defensive action. It is at most the number of zone events. |
| `PpdaCalculation.TeamPpda` | ppda/calculate_ppda.py:51-54 | The team's value is undefined exactly when its denominator is 0, never 0 and never an error. Otherwise it is numerator / denominator. |
| `PpdaCalculation.MatchPpda` | ppda/calculate_ppda.py:16-21 | Fails exactly when the log has fewer than two distinct team ids (an empty or a single-team log), where the source fails indexing `teams_in_match`. Otherwise the keys are exactly the two distinct teams, and each is measured with the other as its opponent. |
| `PpdaCalculation.NewDefensiveActionAddsOne` | ppda/calculate_ppda.py:32-48 | Turn an unclassified zone event of a team into a classified one with the same team, type and position. The team's denominator rises by exactly one, and no numerator changes. |
| `PpdaCalculation.DefensiveActionDefinesPpda` | ppda/calculate_ppda.py:42-54 | One classified event in the team's pressing zone makes its denominator positive, so its value is defined. |
| `PpdaCalculation.SameRulesSameResult` | calculate_ppda.py:23-58 | Two versions with equal zone limits whose classifiers agree on every event of a log give the same result on that log. |
| `Ppda.IsDefensiveAction` | ppda/calculate_ppda.py:37-47 | The classifier is the OR of four tests: a foul-family sub-type (Foul, Hand foul, Late card foul, Violent foul), the "Interception" tag, a ground defending duel tagged "Won", or the "Sliding tackle" tag. Its contract states this as: a foul-family sub-type, or some tag that marks a defensive action for the event's sub-type, where "Won" counts only on a ground defending duel. |
| `Ppda.Current` | ppda/calculate_ppda.py:27-34 | This file's rules: the limits `104*0.6` and `104*0.4`, which equal 62.4 and 41.6, and this file's classifier. |
| `Ppda.CalculateMatchPpda` | ppda/calculate_ppda.py:16-59 | The loop over the two orientations fills the map with the same result as `MatchPpda` under this file's rules. |
| `Ppda.WonDecidesDuel` | ppda/calculate_ppda.py:38-47 | Take a ground defending duel with no interception or sliding-tackle tag. It is not a defensive action without "Won", and it becomes one when "Won" is added. |
| `Ppda.WonDuelAddsOneAction` | ppda/calculate_ppda.py:32-48 | Adding "Won" to such a duel in the team's pressing zone raises that team's denominator by exactly one. No numerator changes. |
| `Ppda.InterceptionIsCounted` | ppda/calculate_ppda.py:37-48 | An event tagged "Interception" in the team's pressing zone makes its denominator positive, so its value is defined. |
| `Ppda.FoulScenario` | ppda/calculate_ppda.py:5-59 | Take a team-1 pass at x=30 and a team-2 foul at x=70. Team 2's value is 1.0 and team 1's is undefined. |
| `LegacyPpda.IsDefensiveAction` | calculate_ppda.py:39-48 | The same four-way OR over the lower-case tags: a foul-family sub-type, or some tag that marks a defensive action for the sub-type ("interception", "sliding_tackle", and "won" only on a ground defending duel). |
| `LegacyPpda.Legacy` | calculate_ppda.py:29-36 | This file's rules: the literal limits 62.4 and 41.6, which equal `104*0.6` and `104*0.4`, and the lower-case classifier. |
| `LegacyPpda.WonDuelNeedsBoth` | calculate_ppda.py:39-48 | If no other test fires, an event is a defensive action exactly when it is a ground defending duel and is tagged "won". |
| `VersionAgreement.ClassifiersAgree` | calculate_ppda.py:39-47 | An event that carries each classifier tag in both spellings or in neither gets the same verdict from both versions. |
| `VersionAgreement.ClassifiersAgreeExactly` | calculate_ppda.py:39-48 | The two classifiers agree on an event exactly when its sub-type is foul-family, or when the capitalised and lower-case tag tests for its sub-type give the same answer (compare ppda/calculate_ppda.py:37-47). |
| `VersionAgreement.CapitalisedOnlyMissed` | calculate_ppda.py:39-48 | Take any event that is not a foul, is tagged "Interception", and has none of "interception", "won" and "sliding_tackle". The newer version counts it as a defensive action; the older one does not. |
| `VersionAgreement.MatchPpdaAgree` | calculate_ppda.py:5-60 | If every event's tags agree in both spellings, the two versions return the same result. This covers every log that never uses either spelling. |
| `VersionAgreement.CapitalisedInterceptionMissed` | calculate_ppda.py:39-48 | Take a team-1 pass and a team-2 event tagged only "Interception". The newer version gives team 2 the value 1.0; the older one leaves it undefined. |
| `GameStates.StateOf` | ppda/calculate_ppda.py:68-73 | `winning` iff my score > opponent's, `losing` iff <, `drawing` iff equal. |
| `GameStates.Apply` | ppda/calculate_ppda.py:75-94 | The three scoring tests run in order. Their combined effect adds one to exactly the side that the event scores for. The actor's side gets a goal from a shot or a free-kick shot with "Goal"; the other side gets an own goal. An event adds at most one goal. |
| `GameStates.ScoreAfter` | ppda/calculate_ppda.py:62-94 | The score after replaying the log from 0-0 never has more goals than events. |
| `GameStates.ScoreIsGoalCount` | ppda/calculate_ppda.py:66-94 | The replayed scores equal, for each side, the number of events that score for that side. |
| `GameStates.ScoreMonotone` | ppda/calculate_ppda.py:75-94 | Neither score decreases along the log. |
| `GameStates.ScoreAfterNext` | ppda/calculate_ppda.py:66-94 | Replaying one more event applies that event's effect to the score so far. |
| `GameStates.MirrorScore` | ppda/calculate_ppda.py:77-94 | In a match of two teams, the score seen by one team is the other's with the sides swapped, so their labels are opposite. |
| `GameStates.GoalFromLevelWins` | ppda/calculate_ppda.py:66-80 | A goal by the observed team at a level score is itself labelled drawing. The next event is labelled winning. |
| `GameStates.OwnGoalFromLevelLoses` | ppda/calculate_ppda.py:82-87 | An own goal by the observed team at a level score makes the next label losing. |
| `GameStates.AddGameState` | ppda/calculate_ppda.py:61-98 | One label per event, in order, and every event is unchanged. Label i is the state of the score over events 0..i-1, taken before event i's own goal. The first label is drawing. |

## Findings

| source | as written | input that shows it | evidently intended | confidence | as-written member | corrected member |
|---|---|---|---|---|---|---|
| calculate_ppda.py:39-41 | tags looked up as "interception", "won", "sliding_tackle" | a team-1 pass at x=30, then a team-2 event at x=50 tagged only "Interception" | the capitalised tags "Interception", "Won", "Sliding tackle", as in ppda/calculate_ppda.py:37-40 | medium, not executed | `VersionAgreement.CapitalisedInterceptionMissed` | `Ppda.InterceptionIsCounted` |

## Left out

- xT/utils.py is not part of this model. It holds plotting through external libraries, the left-to-right coordinate flip used for display, and time formatting.
- Table mechanics (`unique`, `iterrows`, `apply`, masks) are modelled as sequence functions. Loading and storing tables is left out.
- `add_gamestate_to_match` assigns the `game_state` column into the caller's table and returns that same table. `GameStates.AddGameState` returns a new sequence of labelled events instead, so aliasing of the caller's table is not modelled.
- NaN is modelled as `None`. IEEE float behaviour of the ratio is not modelled: division is exact over reals.
- `start_x` is an exact real, so a missing (NaN) coordinate is not modelled. In the source such an event fails both zone comparisons and is never counted.
- The zone limits are exact reals. Whether the floating-point values of `104*0.6` and `104*0.4` round to exactly 62.4 and 41.6 is not modelled.
- A Python `dict` keeps the first team's key first. The result here is a `map`, which has no key order.
- `tags` is a sequence queried only with `in`. Its order and repetitions play no role.
- Team ids are integers. The source accepts any value that `unique()` can compare.
- The unused `os` imports have no counterpart.
