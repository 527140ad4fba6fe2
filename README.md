# Codebattle tournament and game views: view-model derivations

This project models the decision logic inside three front-end components of
Codebattle, a platform for programming contests: the team-tournament match
board, the tournament page header, and the end-of-game dialog. The components
turn a snapshot of the client store into what is displayed. That snapshot is
players, matches, the tournament's state and break flag, and the viewer's id.
The model keeps those derivations and drops the rendering.

- `team_matches.dfy` (module `TeamMatches`) covers the board. It computes each
  round's score for the two teams as a left fold, the same way the source's
  `reduce` does. It also covers the caption and row class of each match's
  link (a first-match-wins chain), the grouping of matches by round, and the
  order of the round list. That order is the reverse of JavaScript's default
  string sort, so rounds 1, 2, 9 and 10 are listed as "9", "2", "10", "1".
  Finally it covers the players listed under each team.
- `tournament_header.dfy` (module `TournamentHeader`) covers the header: the
  access icon and tooltip, the badge title and its colour flags, and which
  timer or sentence describes the state (with the timestamp and duration it
  counts from). It also covers who may moderate and which action buttons are
  offered.
- `animation_modal.dfy` (module `AnimationModal`) covers the dialog: whether it
  is rendered, its title, button and animation key, and the close handler.
- Supporting modules:
  - `sequences.dfy`: insertion sort, reverse, de-duplication, and the fact
    that a strictly descending list is determined by its elements.
  - `js_strings.dfy`: JavaScript's default string order and `String(n)`.
  - `tournament_states.dfy`: the abstract tournament states.
  - `wrappers.dfy`: `Option`, standing for `undefined`.

Every function is total and deterministic. Inputs that the components read
from the store are explicit parameters.

## Model

| member | source | states |
|---|---|---|
| `TeamMatches.ResultAt` | services/app/apps/codebattle/assets/js/widgets/pages/tournament/TeamMatches.jsx:19-21 | a seat's result is present exactly when the results list reaches that seat; past the end it is `undefined` |
| `TeamMatches.FirstRule` | services/app/apps/codebattle/assets/js/widgets/pages/tournament/TeamMatches.jsx:23 | line 23's condition (player 1 won or player 2 gave up); a missing seat never matches, so as a side fact it never holds for a match without results |
| `TeamMatches.SecondRule` | services/app/apps/codebattle/assets/js/widgets/pages/tournament/TeamMatches.jsx:26 | line 26's condition (player 2 won or player 1 gave up); a missing seat never matches, so as a side fact it never holds for a match without results |
| `TeamMatches.RulesOverlap` | services/app/apps/codebattle/assets/js/widgets/pages/tournament/TeamMatches.jsx:23-28 | both rules hold iff there are two results and both players won or both gave up; such a match gives the point to the first team |
| `TeamMatches.AddMatch` | services/app/apps/codebattle/assets/js/widgets/pages/tournament/TeamMatches.jsx:17-31 | the first rule gives the first team one point, even when the second rule also holds; otherwise the second rule gives the second team one point; otherwise the score is unchanged; so one match adds at most one point |
| `TeamMatches.CalcRoundResult` | services/app/apps/codebattle/assets/js/widgets/pages/tournament/TeamMatches.jsx:16-33 | the two scores of a round add up to at most the number of its matches |
| `TeamMatches.RoundResultCounts` | services/app/apps/codebattle/assets/js/widgets/pages/tournament/TeamMatches.jsx:16-33 | the fold equals an independent count: first team = matches meeting the first rule, second team = matches meeting the second rule but not the first; an empty round is 0 : 0 |
| `TeamMatches.RoundResultOrderIndependent` | services/app/apps/codebattle/assets/js/widgets/pages/tournament/TeamMatches.jsx:16-33 | any two orderings of the same matches give the same score |
| `TeamMatches.CountPermutation` | services/app/apps/codebattle/assets/js/widgets/pages/tournament/TeamMatches.jsx:16-33 | counting matches by a rule depends only on the multiset of matches |
| `TeamMatches.RoundResultStep` | services/app/apps/codebattle/assets/js/widgets/pages/tournament/TeamMatches.jsx:23-30 | a further match gives the first team a point whenever the first rule holds, even if the second also holds; it gives the second team a point only when the first rule fails; otherwise the score is unchanged |
| `TeamMatches.AllFirstWon` | services/app/apps/codebattle/assets/js/widgets/pages/tournament/TeamMatches.jsx:23-25 | if every first player won, the round is n : 0 |
| `TeamMatches.RoundResultExamples` | services/app/apps/codebattle/assets/js/widgets/pages/tournament/TeamMatches.jsx:19-30 | won/lost is 1 : 0; gave_up/lost is 0 : 1; gave_up/gave_up is 1 : 0; lost/lost and undefined/undefined are 0 : 0 |
| `TeamMatches.GetLinkParams` | services/app/apps/codebattle/assets/js/widgets/pages/tournament/TeamMatches.jsx:35-52 | for each output value, the exact condition: "Wait" iff participant of a waiting match; "Join" iff participant of a playing match; "Show" otherwise. `bg-warning` iff participant of a waiting or playing match, or winner; `x-bg-gray` iff non-winning participant of a match that is neither waiting nor playing; empty class iff neither participant nor winner |
| `TeamMatches.LinkIgnoresWinnerForActiveParticipant` | services/app/apps/codebattle/assets/js/widgets/pages/tournament/TeamMatches.jsx:41-44 | for a participant of a waiting or playing match, the link is the same whatever `winnerId` is, and the row is highlighted |
| `TeamMatches.RoundKey` | services/app/apps/codebattle/assets/js/widgets/pages/tournament/TeamMatches.jsx:58 | a match's group key is a non-empty string of decimal digits |
| `TeamMatches.GroupByRound` | services/app/apps/codebattle/assets/js/widgets/pages/tournament/TeamMatches.jsx:57-60 | the groups are keyed by exactly the round keys that occur, and no group is empty |
| `TeamMatches.InRoundMembers` | services/app/apps/codebattle/assets/js/widgets/pages/tournament/TeamMatches.jsx:57-60 | a round's list holds every match of that round key as often as the input does, and no other match |
| `TeamMatches.GroupByRoundSpec` | services/app/apps/codebattle/assets/js/widgets/pages/tournament/TeamMatches.jsx:57-60 | there is a group for exactly the round keys that occur; each group is non-empty and is the round's matches in their original relative order |
| `TeamMatches.MatchInItsRoundOnly` | services/app/apps/codebattle/assets/js/widgets/pages/tournament/TeamMatches.jsx:57-60 | a match lies in the group of round r iff its round number is r |
| `JsStrings.DecimalStringInjective` | services/app/apps/codebattle/assets/js/widgets/pages/tournament/TeamMatches.jsx:58 | distinct round numbers have distinct object keys |
| `JsStrings.DecimalString` | services/app/apps/codebattle/assets/js/widgets/pages/tournament/TeamMatches.jsx:58 | a round key is a non-empty string of decimal digits, one digit exactly for rounds below 10 |
| `JsStrings.DecimalStringValue` | services/app/apps/codebattle/assets/js/widgets/pages/tournament/TeamMatches.jsx:58 | the key spells the round number: read back as a decimal numeral (`DecimalValue`) it gives the number, and from round 10 on it has no leading zero |
| `TeamMatches.RoundKeys` | services/app/apps/codebattle/assets/js/widgets/pages/tournament/TeamMatches.jsx:63 | one key per match, in the matches' order (the i-th key is the i-th match's key), so the keys listed are exactly the round keys of the matches |
| `JsStrings.LexLessIsStrictTotalOrder` | services/app/apps/codebattle/assets/js/widgets/pages/tournament/TeamMatches.jsx:63 | JavaScript's default string comparison is a strict total order |
| `Sequences.Dedup` | services/app/apps/codebattle/assets/js/widgets/pages/tournament/TeamMatches.jsx:63 | `Object.keys` names each group once: the result has no repeats and the same elements |
| `Sequences.Sort` | services/app/apps/codebattle/assets/js/widgets/pages/tournament/TeamMatches.jsx:63 | `.sort()` keeps the elements with their multiplicities |
| `Sequences.SortAscending` | services/app/apps/codebattle/assets/js/widgets/pages/tournament/TeamMatches.jsx:63 | under a strict total order, `.sort()` yields an ascending list |
| `Sequences.Reverse` | services/app/apps/codebattle/assets/js/widgets/pages/tournament/TeamMatches.jsx:63 | lodash `reverse` puts the i-th element last-but-i and keeps the elements |
| `Sequences.ReverseAscending` | services/app/apps/codebattle/assets/js/widgets/pages/tournament/TeamMatches.jsx:63 | reversing an ascending list gives a descending one |
| `Sequences.SortDescendingSpec` | services/app/apps/codebattle/assets/js/widgets/pages/tournament/TeamMatches.jsx:63 | sort-then-reverse of a key list is strictly descending, has no repeats and has the same elements |
| `Sequences.DescendingUnique` | services/app/apps/codebattle/assets/js/widgets/pages/tournament/TeamMatches.jsx:63 | two strictly descending lists with the same elements are equal |
| `TeamMatches.Rounds` | services/app/apps/codebattle/assets/js/widgets/pages/tournament/TeamMatches.jsx:62-65 | the round list names every group exactly once, in strictly descending string order |
| `TeamMatches.RoundsUnique` | services/app/apps/codebattle/assets/js/widgets/pages/tournament/TeamMatches.jsx:62-65 | any strictly descending listing of the group keys is the round list |
| `TeamMatches.RoundsAreLexicographic` | services/app/apps/codebattle/assets/js/widgets/pages/tournament/TeamMatches.jsx:63 | rounds 1, 10, 2, 9 are listed "9", "2", "10", "1" |
| `TeamMatches.RoundsNumeric` | services/app/apps/codebattle/assets/js/widgets/pages/tournament/TeamMatches.jsx:62-65 | corrected order: a round number is listed iff some match is of that round, each once, from the highest number down |
| `TeamMatches.FourRounds` | services/app/apps/codebattle/assets/js/widgets/pages/tournament/TeamMatches.jsx:62-65 | matches of rounds 1, 10, 2 and 9 contain exactly those four round numbers |
| `TeamMatches.RoundsNumericExample` | services/app/apps/codebattle/assets/js/widgets/pages/tournament/TeamMatches.jsx:62-65 | corrected order for rounds 1, 10, 2, 9 is 10, 9, 2, 1 |
| `TeamMatches.TeamPlayers` | services/app/apps/codebattle/assets/js/widgets/pages/tournament/TeamMatches.jsx:104 | a team column receives exactly the players whose team id is the team's, unchanged |
| `TeamMatches.TeamColumnView` | services/app/apps/codebattle/assets/js/widgets/pages/tournament/TeamMatches.jsx:95-107 | the column lists exactly the team's players (`TeamPlayers`); the viewer is marked iff they are a player of this team; the join button is shown iff the tournament waits for participants; kicking is allowed iff the viewer is an admin and it waits |
| `TeamMatches.TeamColumnsPartition` | services/app/apps/codebattle/assets/js/widgets/pages/tournament/TeamMatches.jsx:91-111 | two teams never share a player; the viewer is marked in at most one column, and in a column iff listed there; if every player belongs to one of the teams, the columns together list all players |
| `TournamentHeader.IconByAccessType` | services/app/apps/codebattle/assets/js/widgets/pages/tournament/TournamentHeader.jsx:19 | `lock` iff the access type is `token`, `unlock` otherwise |
| `TournamentHeader.AccessTitle` | services/app/apps/codebattle/assets/js/widgets/pages/tournament/TournamentHeader.jsx:179-183 | "Private tournament" iff the access type is `token`, "Public tournament" otherwise |
| `TournamentHeader.AccessIconAgreesWithTitle` | services/app/apps/codebattle/assets/js/widgets/pages/tournament/TournamentHeader.jsx:179-186 | the lock icon and the private tooltip always appear together |
| `TournamentHeader.BadgeTitle` | services/app/apps/codebattle/assets/js/widgets/pages/tournament/TournamentHeader.jsx:21-36 | each title, both directions: "Active" iff active with break off; "Round break" iff active with any other break value; the three fixed titles iff their states; "Loading" iff any other state |
| `TournamentHeader.DescriptionByState` | services/app/apps/codebattle/assets/js/widgets/pages/tournament/TournamentHeader.jsx:38-47 | non-empty iff cancelled or finished, with the fixed sentences |
| `TournamentHeader.DescribeState` | services/app/apps/codebattle/assets/js/widgets/pages/tournament/TournamentHeader.jsx:76-117 | start timer iff waiting, given `startsAt` and the online flag; a countdown iff active with break on or off. Break off counts from (`lastRoundStartedAt`, `matchTimeoutSeconds`); break on counts from (`lastRoundEndedAt`, `breakDurationSeconds`). Otherwise the state's sentence |
| `TournamentHeader.DescriptionAgreesWithBadge` | services/app/apps/codebattle/assets/js/widgets/pages/tournament/TournamentHeader.jsx:279-293 | the badge and the line beside it agree (start timer with "Waiting Participants", round countdown iff "Active", a sentence iff cancelled or finished). The one exception: active with an unset break flag shows "Round break" beside an empty line |
| `TournamentHeader.StartTimerText` | services/app/apps/codebattle/assets/js/widgets/pages/tournament/TournamentHeader.jsx:49-64 | nothing offline; otherwise the time left while positive, then "will start soon" |
| `TournamentHeader.RemainingTimerText` | services/app/apps/codebattle/assets/js/widgets/pages/tournament/TournamentHeader.jsx:66-74 | the time left while positive, then the empty string |
| `TournamentHeader.CanModerate` | services/app/apps/codebattle/assets/js/widgets/pages/tournament/TournamentHeader.jsx:143-146 | holds iff the viewer created the tournament or is an admin |
| `TournamentHeader.CanStart` | services/app/apps/codebattle/assets/js/widgets/pages/tournament/TournamentHeader.jsx:219-222 | starting is offered iff the tournament waits for participants and has at least one player |
| `TournamentHeader.CanRestart` | services/app/apps/codebattle/assets/js/widgets/pages/tournament/TournamentHeader.jsx:223-227 | restart iff active, finished or cancelled |
| `TournamentHeader.StartRestartExclusive` | services/app/apps/codebattle/assets/js/widgets/pages/tournament/TournamentHeader.jsx:219-227 | start and restart are never both offered; an unloaded tournament offers neither; a waiting one can start iff it has players |
| `TournamentHeader.StateBadgeClasses` | services/app/apps/codebattle/assets/js/widgets/pages/tournament/TournamentHeader.jsx:151-157 | warning iff waiting; success iff break off or finished; light iff cancelled; danger iff break on |
| `TournamentHeader.BadgeColours` | services/app/apps/codebattle/assets/js/widgets/pages/tournament/TournamentHeader.jsx:151-157 | at most one colour iff the break flag is unset, or the state is active or unknown, or finished with break off; no colour iff the flag is unset and the state is active or unknown |
| `TournamentHeader.ActiveBadgeColour` | services/app/apps/codebattle/assets/js/widgets/pages/tournament/TournamentHeader.jsx:147-157 | in an active tournament the badge is green iff titled "Active", and red only for "Round break" |
| `TournamentHeader.Actions` | services/app/apps/codebattle/assets/js/widgets/pages/tournament/TournamentHeader.jsx:204-274 | return link iff over; join button iff not over and not a team tournament, shown outside active rounds, marking whether the viewer joined, disabled offline; control buttons iff not over and the viewer may moderate, offering start exactly as `CanStart` and restart exactly as `CanRestart`, disabled offline; token panel iff the viewer may moderate and access is by token |
| `TournamentHeader.ActionsConsistent` | services/app/apps/codebattle/assets/js/widgets/pages/tournament/TournamentHeader.jsx:204-231 | when over, neither the join button nor the controls are offered; a moderator of a token tournament still gets the token panel, and no one else does. The join button is shown outside active rounds, knows whether the viewer joined, and is disabled offline. The controls never offer start and restart together |
| `AnimationModal.ModalFor` | services/app/apps/codebattle/assets/js/widgets/pages/game/AnimationModal.jsx:17-50 | rendered iff the viewer is a player whose result is not the string "undefined"; the champion title and "Thanks" iff the result is "won", otherwise the losing title and "I'll be back"; the animation is keyed by the result; open iff the flag is set |
| `AnimationModal.TitleMatchesButton` | services/app/apps/codebattle/assets/js/widgets/pages/game/AnimationModal.jsx:21-24 | the title and button only ever pair champion/"Thanks" or lost/"I'll be back" |
| `AnimationModal.OnlyOwnEntryMatters` | services/app/apps/codebattle/assets/js/widgets/pages/game/AnimationModal.jsx:17-20 | changing another player's entry does not change the dialog |
| `AnimationModal.CloseModal` | services/app/apps/codebattle/assets/js/widgets/pages/game/AnimationModal.jsx:25-27 | closing clears the visibility flag and leaves the rest of the host's state as it was |
| `AnimationModal.CloseHidesOnly` | services/app/apps/codebattle/assets/js/widgets/pages/game/AnimationModal.jsx:25-30 | after closing, the same dialog is rendered, hidden, with unchanged title, button and animation; closing twice is closing once |

`JsStrings.LexLess`, the default string comparison of `.sort()`, has no
contract of its own; the `JsStrings.LexLessIsStrictTotalOrder`,
`TeamMatches.Rounds` and `TeamMatches.RoundsAreLexicographic` rows state
what it is and what it does to the round list.

## Left out

- Rendering: JSX structure, layout classes, FontAwesome icons, the
  react-bootstrap `Modal` and `Button`, and `UserInfo`. The game link
  `/games/<id>`, the live/offline indicator and the players-limit caption are
  also left out. They are presentation only.
- The redux store and selectors (`useSelector`). Players, matches, the viewer's
  id and the admin flag are parameters instead.
- `kickFromTournament` and `handleKick` (TeamMatches.jsx lines 69-74). They are
  a network side effect in middleware that is not part of this model.
- `useTimer` and `moment`. Wall-clock time and a date library that is not part
  of this model. `StartTimerText` and `RemainingTimerText` take the hook's
  outputs (seconds left, formatted time) as parameters, and the end time of a
  countdown is represented by the (timestamp, seconds) pair it is computed
  from.
- `console.log` calls, `memo`, `useMemo` and `useCallback`. They have no
  effect on what is derived.
- The `TournamentStates` configuration and the `gifs` table are not part of
  this model. States are an abstract enum; `Unknown` is any other value. The
  animation is identified by its key, the result string.
- Object key enumeration order. The matches are given as a list in the order
  `Object.values` yields them. `RoundKeys` is one key per match, in that
  order and with repeats; `SortDescending` removes the repeats before
  sorting, and after sorting neither the order nor the repeats matter.
- `JsStrings.LexLess` compares Unicode code points, while JavaScript compares
  UTF-16 code units. The two differ only for characters outside the Basic
  Multilingual Plane; round keys are decimal digits.
- `JsStrings.DecimalString` is `String(n)` only for round numbers below
  10^21; from there on JavaScript switches to exponent notation, which is not
  modelled.
- Loose JavaScript values are not modelled. Round numbers are non-negative
  integers; the viewer always has an id (no guest `undefined`); a player's
  `result` field is always a string, so a missing field is not modelled; a
  match's `playerResults` and `playerIds` are always lists.
- Match states other than `waiting` and `playing` are one value, `Over`
  ("neither waiting nor playing"), because the link derivation does not
  distinguish them.
- Fields that no derivation reads are not modelled: a match's `gameId`, used
  only in the game link, and a team's `title` and `score`, which are only
  displayed.
- The round order is modelled as the code computes it (string order), not
  numerically; the numeric order appears only as the corrected definition
  under Findings.

## Findings

| source | as written | input that shows it | evidently intended | confidence | as-written member | corrected member |
|---|---|---|---|---|---|---|
| services/app/apps/codebattle/assets/js/widgets/pages/tournament/TeamMatches.jsx:63 | rounds are listed by `reverse(Object.keys(groups).sort())`, which compares round keys as strings | matches of rounds 1, 10, 2 and 9 are listed as "9", "2", "10", "1", so round 10 appears between rounds 2 and 1 | most recent round first: 10, 9, 2, 1 | medium; not executed | `TeamMatches.RoundsAreLexicographic` | `TeamMatches.RoundsNumeric` |
