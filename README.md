# Who's Champ: the "Add game" form

This project models the submit-and-validate logic of the `Add` form component
of the Who's Champ leaderboard UI (`react-ui/src/components/Add.tsx`). The form
collects a game, one or more regions, one winning player, a date and a score.
"Add Game" checks the selection. It then either marks the offending fields or
builds a `Result` record, creates the records for names the user typed, calls
the `newRegion`, `newPlayer` and `newGame` props in a fixed order and navigates
to `/`.

Layout:

- `wrappers.dfy` (`Wrappers`): `Option`, used for `null` and for an invalid `Date`.
- `types.dfy` (`Types`): the `Region`, `Player`, `Game` and `Result` records the form handles.
- `actions.dfy` (`Actions`): `IdSource`, a counter standing for `generateID`.
- `add_logic.dfy` (`AddLogic`): the form's state as a value, and the functions that define what one submission does.
  `Submit` is the whole of `newGame`. `ConvertRegions` and `ConvertWinner` build the result's regions and winner.
  `ValidDate` is the date check. `Flagged` sets the rejection marks.
  The lemmas here state what a submission promises.
- `add.dfy` (`AddComponent`): the component as a class. Its fields are those of `State`.
  Its methods are the change handlers and `newGame`, written imperatively and proved against `AddLogic`.
  The callback props and `history.push` are recorded, in call order, in the field `emitted`.

Modelling choices:

- A `Date` is an `Option<int>` timestamp; `None` stands for an invalid date (`NaN`).
- The clock (`new Date()`) is the parameter `now`.
- `props.location` is read when `newGame` runs, so it is a parameter of `NewGame`, not a field fixed at construction.
  The parent may pass a new location at any time.
- `setState` is taken as applied at once, in program order.
- A typeahead selection is an entry holding the record and its `customOption` flag.
- `generateID` is modelled as a consecutive counter, `IdSource`. It is created outside the form and shared with it.
  Distinctness is the property the form needs from it.
  The ordering and range facts proved about generated ids only record the order of the `generateID` calls.
  They are not claims about the real ids, which may be strings.
- The class invariant `Valid()` holds in every reachable state. It says two things:
  the date is always a valid one, and `gameValid` is never `'error'`.

The code as written differs from the evident intent in one place (see Findings).
The class follows the code: a wrong game count marks the winner field, not the game field.
Whether a submission is accepted, and what it builds and emits, does not depend on the marks.
So every property of acceptance holds under either rule.

## Model

| member | source | states |
|---|---|---|
| `AddComponent.Add.constructor` | react-ui/src/components/Add.tsx:41-54 | The form starts with no regions, winner or game, with the current time as its date and score 0, has no field marked, and has emitted nothing. |
| `AddComponent.Add.RegionChange` | react-ui/src/components/Add.tsx:121 | Replaces only the region list and clears only its mark; emits nothing. |
| `AddComponent.Add.WinnerChange` | react-ui/src/components/Add.tsx:122 | Replaces only the winner list and clears only its mark; emits nothing. |
| `AddComponent.Add.GameChange` | react-ui/src/components/Add.tsx:123 | Replaces only the game list and clears only its mark; emits nothing. |
| `AddComponent.Add.ScoreChange` | react-ui/src/components/Add.tsx:124-125 | Replaces only the score. |
| `AddComponent.Add.DateChange` | react-ui/src/components/Add.tsx:126-131 | Takes the parsed date when it is valid; an invalid one leaves the whole state unchanged. The date therefore stays valid. |
| `AddComponent.Add.NewGame` | react-ui/src/components/Add.tsx:61-119 | Runs with the current clock reading and the current `props.location`. Rejection sets exactly the marks of `Submit`, emits nothing and generates no identifier. Acceptance leaves the state unchanged, appends exactly `Submit`'s events to the log and consumes the identifiers it generated. `gameValid` stays unmarked. |
| `AddComponent.Add.MapRegions` | react-ui/src/components/Add.tsx:85-96 | The loop over the selected regions builds the same list and the same `newRegion` calls as `ConvertRegions`, and uses one identifier per custom entry. |
| `Actions.IdSource.Generate` | react-ui/src/components/Add.tsx:83 | As a consecutive counter, each call returns the next value, so no value is returned twice. |
| `AddLogic.ValidDate` | react-ui/src/components/Add.tsx:56-59 | The date check says `'error'` exactly when the date is invalid or later than now. |
| `AddLogic.Accepts` | react-ui/src/components/Add.tsx:64-81 | The four checks pass exactly when the date is valid and not after now, at least one region is selected, and exactly one winner and exactly one game are selected. |
| `AddLogic.Flagged` | react-ui/src/components/Add.tsx:66-79 | As written: `regionValid` ends up marked exactly when no region is selected or it was already marked. `winnerValid` ends up marked exactly when the winner count or the game count is wrong, or it was already marked. `gameValid` and every other field are unchanged. |
| `AddLogic.IntendedFlagged` | react-ui/src/components/Add.tsx:66-79 | The corrected rule touches only the three marks. |
| `AddLogic.Submit` | react-ui/src/components/Add.tsx:61-119 | The whole of `newGame` as a value. It accepts exactly when `Accepts` holds. A rejection carries the state with the `Flagged` marks. An acceptance uses at least one identifier and ends with one `newGame` call with the result, followed by `push('/')`. |
| `AddLogic.SubmitRejects` | react-ui/src/components/Add.tsx:61-81 | A submission is rejected exactly when one check fails: the date is invalid or in the future, no region is selected, the winner count is not 1, or the game count is not 1. |
| `AddLogic.RejectionFlags` | react-ui/src/components/Add.tsx:66-79 | On rejection, no region marks `regionValid`. A wrong winner count or a wrong game count marks `winnerValid`. `gameValid` is never marked. A bad date alone marks nothing. All other fields keep their values. |
| `AddLogic.InitialRejected` | react-ui/src/components/Add.tsx:44-74 | Submitting a fresh form is rejected and marks the region and winner fields. |
| `AddLogic.GameCountMarksWinner` | react-ui/src/components/Add.tsx:76-78 | A concrete input where a missing game marks the winner field instead of the game field. |
| `AddLogic.IntendedFlagsOwnField` | react-ui/src/components/Add.tsx:66-79 | Under the corrected rule each field ends up marked exactly when its own check fails or it was already marked. It agrees with the code on the region field and differs only in the winner and game marks. |
| `AddLogic.SubmitIgnoresMarks` | react-ui/src/components/Add.tsx:61-119 | The marks play no part in the verdict or in what an accepted submission builds and emits. |
| `AddLogic.ConvertRegions` | react-ui/src/components/Add.tsx:85-96 | The converted list has the selection's length. One identifier and one `newRegion` call are used per custom entry. |
| `AddLogic.ExpectedRegion` | react-ui/src/components/Add.tsx:85-96 | The reference for the k-th result region always keeps the entry's name. For a custom entry it is placed at `location` and its id is taken from the generator's unused range. |
| `AddLogic.ConvertWinner` | react-ui/src/components/Add.tsx:108-115 | A custom winner becomes a new player with the typed name, `location` and the next id, and produces exactly one `newPlayer` call with that player. Any other winner is `winner[0]` itself, with no call and no id used. |
| `AddLogic.ConvertRegionsCorrect` | react-ui/src/components/Add.tsx:85-96 | Each converted region is the `ExpectedRegion` reference at the same index. A non-custom entry passes through. A custom entry becomes a new region with the typed name, `props.location` and a generated id. The events are `newRegion` calls only, one per custom entry, in list order, each with that entry's new region. |
| `AddLogic.RegionIdsFresh` | react-ui/src/components/Add.tsx:85-96 | The custom regions' ids are drawn from the generator's unused range and increase along the list, so they are pairwise distinct. |
| `AddLogic.AcceptedResult` | react-ui/src/components/Add.tsx:83-115 | On acceptance the result has: the first generated id; `game[0]`; the state's date and score; the props' location; regions as `ExpectedRegion`; and as winner either `winner[0]` or, for a custom winner, a new player with the typed name, `props.location` and the next generated id. |
| `AddLogic.AcceptedEvents` | react-ui/src/components/Add.tsx:83-118 | On acceptance the events are: all `newRegion` calls in list order; then one `newPlayer` call with the result's winner, only when the winner is custom; then exactly one `newGame` call with the result; then `push('/')`. |
| `AddLogic.AcceptedIdsFresh` | react-ui/src/components/Add.tsx:83-115 | On acceptance every generated id is fresh and distinct. The result's id is first, the custom regions' ids follow in increasing order, and a custom winner's id is last. One id is consumed per record created. |
| `AddLogic.CustomCountMonotone` | react-ui/src/components/Add.tsx:85-96 | Counting custom entries along the selection never decreases, and it steps past each custom entry. This is what orders the generated ids. |

## Findings

| source | as written | input that shows it | evidently intended | confidence | as-written member | corrected member |
|---|---|---|---|---|---|---|
| react-ui/src/components/Add.tsx:76-78 | a game count other than 1 sets `winnerValid: 'error'` | a valid date, one region, one winner and no game: `winnerValid` becomes `'error'` and `gameValid` stays `null` | the game check sets `gameValid: 'error'`, which the `GameSelect` shows | high; not executed | `AddLogic.GameCountMarksWinner` (rule `AddLogic.Flagged`, used by `AddComponent.Add.NewGame`) | `AddLogic.IntendedFlagsOwnField` (rule `AddLogic.IntendedFlagged`) |

The class keeps the rule as written because it models what the component does.
Its invariant `Valid()` proves the consequence: in no reachable state is `gameValid` `'error'`.
Under the corrected rule, the verdict and every emitted event would stay the same,
because `Submit` never reads the marks (`AddLogic.SubmitIgnoresMarks`).

## Left out

- `Login.tsx` and `CompactList.tsx`: they only render. One is a static modal whose button forwards to an external `login` callback; the other is a table built by mapping over results.
- `render`, the JSX and the `withRouter` wrapper that supplies `history` (Add.tsx:133-183): framework glue. `history.push` is the `HistoryPush` event.
- `PlayerSelect`, `RegionSelect` and `GameSelect`: external typeahead containers. Their output is the argument of the change handlers.
- `DateUtil.fromInput`, `toInput` and `short`: their source is not part of this model. `AddComponent.Add.DateChange` takes the already parsed date.
- `generateID` in `src/actions` is not part of this model. It is modelled as a consecutive counter. The form needs only distinctness from it; the order and range facts about ids describe the order of the calls, not the real id values.
- `AddComponent.Add.ScoreChange`: takes an integer. `parseInt`'s `NaN` for non-numeric input is host-library number behaviour and is not modelled.
- Real `Date` and clock semantics: dates are integer timestamps. The current time is the parameter `now` of `NewGame` and of the constructor.
- Props other than `location` are not state: the callbacks are the event log, and `location` is passed to each `NewGame` call.
- React's asynchronous, batched `setState`: each update is applied immediately, in program order.
- The optional `id` field of `State`: `Add` never reads or writes it.
- Object identity: JavaScript objects passed to the callbacks are shared references. Here they are values, so aliasing between the result and the selection is not captured.
- `Coordinates` carry only latitude and longitude. The location is never inspected, only passed through.
