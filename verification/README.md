# Hydration tracker: a Dafny model

A model of the core of a single-page hydration tracker. The page keeps a day's
total in litres, a goal, a day streak, a mood label and a newest-first log of
sips. It caches the whole record in the browser's local storage. The model
covers:

- **Rollover** (`rollover.dfy`): start-up from the cached record. A missing or
  unparsable record gives the built-in state. A record from today is used as
  it is. A record from another calendar day is reset, and its streak moves on
  or restarts. The record written back after every change is the state
  stamped with the time of writing.
- **Intake** (`intake.dfy`): what an accepted sip does. The total is rounded
  to whole centilitres the way `Math.round` rounds, and the log is prepended
  and capped at fifty entries.
- **App** (`app.dfy`): the page as an event-driven state machine. It has the
  single-flight logging guard and its 700 ms release (an event of its own),
  goal choices, bottle clicks, and the cache write that follows every change
  of state.
- **WaterBottle** (`water_bottle.dfy`): the fill percentage capped at 100, the
  height of the mascot card, the six mascot stages, and the hearts added on a
  click and removed when they expire.
- **Tips** (`tips.dfy`): the coaching line. Three progress messages come first,
  in priority order. Otherwise a line is drawn from an hour-dependent pool.

Litres, millilitres and percentages are Dafny `real`s, so arithmetic is exact.
The clock, the local calendar (`dayOf`), the hour and the random draw are
parameters. `types.dfy` holds the records.

Some behaviour of the code worth knowing before reading the model:

- On a change of calendar day with at most one whole day elapsed since the
  last write, the streak is incremented.
- A record without `lastUpdate` is read as last written at epoch 0. The reset
  rule still applies to it.
- `addWater` takes any amount. No check rejects non-positive amounts, so the
  model has none. The health invariant is stated for the non-negative amounts
  the controls produce.
- The log limit is 50 and the guard lasts 700 ms.

## Model

| member | source | states |
|---|---|---|
| `Rollover.Load` | App.tsx:19-50 | Loading a parsed record always keeps its goal and mood. If the write time changes, it becomes `now`. |
| `Rollover.LoadWithoutRecord` | App.tsx:45-49 | With no record or an unparsable one, the page starts at 0 L with a 2.0 L goal, streak 1, mood "Glowing!", an empty log and the write time `now`. |
| `Rollover.LoadSameDay` | App.tsx:26-44 | A record last written on today's calendar day is used exactly as read. |
| `Rollover.LoadNewDay` | App.tsx:29-42 | A record from another day gets total 0, an empty log and write time `now`, and keeps goal and mood. The streak goes up by one when less than 48 h passed since the last write (a missing write time counts as epoch 0). Otherwise it restarts at 1. |
| `Rollover.NextStreak` | App.tsx:33-34 | After a day change the streak is one more when at most one whole day elapsed and 1 from two days on. A streak of at least 1 stays at least 1. |
| `Rollover.Rollover` | App.tsx:29-42 | The daily reset empties the total and the log and restamps the record with `now`. The streak goes up by one when less than 48 h passed since the last write, and restarts at 1 otherwise. Goal and mood are kept. |
| `Rollover.DiffDays` | App.tsx:31 | The elapsed-day count is the whole number of 24-hour periods between the two instants, rounded down. |
| `Rollover.LoadIdempotent` | App.tsx:19-50 | Loading the result of a load again at the same instant changes nothing. |
| `Rollover.Persist` | App.tsx:59 | The written record has write time `now` and differs from the state in nothing else. |
| `Rollover.ReloadAfterPersist` | App.tsx:44-59 | A record written today reloads today as the same state, with only the write time changed. |
| `Rollover.NextCalendarDayContinuesStreak` | App.tsx:33-34 | With any fixed time-zone offset, returning on the next calendar day always continues the streak. |
| `Rollover.BlankDaysRestartStreak` | App.tsx:30-34 | With any fixed offset, returning after two or more blank calendar days restarts the streak at 1. |
| `Rollover.OneBlankDayCanContinueStreak` | App.tsx:31-34 | The streak counts 24-hour periods, not calendar days. Writing at 23:00 and returning at 01:00 two calendar days later still continues the streak. |
| `Intake.RoundHalfUp` | App.tsx:89 | Rounds to the integer nearest its argument, with halves going up. |
| `Intake.RoundCentilitres` | App.tsx:89 | The result is a whole number of centilitres within half a centilitre of the input. |
| `Intake.NewAmount` | App.tsx:89 | The new total is a whole number of centilitres within half a centilitre of the old total plus the sip. |
| `Intake.RoundingKeepsWholeCentilitres` | App.tsx:89 | Rounding leaves a whole number of centilitres unchanged. |
| `Intake.NewAmountNonNegative` | App.tsx:89 | A non-negative sip on a non-negative total leaves a non-negative total. |
| `Intake.NewAmountNeverDecreases` | App.tsx:89 | From a whole-centilitre total, a non-negative sip never lowers the total. |
| `Intake.OffGridTotalCanDrop` | App.tsx:89 | A cached total off the centilitre grid can drop: 0.123 L plus 0 ml gives 0.12 L. |
| `Intake.NoDriftForWholeCentilitres` | App.tsx:89 | A whole-centilitre sip on a whole-centilitre total is added exactly. |
| `Intake.DrinkAllIsExactSum` | App.tsx:88-95 | Any run of whole-centilitre sips gives exactly the starting total plus their sum. No rounding drift builds up. |
| `Intake.SevenCups` | App.tsx:89 | Seven 150 ml sips from 0 L make exactly 1.05 L. |
| `Intake.Take` | App.tsx:93 | `slice(0, n)` gives the first min(length, n) entries, as a prefix. |
| `Intake.LogSip` | App.tsx:93 | After a sip the log has min(old length + 1, 50) entries. The new sip comes first, then the old entries in their order. |
| `Intake.FullLogDropsOldest` | App.tsx:93 | On a log of 50, a new sip evicts exactly the oldest entry. |
| `Intake.LogAllKeepsNewest` | App.tsx:93 | After any run of sips, the log is the newest 50 of all sips so far, newest first. |
| `Intake.LogAllLength` | App.tsx:93 | After k sips the log has min(old length + k, 50) entries. |
| `Intake.Drink` | App.tsx:88-95 | An accepted sip changes only the total and the log. Goal, streak, mood and write time stay. |
| `App.Commit` | App.tsx:57-60 | Replacing the state writes it to the cache at once, stamped with `now`. Guard, splash and hearts are left alone. |
| `App.Boot` | App.tsx:19-60 | At start-up the page state is what loading the cached record gives. The guard is down, there are no hearts, and the cache holds the loaded state stamped with `now`. |
| `App.Step` | App.tsx:73-101 | The timeout lowers the guard and the splash and changes nothing else. No other event lowers a raised guard. A goal choice and every accepted sip write the new state to the cache stamped with the event's time. The timeout and a heart's expiry leave the state and the cache alone. No event changes the streak or the mood. |
| `App.TimeoutLowersGuard` | App.tsx:97-100 | The 700 ms timeout lowers the guard and the splash and changes nothing else. |
| `App.AddWater` | App.tsx:73-101 | While the guard is up, logging changes nothing. Otherwise it raises the guard and the splash, applies exactly that sip, and writes the new state to the cache stamped with `now`. |
| `App.GuardRejectsAdds` | App.tsx:74 | With the guard up, a log request leaves the whole page unchanged. |
| `App.AcceptedAddRaisesGuard` | App.tsx:76-95 | An accepted request raises the guard, applies exactly its sip and leaves the hearts alone. |
| `App.OnlyTimeoutLowersGuard` | App.tsx:97-100 | Only the timeout lowers the guard. |
| `App.DoubleSubmitLogsOnce` | App.tsx:73-101 | Two requests back to back with no timeout between them log exactly one sip, the first. |
| `App.PickGoalChangesOnlyGoal` | App.tsx:239-242 | A goal choice changes only the goal. |
| `App.BottleClickIsHeartPlusQuickAdd` | components/WaterBottle.tsx:35-42 | A click adds one heart after the others and makes exactly one 250 ml "Pure Sip" request. |
| `App.HeartExpiryTouchesOnlyHearts` | components/WaterBottle.tsx:40 | A heart's expiry changes only the hearts. |
| `App.BootIsDurable` | App.tsx:57-60 | After start-up the cache matches the in-memory state, up to the write time. |
| `App.StepKeepsDurable` | App.tsx:57-60 | Every event keeps the cache equal to the in-memory state, up to the write time. |
| `App.ReplayKeepsDurable` | App.tsx:57-60 | Any run of events keeps the cache equal to the in-memory state, up to the write time. |
| `App.ReopenSameDayRestores` | App.tsx:26-60 | Starting the page again from what it cached, on the day of the last write, restores the state the page last held, up to the write time. |
| `App.BootHealthy` | App.tsx:10-50 | Start-up from no record, or from a healthy one, is healthy: total ≥ 0, goal > 0, streak ≥ 1, log ≤ 50. Guard and splash are both down. |
| `App.StepKeepsHealthy` | App.tsx:73-101 | Every control event (non-negative sip, goal from the dialog, click, timeout, expiry) keeps the state healthy, with guard and splash raised and lowered together. |
| `App.ReplayKeepsHealthy` | App.tsx:73-101 | Any run of control events keeps the state healthy. |
| `App.StepKeepsStreak` | App.tsx:88-94 | No event changes the streak or the mood. |
| `App.NoRolloverMidSession` | App.tsx:19-50 | The daily reset happens only at start-up. Within a session the streak and the mood never change. |
| `App.TotalNeverDecreases` | App.tsx:89 | Within a session, a whole-centilitre total stays whole and never goes down. |
| `WaterBottle.TargetPercentage` | components/WaterBottle.tsx:14 | The fill is the minimum of the share of the goal and 100. It is never above 100, and not negative for a non-negative intake and positive goal. |
| `WaterBottle.FullExactlyAtGoal` | components/WaterBottle.tsx:14 | With a positive goal the fill is 100 exactly when the goal is met. |
| `WaterBottle.ConstrainedBottom` | components/WaterBottle.tsx:22 | For fills from 0 to 100 the card sits between 22% and 74%, at 22 when empty and at 74 when full. |
| `WaterBottle.BottomMonotone` | components/WaterBottle.tsx:22 | A fuller bottle never puts the card lower. |
| `WaterBottle.BottomStaysInGlass` | components/WaterBottle.tsx:14-22 | For a non-negative intake and positive goal, the card stays within 22-74%. |
| `WaterBottle.Evolution` | components/WaterBottle.tsx:24-31 | The stage shown lies in its band: below 20 Thirsty, then bands of 20 points each, 100 and up Queen. |
| `WaterBottle.EvolutionIsTheBand` | components/WaterBottle.tsx:24-31 | A stage is shown exactly when the percentage is in its band, so every percentage has exactly one stage. |
| `WaterBottle.EvolutionMonotone` | components/WaterBottle.tsx:24-31 | A higher percentage never shows an earlier stage. |
| `WaterBottle.QueenExactlyAtGoal` | components/WaterBottle.tsx:14-25 | With a positive goal the mascot is Queen exactly when the goal is met. |
| `WaterBottle.AddHeart` | components/WaterBottle.tsx:38-39 | A click appends exactly one heart and keeps the others in front, unchanged. |
| `WaterBottle.RemoveHeart` | components/WaterBottle.tsx:40 | Expiry keeps exactly the hearts with other ids. Afterwards no heart has the expired id. |
| `WaterBottle.RemoveAbsentHeart` | components/WaterBottle.tsx:40 | Expiring an id that no heart carries changes nothing. |
| `WaterBottle.RemoveOneHeart` | components/WaterBottle.tsx:40 | With distinct ids, expiry removes exactly the one heart with that id. The others keep their order. |
| `WaterBottle.AddThenExpire` | components/WaterBottle.tsx:38-40 | A heart added with a fresh id and then expired leaves the hearts as they were. |
| `Tips.Pool` | services/geminiService.ts:46-50 | The pool always starts with the 20 general lines. Before 11 it has the 3 morning lines after them (23 in all). After 19 it has the 3 evening lines (23). From 11 to 19 it has the 20 general lines only. |
| `Tips.Classify` | services/geminiService.ts:52-54 | Goal reached iff intake ≥ goal. Almost there iff 80% of the goal < intake < goal. Start the flow iff intake = 0 and the goal is positive. Otherwise, below the goal and at most 80% of it with a non-zero intake, a random line. |
| `Tips.PickIndex` | services/geminiService.ts:56 | For a draw in [0, 1), `floor(r * n)` is a valid index below n. |
| `Tips.HydrationTip` | services/geminiService.ts:42-58 | Every input with a draw in [0, 1) yields a line. If the goal is met, it is the goal-reached line, whatever the hour or draw. Strictly between 80% of the goal and the goal, it is the almost-there line. At zero intake with a positive goal, it is the start-the-flow line. In every other case it is a member of the hour's pool. |
| `Tips.ClassifyBands` | services/geminiService.ts:52-54 | With a positive goal: goal reached iff intake ≥ goal. Almost there iff 80% of the goal < intake < goal. Start the flow iff intake = 0. Otherwise a random line. |
| `Tips.EightyPercentIsNotAlmost` | services/geminiService.ts:53 | An intake of exactly 80% of the goal does not count as almost there. |
| `Tips.MessageIgnoresHourAndDraw` | services/geminiService.ts:46-54 | The progress messages do not depend on the hour or the draw. |
| `Tips.EveryPoolTipReachable` | services/geminiService.ts:46-57 | When no progress message applies, every line of the hour's pool can be drawn, the morning and evening lines included: draw i/n picks line i. |
| `Tips.EveryGeneralTipReachable` | services/geminiService.ts:47-57 | At every hour every general line can be drawn. |

## Left out

- Local storage and JSON are not modelled. The read is the `Saved` value: no record (including an empty string), an unparsable one, or a parsed `AppState`. The write is `Persist`. JSON that parses to something other than a state record (`null`, a number, a record missing fields other than `lastUpdate`, NaN values) is not modelled.
- `Date.now`, `toDateString`, `toLocaleTimeString`, `getHours` and `Math.random` are parameters. The start-up code reads the clock three times. The model uses one instant for all three, and also for the persist that follows at mount.
- Local calendar days are an uninterpreted `dayOf`. The streak lemmas about calendar days assume a fixed UTC offset, so daylight-saving changes are not covered.
- Sip ids and heart ids come from the clock. They are opaque given values. A heart's horizontal position comes from mouse geometry and is a given value too.
- Timers are events. The 700 ms guard release is `GuardTimeout` and the 800 ms heart expiry is `HeartExpired`.
- The tip's 300 ms delay, the 5-minute refresh and the tip shown on the page are not modelled. `HydrationTip` is the synchronous decision.
- React's batching is not modelled. Events are handled one at a time, each seeing the state left by the previous one. Two calls of `addWater` inside one handler, both reading the same stale guard value, are not modelled.
- Floating point is not modelled. Arithmetic on reals is exact, and `Math.round` is floor(x + 0.5). IEEE-754 drift and the rounding of halves that are not exact in binary are not modelled.
- Presentation is not modelled: JSX, CSS, the splash animation beyond its flag, `toFixed`, and the goal dialog's open/closed state. The eased percentage the bottle displays is not modelled either. The stage and card height are stated for the percentage once it has caught up with the target.
- components/Header.tsx is not part of this model. It is markup only.
- `WaterBottle.TargetPercentage`: requires a non-zero goal. With a zero goal JavaScript yields Infinity or NaN, which reals cannot express. The goal is only ever set from positive constants, though a cached record could hold 0.
