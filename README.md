# brp-time: the rep countdown and its time display

A verified Dafny model of the two pieces of logic in the "burpee timer":

- **The formatter** (`utils/timeFormat.ts`, module `TimeFormat` in `time_format.dfy`).
  `parseSeconds` splits a millisecond count into whole seconds and a tenths digit.
  `formatTime` clamps both at zero and renders `"<seconds>.<tenths>"`.
  Both are pure functions here.
- **The timer controller** (`islands/TimerControl.tsx`, module `TimerControl` in `timer_control.dfy`).
  A 20-minute workout is cut into `reps` reps of `repLen = 1200000 / reps` ms.
  The state is four signals:
  - `currentRep`
  - `timeRemaining`
  - `isPaused`
  - `isStarted`

  The 100 ms interval callback and four button handlers update these signals in place.
  The module states the state machine on values:
  - `Step` is one tick.
  - `Start`, `Pause`, `Resume` and `Stop` are the handlers.
  - `Run` is a sequence of ticks.

  The class `Timer` keeps the four signals as fields. Its methods `Tick`, `HandleStart`, `HandlePause`, `HandleResume` and `HandleStop` are proved to perform exactly those transitions and to keep the bounds invariant `Inv`.

Milliseconds are exact `real`s. So a rep length that is not a whole number (for example, 7 reps) needs no rounding and no precondition. JavaScript's `%` (a remainder truncated toward zero, with the sign of the dividend) is modelled as `RemTen`, on the truncated quotient `Trunc`. The only remainder the source takes is `% 10`.

Facts about the countdown that follow from the order of the tests in the interval callback:
- **Each rep ends with one extra tick.** With 100 reps, 120 ticks bring the time to exactly 0, and the 121st tick rolls over to the next rep (`HundredReps`). So every rep lasts one tick longer than its countdown. A workout whose rep length is a multiple of 100 ms takes `reps * 100` ms more than 20 minutes (`WorkoutCompletes`).
- **Completion comes one tick late.** `currentRep` reaches `reps`, with a full rep of time on screen. Only the following tick clears `isStarted` (`WorkoutCompletes`, `CompletedStaysDone`).
- **A due rep rolls over even while paused.** Pausing stops the countdown, but the `timeRemaining <= 0` test comes before the pause test (`RolloverIgnoresPause`).

## Model

| member | source | states |
|---|---|---|
| `TimeFormat.Trunc` | utils/timeFormat.ts:3 | the truncated quotient behind `%`: an integer within 1 of its argument, on the side of zero |
| `TimeFormat.RemTen` | utils/timeFormat.ts:3 | `x % 10` differs from `x` by a whole multiple of 10, has the sign of `x`, and has magnitude below 10 |
| `TimeFormat.ParseSeconds` | utils/timeFormat.ts:1-6 | for `ms >= 0` the tenths are in 0..9 and the split truncates: `s*1000 + t*100 <= ms < s*1000 + t*100 + 100`; for `ms < 0` both parts are at most 0 (seconds negative) |
| `TimeFormat.ParseSecondsUnique` | utils/timeFormat.ts:1-6 | any `(s, t)` with `t` in 0..9 meeting those truncation bounds is the split `parseSeconds` returns, so the bounds characterise it |
| `TimeFormat.ParseSecondsDigits` | utils/timeFormat.ts:2-3 | for `ms >= 0` the seconds are `floor(ms/1000)` and the tenths are `floor(ms/100) mod 10` |
| `TimeFormat.ClampZero` | utils/timeFormat.ts:10 | `Math.max(n, 0)`: `n` itself, or 0 when `n` is negative |
| `TimeFormat.DecimalString` | utils/timeFormat.ts:10 | a non-negative integer renders as a non-empty string of decimal digits, with no leading zero, that reads back as the integer |
| `TimeFormat.FormatTime` | utils/timeFormat.ts:8-11 | the result is digits, `.`, one digit, with no minus sign and no leading zero in the seconds; a negative input gives `"0.0"`; for `ms >= 0` the display read as tenths of a second `d` satisfies `d*100 <= ms < d*100 + 100` |
| `TimeFormat.FormatTimeReadsBack` | utils/timeFormat.ts:8-11 | for `ms >= 0` the digits before the dot read as `floor(ms/1000)` and the digit after it is `floor(ms/100) mod 10` |
| `TimeFormat.FormatTimeExamples` | utils/timeFormat.ts:8-11 | `formatTime(0) = "0.0"`, `formatTime(20000) = "20.0"`, `formatTime(12000) = "12.0"`, `formatTime(-5) = "0.0"` |
| `TimerControl.RepLen` | islands/TimerControl.tsx:8 | the rep length is positive and `reps` reps of it make exactly 20 minutes |
| `TimerControl.TicksPerRep` | islands/TimerControl.tsx:12 | the number of 100 ms decrements that take a full rep to zero or below: `repLen/100` rounded up, at least 1 |
| `TimerControl.Initial` | islands/TimerControl.tsx:7-11 | the state at mount (rep 0, a full rep of time, neither flag set) lies within the bounds `0 <= currentRep <= reps`, `-100 < timeRemaining <= repLen` |
| `TimerControl.Step` | islands/TimerControl.tsx:24-36 | one firing of the interval callback never touches `isPaused`, never sets `isStarted`, raises `currentRep` by at most one and never lowers it, and keeps the bounds; its rules are in `StepRules` |
| `TimerControl.Start` | islands/TimerControl.tsx:41 | sets `isStarted` and leaves `isPaused`, the rep and the time as they were |
| `TimerControl.Pause` | islands/TimerControl.tsx:42 | sets `isPaused` and leaves `isStarted`, the rep and the time as they were |
| `TimerControl.Resume` | islands/TimerControl.tsx:43 | clears `isPaused` and leaves `isStarted`, the rep and the time as they were |
| `TimerControl.Stop` | islands/TimerControl.tsx:44-49 | from any state, gives the state at mount: rep 0, `repLen` remaining, not started, not paused |
| `TimerControl.Run` | islands/TimerControl.tsx:23-37 | successive firings of the callback: `n` ticks keep the bounds, never lower `currentRep` and raise it by at most `n` |
| `TimerControl.StepRules` | islands/TimerControl.tsx:24-36 | a tick with `currentRep >= reps` clears `isStarted` only; otherwise a due rep (`timeRemaining <= 0`) advances the rep by one and resets the time to `repLen`; otherwise a started, unpaused tick takes exactly 100 off the time; otherwise nothing changes |
| `TimerControl.RolloverIgnoresPause` | islands/TimerControl.tsx:29-33 | a due rep rolls over to the next one even while paused, with the same result as unpaused |
| `TimerControl.StepRepCount` | islands/TimerControl.tsx:29-31 | a tick raises `currentRep` by one exactly when it chimes, and otherwise leaves it alone |
| `TimerControl.HandlersKeepInv` | islands/TimerControl.tsx:41-49 | every handler keeps the bounds |
| `TimerControl.PausedRunFrozen` | islands/TimerControl.tsx:33-34 | while paused with time left in an unfinished rep, any number of ticks changes nothing |
| `TimerControl.PauseThenResume` | islands/TimerControl.tsx:33-34 | pausing, any number of ticks, then resuming gives back the running state exactly, so the countdown continues from the frozen value |
| `TimerControl.RunDecrements` | islands/TimerControl.tsx:33-34 | while running with time left, `j` ticks take exactly `j*100` off and change nothing else |
| `TimerControl.RepCycle` | islands/TimerControl.tsx:29-34 | from a fresh running rep the time stays positive for the first `k-1` ticks (`k = TicksPerRep`); tick `k` leaves it in `(-100, 0]` with the rep unchanged; tick `k+1` chimes into the next rep with a full rep of time |
| `TimerControl.RepCycleExact` | islands/TimerControl.tsx:8-34 | when `repLen = k*100`, `k` ticks reach exactly 0 and the next tick advances the rep |
| `TimerControl.HundredReps` | islands/TimerControl.tsx:8-34 | with 100 reps, `repLen = 12000`; 120 ticks after start give rep 0 with time 0; the 121st gives rep 1 with time 12000 |
| `TimerControl.RunWholeReps` | islands/TimerControl.tsx:24-34 | started from mount and never paused, `m` whole rep cycles end at the start of rep `m` |
| `TimerControl.WorkoutCompletes` | islands/TimerControl.tsx:24-34 | an unpaused workout reaches `currentRep = reps` after `reps` cycles, and the next tick clears `isStarted` without a stop; when `repLen` is a multiple of 100 it lasts 20 minutes plus 100 ms per rep |
| `TimerControl.CompletedStaysDone` | islands/TimerControl.tsx:24-27 | once all reps are done, ticks only clear `isStarted`, and starting again ends at the next tick with rep and time unchanged |
| `TimerControl.DueRepShowsZero` | islands/TimerControl.tsx:61 | while a rep is due, its time at or just below zero shows on screen as `"0.0"` |
| `TimerControl.Timer.constructor` | islands/TimerControl.tsx:7-11 | mounting with `reps >= 1` fixes `repLen = 1200000/reps` and gives the initial state, within the bounds |
| `TimerControl.Timer.Tick` | islands/TimerControl.tsx:23-37 | the interval callback updates the fields exactly as `Step` does, keeps the bounds, and reports a chime exactly on rollover |
| `TimerControl.Timer.HandleStart` | islands/TimerControl.tsx:41 | sets `isStarted` and nothing else |
| `TimerControl.Timer.HandlePause` | islands/TimerControl.tsx:42 | sets `isPaused` and nothing else |
| `TimerControl.Timer.HandleResume` | islands/TimerControl.tsx:43 | clears `isPaused` and nothing else |
| `TimerControl.Timer.HandleStop` | islands/TimerControl.tsx:44-49 | resets all four fields to their values at mount |

## Left out

- Scheduling (`setInterval`, `clearInterval`, the `useEffect` that re-subscribes on `isStarted`) is not modelled, because it is runtime plumbing. A tick is one atomic `Step`, and it may be applied in any state. The completion branch's `clearInterval` shows only as `isStarted` becoming false.
- Audio creation and playback are not modelled as side effects, because they call a browser API. A chime is reported as the `chime` result of `Timer.Tick`.
- JSX rendering and button selection are not modelled, because they are presentation only. Of the markup, only the `formatTime(timeRemaining)` display is modelled (`DueRepShowsZero`).
- IEEE double rounding is not modelled, because milliseconds are exact reals. A non-integral `repLen` minus repeated 100s may round in JavaScript where the model is exact.
- Rendering integers of 10^21 or more in exponent notation is not modelled: `DecimalString` always writes plain digits. No time this timer shows comes near that size.
- Rep counts that are not positive integers are not modelled: `reps` is an `int` of at least 1. The timer page reads `reps` with `Number(...)` from the query string, so 0, fractions and NaN can reach the component. The resulting `Infinity`/`NaN` arithmetic is outside the model.
- `islands/SetReps.tsx` is not modelled: it is a form whose only arithmetic repeats `repLen`. `routes/timer.tsx`, `routes/index.tsx` and `islands/BackButton.tsx` are page layout and navigation.
