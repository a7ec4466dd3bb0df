# Tea timer: the countdown core, in Dafny

This project models the logic at the heart of a browser tea-steeping timer and proves properties of that model. The repository holds several variants of the same countdown state machine:

- **The deadline worker** (`workers/timer-worker.js`). A background worker handles `start`, `pause`, `reset`, `addTime` and `stop`. On every 1-second tick it recomputes the seconds left from an absolute deadline, and it posts `finished` when they reach 0.
- **The counter worker** (`timer-worker.js`). A smaller worker decrements a closure counter on each tick, with no clamping. Its interval callback clears the global `timer` when the counter runs out; `CounterWorker.FireStepAsWritten` is that callback, and `CounterWorker.FireStep` is the one clearing its own interval.
- **`TimerManager`**. The page-side proxy of the deadline worker. It tracks `isRunning` and `initialDuration`, posts one command per call, and turns replies into events.
- **`EventEmitter`**. The publish/subscribe registry the managers use.
- **`UIManager`**. Covers the minutes/seconds input fields:
  - digit filtering, clamping and padding;
  - the write-back of the time left;
  - the `isEditing` flag;
  - the button states.
- **The single-page timer** (`script.js`). Tracks an end time, updates on animation frames, rings once, beeps at the 10-second mark, and filters the tea list.
- **The counter-worker page** (`app.js`). Shows each `timeLeft` it receives and reacts to `finished`.

## How the model is built

Each stateful source file becomes a class whose fields are the file's variables. Each of its methods is tied by its postcondition to a pure step function on a state datatype: the state before, the state after, and what was posted. The properties are lemmas about those step functions and about runs over a sequence of events.

Time and the browser are represented as follows:

- `Date.now()` is a parameter `now`, in whole milliseconds.
- An interval is an `armed` flag, or one counter per created interval, and each firing is an explicit `Tick`/`Fire` call.
- `postMessage` appends to an outbox.
- The wake-lock grant and the notification permission are boolean parameters.

JavaScript's number operations are written out:

- `Math.round(ms / 1000)` on whole milliseconds is `(ms + 500) / 1000`.
- `Math.floor(t / 60)` is Dafny's `/` for a positive divisor.
- `%` is the truncating `JsRem`.
- `String(n)`, `padStart(2, '0')` and `parseInt` are defined in `Text`.
- `parseInt` covers JavaScript white space, the sign, and NaN as `None`.

In `script.js`, `remainingTime` is kept as whole milliseconds `remainingMs`. Its `=== 0` test is therefore `now >= timerEndTime`, and the beep window `9.9 < r <= 10` is `9900 < remainingMs <= 10000`.

### Behaviour worth knowing

The code is modelled as written. Some of its behaviour is easy to miss:

- **Non-positive durations.** `start` accepts a duration of 0 or less. The deadline worker arms anyway, and its first tick posts 0 and `finished`. The counter worker posts negative values. The single-page timer rings on its first update.
- **Resume.** The deadline worker has no `resume` command. It ignores one like any unknown command.
- **Pause.** `pause` keeps the old deadline and disarms. Nothing resumes from it: only a new `start` arms again, from a fresh deadline.
- **addTime.** `addTime` is applied in every state, paused or not, before any start included.
- **A second start.** A second `start` in the counter worker creates a new interval and leaves the earlier one running.
- **stop.** In the deadline worker, `stop` only pauses and disarms, like `pause`.
- **Start of exactly 10 s.** In `script.js`, a start of exactly 10 seconds beeps on its first update, because `10 <= 10 && 10 > 9.9`.
- **The last second.** The `app.js` page skips `{timeLeft: 0}`, because 0 is falsy. After a whole run it is left showing `00:01`.

## Model

| member | source | states |
|---|---|---|
| DeadlineWorker.RoundSeconds | workers/timer-worker.js:38 | `Math.round` of ms/1000 is the integer within half a second of it, halves rounded up |
| DeadlineWorker.Remaining | workers/timer-worker.js:38 | the seconds left are never negative; they are 0 exactly when the deadline is under 500 ms away, otherwise the deadline is within half a second of that many seconds |
| DeadlineWorker.StartStep | workers/timer-worker.js:26-35 | start sets the time left to the duration and the deadline to now + 1000·duration, arms exactly one interval (the old one is replaced), unpauses, leaves the state consistent and posts nothing |
| DeadlineWorker.HaltStep | workers/timer-worker.js:49-52 | pause (and stop) pauses and disarms, keeping deadline and time left, posting nothing |
| DeadlineWorker.ResetStep | workers/timer-worker.js:54-60 | reset disarms, pauses, sets the time left to the duration and the deadline to now + 1000·duration, and posts exactly `{timeLeft: duration}` |
| DeadlineWorker.AddTimeStep | workers/timer-worker.js:62-66 | addTime moves both numbers by the seconds in any state, keeps pause and interval, posts one reply, NaN before any start or reset |
| DeadlineWorker.TickStep | workers/timer-worker.js:35-46 | a tick does nothing unless armed and unpaused; otherwise the time left is recomputed from the deadline alone, posted, followed by one `finished` exactly when it is 0, which disarms |
| DeadlineWorker.Handle | workers/timer-worker.js:6-24 | unknown commands change nothing and post nothing; only start arms; no command posts `finished` |
| DeadlineWorker.RunKeepsConsistent | workers/timer-worker.js:26-71 | every command and tick keeps an armed interval tied to an unpaused, numeric countdown |
| DeadlineWorker.FinishedAtMostOncePerRun | workers/timer-worker.js:39-44 | between two starts at most one `finished` is posted, none if the interval was not armed |
| DeadlineWorker.ResetSilencesFinished | workers/timer-worker.js:54-60 | after a reset no `finished` is posted until the next start |
| DeadlineWorker.FinishedExactlyOnce | workers/timer-worker.js:37-44 | an unpaused run whose last tick is within 500 ms of the deadline posts exactly one `finished` and ends disarmed |
| DeadlineWorker.DisarmedStaysDisarmed | workers/timer-worker.js:33-35 | only start arms an interval |
| DeadlineWorker.DeadlineUnchanged | workers/timer-worker.js:35-52 | ticks, pause, stop and unknown commands never move the deadline |
| DeadlineWorker.RoundWholeSeconds | workers/timer-worker.js:38 | a whole number of seconds rounds to itself |
| DeadlineWorker.TickWithoutDrift | workers/timer-worker.js:37-39 | however many ticks ran since start(d) at t0, the tick at t0 + 1000k posts d − k (and `finished` when k = d) |
| DeadlineWorker.AddTimeShiftsLaterTicks | workers/timer-worker.js:62-64 | after addTime(k) and any commands that keep the deadline, the next tick still armed reports k more seconds than the old deadline gives, clamped at 0 |
| DeadlineWorker.HaltFreezes | workers/timer-worker.js:36 | after pause or stop, ticks change nothing and post nothing |
| DeadlineWorker.StopIdempotent | workers/timer-worker.js:68-71 | stop twice is stop once |
| DeadlineWorker.TimerWorker.constructor | workers/timer-worker.js:1-4 | the loaded state: not paused, nothing armed, numbers undefined, empty outbox |
| DeadlineWorker.TimerWorker.OnMessage | workers/timer-worker.js:6-24 | the dispatch updates the fields and outbox as `Handle` |
| DeadlineWorker.TimerWorker.StartTimer | workers/timer-worker.js:26-31 | fields become those of `StartStep` |
| DeadlineWorker.TimerWorker.RunTimer | workers/timer-worker.js:33-47 | leaves exactly one interval armed |
| DeadlineWorker.TimerWorker.Tick | workers/timer-worker.js:35-46 | fields and outbox become those of `TickStep` |
| DeadlineWorker.TimerWorker.PauseTimer | workers/timer-worker.js:49-52 | fields become those of `HaltStep` |
| DeadlineWorker.TimerWorker.ResetTimer | workers/timer-worker.js:54-60 | fields become those of `ResetStep`, the outbox gains `{timeLeft: duration}` |
| DeadlineWorker.TimerWorker.AddTime | workers/timer-worker.js:62-66 | fields and outbox become those of `AddTimeStep` |
| DeadlineWorker.TimerWorker.StopTimer | workers/timer-worker.js:68-71 | fields become those of `HaltStep` |
| CounterWorker.Clear | timer-worker.js:23-25 | clearInterval deactivates only the interval with that handle, and nothing for none |
| CounterWorker.StartStep | timer-worker.js:11-21 | start appends a new active interval holding the duration and points `timer` at it; earlier intervals are untouched |
| CounterWorker.StopStep | timer-worker.js:23-25 | stop deactivates the interval held in `timer`, the latest one started, and leaves every other interval and the handle as they were |
| CounterWorker.FireStepAsWritten | timer-worker.js:13-20 | a firing of an active interval decrements its counter and posts it; when it is ≤ 0 it posts `finished` and deactivates the interval held in `timer`, which is the firing one only if no later start happened; inactive or unknown intervals post nothing |
| CounterWorker.FireStep | timer-worker.js:13-20 | the callback clearing its own handle: decrements only its counter, posts it, and posts `finished` and deactivates exactly when it is ≤ 0 |
| CounterWorker.AsWrittenAgrees | timer-worker.js:13-18 | the callback as written and the one clearing its own handle agree unless an interval other than the one in `timer` runs out |
| CounterWorker.Handle | timer-worker.js:3-9 | no command posts; unknown commands change nothing |
| CounterWorker.CountsDown | timer-worker.js:12-15 | with the callback as written, while positive, the k-th firing posts duration − k, values falling by exactly 1 |
| CounterWorker.InactiveIgnoresFires | timer-worker.js:17 | a cleared interval never posts again |
| CounterWorker.LastFiring | timer-worker.js:14-18 | with either callback, the firing that takes the counter held in `timer` from 1 to 0 posts 0 and `finished` and clears that interval |
| CounterWorker.FinishesOnDthFiring | timer-worker.js:14-19 | with the callback as written, for d ≥ 1 the latest start's run posts d−1, …, 0 then one `finished` on its d-th firing, and stays cleared |
| CounterWorker.NonPositiveDurationGoesNegative | timer-worker.js:14-19 | as written, for d ≤ 0 the first firing posts d − 1 and `finished` and clears the interval, with no clamping |
| CounterWorker.StopCancelsOnlyLatest | timer-worker.js:11-25 | after two starts, stop clears the second interval and leaves the first running |
| CounterWorker.FinishedAtMostOncePerInterval | timer-worker.js:14-19 | with each interval clearing itself, `finished` is posted at most once per started interval over any events |
| CounterWorker.StackedStartsAsWritten | timer-worker.js:11-20 | as written, start(1) then start(5) and two firings of the first: it posts 0, `finished`, −1, `finished`, the second interval is cancelled with 5 left, and one interval stays active |
| CounterWorker.CounterTimerWorker.constructor | timer-worker.js:1 | no intervals, `timer` undefined, empty outbox |
| CounterWorker.CounterTimerWorker.OnMessage | timer-worker.js:3-9 | fields become those of `Handle` |
| CounterWorker.CounterTimerWorker.StartTimer | timer-worker.js:11-21 | fields become those of `StartStep` |
| CounterWorker.CounterTimerWorker.StopTimer | timer-worker.js:23-25 | fields become those of `StopStep` |
| CounterWorker.CounterTimerWorker.Fire | timer-worker.js:13-20 | fields and outbox become those of `FireStepAsWritten` |
| TimerManager.ReplyEvent | manager/TimerManager.js:14-20 | any reply with a `timeLeft` (0 and NaN included) becomes TIME_UPDATE with that value; only `finished` becomes TIMER_FINISHED |
| TimerManager.Translate | manager/TimerManager.js:23-45 | isRunning ends true exactly after start (or addTime while running); reset sends `initialDuration`; addTime changes no field |
| TimerManager.Commands | manager/TimerManager.js:23-45 | one worker command per call |
| TimerManager.OneCommandPerCall | manager/TimerManager.js:23-45 | the i-th command posted is of the i-th call's kind, in call order |
| TimerManager.InitialDurationIsLastStart | manager/TimerManager.js:23-45 | `initialDuration` is always the most recent start's duration |
| TimerManager.ResetSendsLastStart | manager/TimerManager.js:36-39 | reset posts the most recent start's duration, 0 before any start |
| TimerManager.ProtocolReset | manager/TimerManager.js:36-39 | over an in-order channel, once reset is delivered the worker holds the last start's duration, paused and disarmed, and last replied with it |
| TimerManager.TimerManager.constructor | manager/TimerManager.js:5-11 | not running, initial duration 0, nothing sent or emitted |
| TimerManager.TimerManager.Start | manager/TimerManager.js:23-28 | fields, command and event of `Translate` for start |
| TimerManager.TimerManager.Pause | manager/TimerManager.js:30-34 | fields, command and event of `Translate` for pause |
| TimerManager.TimerManager.Reset | manager/TimerManager.js:36-40 | fields, command and event of `Translate` for reset |
| TimerManager.TimerManager.AddTime | manager/TimerManager.js:42-45 | fields, command and event of `Translate` for addTime |
| TimerManager.TimerManager.OnWorkerMessage | manager/TimerManager.js:14-20 | emits `ReplyEvent` of the reply and leaves `isRunning` alone |
| EventEmitter.Without | core/EventEmitter.js:25 | the callback is gone, nothing new appears, every other callback keeps its count |
| EventEmitter.WithoutAppend | core/EventEmitter.js:25 | filtering keeps the rest in order |
| EventEmitter.WithoutAbsent | core/EventEmitter.js:25 | a list without the callback is unchanged |
| EventEmitter.Register | core/EventEmitter.js:6-11 | on appends at the end of that name's list, creating it if absent; other names unchanged |
| EventEmitter.Unregister | core/EventEmitter.js:22-27 | removeListener replaces that name's list by `Without` it, leaves every other name and the set of names unchanged, and changes nothing for an unknown name |
| EventEmitter.RegisterTwiceKeepsBoth | core/EventEmitter.js:10 | registering twice keeps both entries |
| EventEmitter.UnregisterUndoesRegister | core/EventEmitter.js:22-26 | every registration of the callback is removed and the others keep their order |
| EventEmitter.UnregisterIdempotent | core/EventEmitter.js:22-26 | removeListener twice is once, and a no-op for an unknown name |
| EventEmitter.EventEmitter.constructor | core/EventEmitter.js:2-4 | no names registered |
| EventEmitter.EventEmitter.On | core/EventEmitter.js:6-11 | the registry becomes `Register` of it |
| EventEmitter.EventEmitter.Emit | core/EventEmitter.js:13-20 | each registered callback is called once per registration, in order, with the data; nothing for an unknown name |
| EventEmitter.EventEmitter.RemoveListener | core/EventEmitter.js:22-27 | the registry becomes `Unregister` of it |
| UIManager.DigitFieldsGiveNonNegativeDuration | manager/UIManager.js:111-115 | digit-only fields never give a negative duration |
| UIManager.DurationOfWrittenFields | manager/UIManager.js:111-115 | getCurrentDuration reads the fields written for t ≥ 0 seconds back as t |
| UIManager.Validated | manager/UIManager.js:132-141 | two digits; NaN and negatives give 00, values in range are kept, values above 99 (minutes) or 59 (seconds) give the bound |
| UIManager.ValidatedReadsBack | manager/UIManager.js:132-141 | a validated field reads back through `parseInt(..) \|\| 0` as the clamped value |
| UIManager.KeepDigits | manager/UIManager.js:128-130 | only digits remain, each digit as many times as before |
| UIManager.KeepDigitsAppend | manager/UIManager.js:129 | the kept digits stay in their original order |
| UIManager.DigitsAreKept | manager/UIManager.js:129 | a digit-only value is left alone |
| UIManager.WrittenFieldsPassFilter | manager/UIManager.js:90-91 | the minutes and seconds inputs written for t ≥ 0 are digit strings, the seconds two of them, which the input filter leaves unchanged |
| UIManager.KeepDigitsIdempotent | manager/UIManager.js:128-130 | filtering twice is filtering once |
| UIManager.UIManager.constructor | manager/UIManager.js:20 | not editing; fields hold their initial text |
| UIManager.UIManager.UpdateTimerDisplay | manager/UIManager.js:88-92 | while editing the fields are untouched; otherwise they are written and getCurrentDuration reads back the time left |
| UIManager.UIManager.UpdateButtonStates | manager/UIManager.js:98-103 | label "Pause" iff running, "Start" otherwise; both inputs disabled iff running |
| UIManager.UIManager.HandleInputFocus | manager/UIManager.js:117-120 | editing starts |
| UIManager.UIManager.HandleInput | manager/UIManager.js:128-130 | the field keeps only its digits; the other is unchanged |
| UIManager.UIManager.ValidateTimeInput | manager/UIManager.js:132-141 | the field becomes `Validated`; the other is unchanged |
| UIManager.UIManager.HandleInputBlur | manager/UIManager.js:122-126 | editing ends and both fields are rewritten from the validated duration, which reads back unchanged with the seconds field below 60 |
| Text.ShowNat | app.js:37 | `String(n)`: non-empty decimal digits, no leading zero except for 0 itself |
| Text.ShowInt | app.js:37 | `String(i)`: a leading minus exactly for negatives |
| Text.PadStart2 | manager/UIManager.js:140 | `padStart(2, '0')`: at least two characters, zeros before the unchanged text |
| Text.ParseInt | manager/UIManager.js:133 | `parseInt`: NaN for empty text; a number only when a digit is present |
| Text.IntOrZero | manager/UIManager.js:112-113 | `parseInt(..) \|\| 0`: NaN becomes 0 |
| Text.ParseIntOfDigits | manager/UIManager.js:112 | parseInt of a digit string is its decimal value |
| Text.TrimStartOfDigits | manager/UIManager.js:112 | trimming leaves a digit string alone, digits not being white space |
| Text.ParseIntOfShowNat | manager/UIManager.js:112 | parseInt reads `String(n)` and its padded form back as n |
| Clock.JsRem | app.js:36 | `%` truncates: the Euclidean remainder for a non-negative dividend, the negated remainder of its negation otherwise, so the sign of the dividend and below the divisor in size |
| Clock.FormatTimeShape | app.js:34-38 | at least five characters, the colon third from the end for t ≥ 0 |
| Clock.SecondsFieldOfNat | script.js:22 | for t ≥ 0 the seconds field is two digits holding t mod 60, below 60 |
| Clock.MinutesFieldOfNat | script.js:21 | for t ≥ 0 the minutes field is digits holding t div 60 |
| Clock.FieldsRoundTrip | manager/UIManager.js:111-115 | the written minutes field reads back as t div 60, the seconds field as t mod 60, together t |
| Clock.ClockValueOfFields | app.js:37 | two digit runs joined by a colon read back as 60·MM + SS |
| Clock.FormatTimeRoundTrip | app.js:34-38 | reading MM:SS back as 60·MM + SS gives t for t ≥ 0 |
| Clock.FormatTimeIsZeroOnlyForZero | app.js:34-38 | `00:00` is the rendering of 0 and of nothing else |
| Clock.NegativeMinutes | app.js:35 | a negative time renders with a minus sign first |
| TeaPage.ZeroReadsZeros | script.js:122 | formatTime(0) is `00:00` |
| TeaPage.DisplayShowsWholeSeconds | script.js:20-24 | the page's `formatTime` of the whole seconds left reads back as MM:SS to exactly those seconds |
| TeaPage.StopStep | script.js:120-127 | stop: not running; end time, time left and initial duration untouched |
| TeaPage.StopShowsZeros | script.js:122 | after stop the display reads `00:00` |
| TeaPage.UpdateStep | script.js:129-147 | nothing unless running; the time left becomes end − now clamped at 0, so 0 iff now ≥ end, which stops; the display becomes formatTime of its whole seconds; the sounds are `Sounds` of the time left; end and initial duration kept |
| TeaPage.Sounds | script.js:135-141 | ring and notification iff nothing is left; a beep iff 9.9 s < left ≤ 10 s |
| TeaPage.StartStep | script.js:94-110 | stops a running timer; with a tea, end = now + 1000·d and initialDuration = d; for d > 0 running with d seconds left (beeping only for d = 10), for d ≤ 0 ringing at once |
| TeaPage.AddStep | script.js:112-118 | +10 s to end, remaining and initial duration only while running; otherwise nothing |
| TeaPage.StopIdempotent | script.js:120-122 | stopping twice is stopping once |
| TeaPage.AddPostponesRing | script.js:112-118 | adding time while running postpones the ring by exactly 10 s |
| TeaPage.RingsAtMostOncePerRun | script.js:135-138 | without a new start the page rings at most once, never when not running |
| TeaPage.StoppedFramesIdle | script.js:130 | once stopped, frames change nothing and make no sound |
| TeaPage.LastFrameRings | script.js:129-138 | the frame reaching the end time rings once, stops the page and shows formatTime(0) |
| TeaPage.EarlyFrameSilent | script.js:129-141 | a frame before the end time does not ring and leaves the page running towards the same end |
| TeaPage.RingsOnceThenZero | script.js:129-138 | by induction over the frames: a running page whose last frame reaches the end time rings exactly once and stops showing formatTime(0) |
| TeaPage.RingsOnceDeadlineReached | script.js:129-147 | a run whose frames reach the end time rings exactly once and is left stopped at `00:00` |
| TeaPage.Lower | script.js:315 | same length; no capital letter remains; each capital becomes its lower-case letter and every other character is kept |
| TeaPage.LowerIdempotent | script.js:309-315 | lowering twice is lowering once |
| TeaPage.Contains | script.js:316 | `includes`: true iff the query occurs at some position |
| TeaPage.EmptyQueryMatchesAll | script.js:309-316 | the empty query matches every tea |
| TeaPage.NameMatchesItself | script.js:309-316 | every tea matches a query equal to its own name |
| TeaPage.CaseOfNameIgnored | script.js:314-316 | the case of the tea's name does not matter |
| TeaPage.CaseOfQueryIgnored | script.js:309 | the case of the query letters does not matter |
| TeaPage.FilterTeaList | script.js:303-328 | a tea is shown iff it matches; a category button is shown iff one of its teas matches; content opened iff already open or matching |
| TeaPage.TeaTimer.constructor | script.js:14 | not running, with the page's initial text |
| TeaPage.TeaTimer.StopTimer | script.js:120-127 | fields become those of `StopStep` |
| TeaPage.TeaTimer.UpdateTimer | script.js:129-147 | fields and effects become those of `UpdateStep` |
| TeaPage.TeaTimer.StartTimer | script.js:94-110 | fields and effects become those of `StartStep` |
| TeaPage.TeaTimer.AddTime | script.js:112-118 | fields become those of `AddStep` |
| WorkerPage.StartStep | app.js:13-20 | a granted wake lock is held and `start` posted; a rejected one changes nothing |
| WorkerPage.FinishedStep | app.js:40-43 | releases a held lock (still held afterwards) and notifies when permitted |
| WorkerPage.ReplyStep | app.js:22-28 | only a non-zero `timeLeft` changes the display; `{timeLeft: 0}` changes nothing; `finished` calls timerFinished |
| WorkerPage.ReplyDisplay | app.js:22-38 | a shown value never reads `00:00`, and a positive one reads back as itself |
| WorkerPage.StopStep | app.js:55-58 | stop posts exactly `stop` and releases a held lock |
| WorkerPage.DisplayNeverReadsZero | app.js:22-28 | whatever the worker sends, the display never comes to read `00:00` |
| WorkerPage.ShowsLastCount | app.js:22-32 | after non-zero updates the last one is shown |
| WorkerPage.WholeRunEndsShowingOneSecond | app.js:22-28 | after a whole counter-worker run of d ≥ 2 the display is `00:01` and a held lock was released once |
| WorkerPage.StopReleasesAgain | app.js:55-58 | the lock is never forgotten, so each stop calls `release()` again |
| WorkerPage.AppPage.constructor | app.js:11 | no lock, no calls, nothing posted |
| WorkerPage.AppPage.StartTimer | app.js:13-20 | fields become those of `StartStep` |
| WorkerPage.AppPage.TimerFinished | app.js:40-43 | fields become those of `FinishedStep` |
| WorkerPage.AppPage.OnMessage | app.js:22-28 | fields become those of `ReplyStep` |
| WorkerPage.AppPage.StopClicked | app.js:55-58 | fields become those of `StopStep` |

## Left out

- Real timers (`setInterval`, `setTimeout`, `requestAnimationFrame`) are replaced by explicit tick, fire and frame calls. Each modelled operation takes the clock as one `now` parameter.
- TeaPage.StartStep: `startTimer` in script.js reads `Date.now()` twice, once for the end time (script.js:104) and once in the `updateTimer` it calls (script.js:132). The model merges the two reads into one `now`, so the first update sees exactly d seconds left.
- The 300 ms debounce of the tea filter (script.js:304-307, 327-328) is left out, because it is timer plumbing. The filter itself is modelled.
- The canvas progress ring `drawCircle` is left out, because it is floating-point trigonometry and rendering.
- Audio, notifications and permission requests are left out, because they are foreign browser APIs. Only their calls are recorded, as effects or counters.
- Wake-lock promises are left out, because they are foreign and asynchronous. In app.js the outcome of the request is a boolean parameter.
- The service worker, the menu, the steeping-style toggle and tea selection are left out. This includes `getSelectedTea`, which reads a `teaCategories` that is local to `createTeaList`, and its stale cache. The selected tea's duration is a parameter of `StartStep`.
- The composition roots (core/app.js, main.js, core/main.js), the configuration constants and debug logging are left out, because they only wire components together.
- UIManager's drag and touch handlers are left out, because they depend on pixel geometry.
- UIManager's `formatTime` for the text display (manager/UIManager.js:93-95) comes from utils/timeFormatters.js. That file is not part of this model, and neither is the reset-button rule that uses it (manager/UIManager.js:100).
- The version display and the app badge are left out, because they are DOM and platform calls.
- Callbacks are values compared by identity. What a callback does when `emit` calls it is not modelled. Names that collide with `Object.prototype` keys are not modelled.
- Text.ParseInt: reads `0x1A` as 0, whereas JavaScript's `parseInt` without a radix reads it as hexadecimal 26. The fields it reads either have already been reduced to digits or were written by the page itself.
- TeaPage.Lower: lowers ASCII letters only. JavaScript's `toLowerCase` also lowers other alphabets.
- Durations, seconds and timestamps are integers. JavaScript numbers are doubles, and their fractional values, overflow beyond 2^53 and NaN from non-numeric durations are not modelled. The one exception is the deadline worker's `undefined`/NaN before the first start or reset, which is modelled.
- `TimeLeftNaN` is not carried through TimerManager into the UIManager fields. TimerManager forwards it as a `NotANumber` payload, and no later step uses it.

## Findings

| source | as written | input that shows it | evidently intended | confidence | as-written member | corrected member |
|---|---|---|---|---|---|---|
| timer-worker.js:17-18 | the interval callback clears the global `timer`, which after a second `start` is the newer interval, not itself | `start(1)`, then `start(5)`, then two firings of the first interval: it posts 0, `finished`, −1, `finished`, and the second run is cancelled | each interval clears its own handle when it reaches 0, so it posts `finished` once and the later run goes on | medium, not executed | CounterWorker.StackedStartsAsWritten | CounterWorker.FinishedAtMostOncePerInterval |
