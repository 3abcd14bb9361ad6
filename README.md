# Countdown / real-time timer: a Dafny model

This project models the state machine behind the `TimerApp` window of timer.py. The window
shows one of two things. In real-time mode it shows the wall clock. In countdown mode it
counts down from an entered number of hours and minutes. A pause button pauses and resumes
the countdown, and F11 toggles fullscreen. All repetition comes from Tk's `after` callbacks:
each tick schedules the next one, and starting a mode cancels the pending tick first.

Modules:

- `Optional` (optional.dfy): the `Option` datatype.
- `Scheduler` (scheduler.dfy): Tk's `after` queue. `AfterQueue` is the queue as a value, with
  `Schedule` (`after`) and `Cancel` (`after_cancel`). `EventLoop` is the same queue as an
  object updated in place. Ids are handed out from a counter, so a new id is never pending.
- `Timer` (timer.dfy): the application state as a value (`State`) and one function per handler
  (`ResetTimer`, `StartRealTime`, `UpdateTime`, `StartCountdown`, `UpdateCountdown`,
  `PauseCountdown`, `ToggleFullscreen`). It also has `Fire` for a due callback, and
  `Step`/`Run` for sequences of clicks, key presses and ticks. `Inv` is the invariant of every
  reachable state: the only pending tick is the one `timer_running` holds, nothing is pending
  while paused, and a pending countdown tick can read `end_time`.
- `TimerProperties` (properties.dfy): lemmas about those functions.
- `App` (app.dfy): the class `TimerApp`. Its fields are the Python object's fields, and its
  methods update them in place and call `after`/`after_cancel` on an `EventLoop`. Each method
  is proved to produce exactly the state that the matching `Timer` function computes from the
  old state. So every lemma about the functions also holds of the object.

Modelling choices:

- Time is an integer number of microseconds, the resolution of `timedelta`. Every reading of
  `datetime.now()` is a parameter. `start_countdown` reads the clock twice: at timer.py:98 to
  set `end_time` (`now`), then inside `update_countdown` at timer.py:105 (`later`). A resume
  does the same at timer.py:117 and :105. The two readings are separate parameters, so the
  first label shows the entered time less the gap between them. For 0 hours and 1 minute
  with a gap under a second, that is `0:00:59` (`StartShowsAtMostOneSecondLess`).
- The label is the datatype `Label`: `Blank`, `WallClock(now)`, `Remaining(wholeSeconds)`
  (the fraction is truncated, as `split('.')[0]` does) or `Expired` (the literal `0:00:00`).
- An entry field is `Empty`, `Numeral(n)` (any integer, negatives included, as `int()` accepts)
  or `Malformed`.
- An exception is an `Outcome`: `Raised(ValueError | AttributeError | TypeError)`. Tkinter
  reports an exception raised in a handler and keeps running. So the model keeps every field
  change the handler made before the raise.
- `end_time` is `None` until a countdown first assigns it, because `__init__` never sets it
  (timer.py:41-44).
- `after_cancel` on an id that already fired or was cancelled does nothing. `timer_running`
  keeps such a stale id after `reset_timer` and after a pause; only expiry clears it.

Behaviours of the code that the model reproduces as written:

- A non-numeric entry raises `ValueError` from `int()` and the start is abandoned. Nothing
  has changed at that point; no message is shown.
- Pausing in real-time mode stops the clock: it cancels the clock's pending tick. It then
  reads `end_time`. That raises `AttributeError` if no countdown ever ran. Otherwise it
  captures what is left of the old countdown, and resuming brings back that countdown
  (`PauseInRealTimeMode`).
- A paused countdown is left by a resume or by `start_real_time`; `start_countdown` does
  nothing while paused.
- An expired countdown stays expired only while the clock does not go back. `datetime.now()`
  is naive local time and can step back, for example at a daylight-saving change. A pause
  and resume then capture a positive time left and the countdown ticks again
  (`BackwardClockRevivesExpiry`).

## Model

| member | source | states |
|---|---|---|
| Scheduler.Schedule | timer.py:91 | `after` registers the callback under an id that was not pending; every other registration is kept |
| Scheduler.Cancel | timer.py:83-84 | `after_cancel` removes exactly that id; cancelling an id that is not pending changes nothing |
| Scheduler.EventLoop.After | timer.py:108 | the in-place queue after `after` equals `Schedule` of the old queue, and the id returned is the new one |
| Scheduler.EventLoop.AfterCancel | timer.py:123 | the in-place queue after `after_cancel` equals `Cancel` of the old queue |
| Scheduler.EventLoop.Take | timer.py:129 | the event loop removes a due id before running its callback and hands back that callback |
| Timer.Initial | timer.py:41-44 | the start-up state satisfies the invariant: nothing pending, not paused, no `end_time` |
| Timer.ToggleFullscreen | timer.py:73-75 | flips `is_fullscreen` and changes nothing else |
| Timer.EntryValue | timer.py:96-97 | an empty field counts as 0, a numeral gives its integer, and only a malformed field makes `int()` raise |
| Timer.CountdownLength | timer.py:98 | `timedelta(hours=h, minutes=m)` is `(h*3600 + m*60)` whole seconds, never negative for non-negative entries |
| Timer.WholeSeconds | timer.py:107 | the shown seconds are the remaining time with its fraction dropped: `s*10^6 <= remaining < (s+1)*10^6` |
| Timer.CountdownLabel | timer.py:106-110 | the label is `0:00:00` exactly when no time is left, and otherwise shows the truncated whole seconds left |
| Timer.CancelPending | timer.py:83-84 | the id held in `timer_running` is no longer pending; from a reachable state nothing is pending; only the queue changes |
| Timer.ResetTimer | timer.py:82-86 | clears the pause flag, cancels the held tick, leaves nothing pending from a reachable state, keeps the invariant and changes nothing else |
| Timer.UpdateTime | timer.py:88-91 | shows the wall clock and schedules exactly one new clock tick under a fresh id held in `timer_running`, whatever the pause flag |
| Timer.StartRealTime | timer.py:78-80 | not paused, shows the clock, exactly one tick (a clock tick) is pending afterwards; `end_time`, `remaining_time` and `is_fullscreen` are unchanged |
| Timer.UpdateCountdown | timer.py:102-111 | no-op while paused; raises AttributeError without `end_time`; otherwise shows the label for `end_time - now`; with time left schedules one new countdown tick, else forgets the id and schedules nothing |
| Timer.StartCountdown | timer.py:93-100 | no-op while paused; a malformed entry raises ValueError and changes nothing; otherwise not paused, `end_time` set from the first clock reading and the label shows the time left at the second reading; `is_fullscreen` and `remaining_time` unchanged; keeps the invariant |
| Timer.PauseCountdown | timer.py:113-125 | pausing sets the flag, cancels the held tick (nothing pending afterwards), captures `end_time - now` or raises AttributeError without `end_time`, and changes nothing else; resuming clears the flag, rebuilds `end_time = now + captured`, shows the time left at the second reading and, while it is positive, schedules exactly one new countdown tick (otherwise schedules nothing), or raises TypeError with nothing captured; `is_fullscreen` is never changed |
| Timer.Fire | timer.py:127-129 | an id that is not pending never fires; a fired id is no longer pending; a due clock tick shows the wall clock and registers a clock tick; a due countdown tick shows the time left; in a reachable state a tick keeps the invariant and never raises |
| Timer.Step | timer.py:50-70 | every click, key press or tick keeps the invariant |
| Timer.Run | timer.py:127-129 | the event loop handles events one at a time; no events leave the state as it is, and one event gives that event's new state whether or not its handler raised |
| TimerProperties.SinglePendingTick | timer.py:82-86 | under the invariant at most one tick is pending, and it is the one in `timer_running` |
| TimerProperties.RunConcat | timer.py:127-129 | handling `a` and then `b` ends in the state that handling `a + b` does, so a raise in `a` does not stop `b` from running |
| TimerProperties.RunKeepsInv | timer.py:78-125 | every sequence of events preserves the invariant |
| TimerProperties.OneTickChainFromStart | timer.py:41-44 | from start-up, after any events, at most one tick chain is alive and nothing is pending while paused |
| TimerProperties.EmptyEntryCountsAsZero | timer.py:96-97 | an empty hours or minutes field starts exactly the countdown that `0` starts |
| TimerProperties.CountdownEndsAfterEnteredTime | timer.py:96-98 | `end_time = now + (hours*3600 + minutes*60) s` |
| TimerProperties.WholeSecondsOfExactDuration | timer.py:107 | a whole number of seconds is shown as exactly that number |
| TimerProperties.StartShowsEnteredTime | timer.py:93-111 | the first label shows the entered time less the gap between the two clock readings; while that is positive exactly one countdown tick is pending, otherwise `0:00:00` with nothing pending |
| TimerProperties.StartShowsAtMostOneSecondLess | timer.py:96-107 | with readings less than a second apart, a positive entered time shows in full if they are equal and one second less otherwise |
| TimerProperties.StartCancelsPreviousTick | timer.py:78-100 | after a start of either mode, no tick pending before it is still pending |
| TimerProperties.CountdownTickReschedulesOrExpires | timer.py:105-111 | a due countdown tick either shows the whole seconds left and leaves exactly one new countdown tick pending, or shows `0:00:00`, clears `timer_running` and leaves nothing pending |
| TimerProperties.ClockTickReschedules | timer.py:88-91 | a due clock tick in a reachable state shows the wall clock and leaves exactly one pending tick, a new clock tick |
| TimerProperties.TickAtEndStops | timer.py:109-111 | a countdown tick at or after `end_time` reaches the stopped state |
| TimerProperties.StepKeepsStopped | timer.py:113-125 | once stopped, fullscreen, pause, resume and stale ticks keep it stopped, provided each event's clock readings do not go back |
| TimerProperties.ExpiryIsTerminal | timer.py:109-111 | provided the clock never goes back, after expiry any events other than a start leave the label at `0:00:00` and nothing pending |
| TimerProperties.BackwardClockRevivesExpiry | timer.py:113-125 | with a clock that steps back before `end_time`, a pause and resume bring an expired countdown back: it shows a positive time left and a countdown tick is pending |
| TimerProperties.PauseResumeKeepsRemaining | timer.py:113-125 | pausing at t1 and resuming at t2 gives `end_time' = t2 + (end_time - t1)`, so the time left at t2 equals the time left at t1; nothing is pending while paused; the resume shows the captured time less the gap to its second reading t3 and, while that is positive, exactly one countdown tick is pending again |
| TimerProperties.PauseBeforeAnyCountdownRaises | timer.py:121-124 | pausing before any countdown sets the flag, then raises AttributeError; the next click raises TypeError |
| TimerProperties.PauseInRealTimeMode | timer.py:119-125 | pausing in real-time mode cancels the clock tick, freezes the clock label, and either raises AttributeError or captures an old countdown's time left |
| TimerProperties.ToggleTwiceRestores | timer.py:73-75 | toggling fullscreen twice restores the state |
| App.TimerApp.constructor | timer.py:36-47 | the new object is in the start-up state and satisfies the invariant |
| App.TimerApp.ToggleFullscreen | timer.py:73-75 | the object's new state is `Timer.ToggleFullscreen` of the old one |
| App.TimerApp.StartRealTime | timer.py:78-80 | the object's new state is `Timer.StartRealTime` of the old one; the invariant is kept |
| App.TimerApp.ResetTimer | timer.py:82-86 | the object's new state is `Timer.ResetTimer` of the old one; the invariant is kept |
| App.TimerApp.UpdateTime | timer.py:88-91 | the object's new state is `Timer.UpdateTime` of the old one |
| App.TimerApp.StartCountdown | timer.py:93-100 | the object's new state and the outcome are `Timer.StartCountdown` of the old state, with the clock read once for `end_time` and once in `update_countdown`; the invariant is kept |
| App.TimerApp.UpdateCountdown | timer.py:102-111 | the object's new state and the outcome are `Timer.UpdateCountdown` of the old state |
| App.TimerApp.PauseCountdown | timer.py:113-125 | the object's new state and the outcome are `Timer.PauseCountdown` of the old state, with a resume reading the clock once for `end_time` and once in `update_countdown`; the invariant is kept |
| App.TimerApp.Dispatch | timer.py:127-129 | firing an id gives `Timer.Fire` of the old state; from a valid object it keeps the invariant and never raises |

## Left out

- The `ToolTip` class (timer.py:4-33): hover events and pixel geometry of Tk windows.
- Widget construction and layout, fonts and colours, the pause button's glyphs (timer.py:86,
  115, 120) and the window's fullscreen attribute (timer.py:75). Only `is_fullscreen` is kept.
  The F11 binding and the three buttons appear only as the events of `Timer.Event`.
- Text formatting by `strftime('%H:%M:%S')` and `str(timedelta).split('.')[0]`. The label is
  the abstract `Label`. The program shows `Remaining(0)` (under a second left) as `0:00:00`,
  the same text as `Expired`. It shows a day or more as "N day(s), H:MM:SS". The model keeps
  the two apart and does not render text.
- The clock and the one-second delay: `now` is a parameter of each handler. A pending
  callback may fire at any later event, and the model does not tie the tick times to
  `now + 1000 ms`.
- The full `int()` grammar (whitespace, signs, underscores). An entry is `Empty`, `Numeral`
  or `Malformed`.
- `OverflowError` from `timedelta` or `datetime` arithmetic beyond their ranges, for example a
  huge hours entry. Integers here are unbounded.
- `root.mainloop()` (timer.py:127-129) beyond firing one pending callback at a time. There is
  no concurrency.
