/**
 * The countdown / real-time state machine of `TimerApp` (timer.py), as values.
 *
 * A `State` holds the fields the Python object mutates (`timer_running`, `timer_paused`,
 * `end_time`, `remaining_time`, `is_fullscreen`), what the big label shows, and Tk's `after`
 * queue. Each handler is a function from the state before to the state after, together with
 * how the handler ended: normally, or by raising one of the exceptions the code can raise.
 * Tkinter reports an exception raised in a handler and keeps running, so whatever the handler
 * changed before raising stays changed.
 *
 * Times are integers in microseconds, the resolution of `datetime` and `timedelta`; every
 * reading of `datetime.now()` is a parameter. `start_countdown` and a resume read the clock
 * twice, once to set `end_time` (`now`) and once more inside `update_countdown` (`later`),
 * and the two readings are kept apart.
 */
module Timer {
  import opened Optional
  import opened Scheduler

  const MicrosPerSecond: int := 1_000_000
  const SecondsPerMinute: int := 60
  const MinutesPerHour: int := 60

  /** What the big time label shows, up to text formatting. */
  datatype Label =
    | Blank                         // the empty text the label is created with
    | WallClock(time: int)          // `now.strftime('%H:%M:%S')`
    | Remaining(wholeSeconds: nat)  // `str(remaining).split('.')[0]`
    | Expired                       // the literal "0:00:00"

  /** The text of an hours or minutes entry field, as `int()` sees it. */
  datatype Entry = Empty | Numeral(value: int) | Malformed

  /** The two callbacks the code registers with `after`. */
  datatype Callback = ClockTick | CountdownTick  // `update_time`, `update_countdown`

  /** The exceptions a handler can raise. */
  datatype Error =
    | ValueError      // `int()` of an entry that is not an integer
    | AttributeError  // reading `end_time` before any countdown assigned it
    | TypeError       // `datetime.now() + None` when resuming with no captured remaining time

  datatype Outcome = Returned | Raised(error: Error)

  datatype State = State(
    timerRunning: Option<Handle>,   // the pending `after` id, `False` being None
    timerPaused: bool,
    endTime: Option<int>,           // None until the attribute is first assigned
    remainingTime: Option<int>,
    isFullscreen: bool,
    display: Label,
    queue: AfterQueue<Callback>)

  /** The state after a handler, and how the handler ended. */
  datatype Effect = Effect(state: State, outcome: Outcome)

  /**
   * The invariant of every reachable state: the only pending tick, if any, is the one
   * `timer_running` holds (so at most one tick chain is alive); nothing is pending while
   * paused; and a pending countdown tick can read `end_time`.
   */
  ghost predicate Inv(s: State)
  {
    && s.queue.Fresh()
    && (forall h :: h in s.queue.pending ==> s.timerRunning == Some(h))
    && (s.timerPaused ==> s.queue.pending == map[])
    && (CountdownTick in s.queue.pending.Values ==> s.endTime.Some?)
  }

  /** The state `__init__` leaves: nothing scheduled, `end_time` not yet an attribute. */
  function Initial(): (s: State)
    ensures Inv(s)
  {
    State(None, false, None, None, false, Blank, AfterQueue(map[], 0))
  }

  /** `toggle_fullscreen`. */
  function ToggleFullscreen(s: State): (r: State)
    ensures r.isFullscreen != s.isFullscreen
    ensures r.(isFullscreen := s.isFullscreen) == s
    ensures Inv(s) ==> Inv(r)
  {
    s.(isFullscreen := !s.isFullscreen)
  }

  /** `int(entry.get()) if entry.get() else 0`; None where `int()` raises. */
  function EntryValue(e: Entry): (r: Option<int>)
    ensures r.None? <==> e.Malformed?
    ensures e.Empty? ==> r == Some(0)
    ensures e.Numeral? ==> r == Some(e.value)
  {
    match e
    case Empty => Some(0)
    case Numeral(n) => Some(n)
    case Malformed => None
  }

  /** `timedelta(hours=hours, minutes=minutes)` in microseconds. */
  function CountdownLength(hours: int, minutes: int): (len: int)
    ensures len == (hours * 3600 + minutes * 60) * MicrosPerSecond
    ensures len % MicrosPerSecond == 0
    ensures hours >= 0 && minutes >= 0 ==> len >= 0
  {
    (hours * MinutesPerHour + minutes) * SecondsPerMinute * MicrosPerSecond
  }

  /** The whole seconds of a positive duration, its fraction dropped. */
  function WholeSeconds(micros: int): (secs: nat)
    requires micros > 0
    ensures secs * MicrosPerSecond <= micros < (secs + 1) * MicrosPerSecond
  {
    micros / MicrosPerSecond
  }

  /** What `update_countdown` shows when `remaining` microseconds are left. */
  function CountdownLabel(remaining: int): (l: Label)
    ensures l.Expired? <==> remaining <= 0
    ensures l.Remaining? ==>
      l.wholeSeconds * MicrosPerSecond <= remaining < (l.wholeSeconds + 1) * MicrosPerSecond
    ensures l.Remaining? || l.Expired?
  {
    if remaining > 0 then Remaining(WholeSeconds(remaining)) else Expired
  }

  /** `if self.timer_running: after_cancel(self.timer_running)`; the field keeps the id. */
  function CancelPending(s: State): (r: State)
    ensures s.timerRunning.Some? ==> s.timerRunning.value !in r.queue.pending
    ensures Inv(s) ==> r.queue.pending == map[] && r.queue.Fresh()
    ensures r.(queue := s.queue) == s
  {
    if s.timerRunning.Some? then s.(queue := Cancel(s.queue, s.timerRunning.value)) else s
  }

  /** `reset_timer`: cancel the pending tick and clear the pause flag. */
  function ResetTimer(s: State): (r: State)
    ensures !r.timerPaused
    ensures s.timerRunning.Some? ==> s.timerRunning.value !in r.queue.pending
    ensures Inv(s) ==> Inv(r) && r.queue.pending == map[]
    ensures r.(timerPaused := s.timerPaused, queue := s.queue) == s
  {
    CancelPending(s).(timerPaused := false)
  }

  /** `r` is `s` with one more callback `cb`, under a fresh id that `timer_running` now holds. */
  ghost predicate Rescheduled(s: State, r: State, cb: Callback)
  {
    && r.timerRunning.Some?
    && r.timerRunning.value !in s.queue.pending
    && r.queue.Fresh()
    && r.queue.pending == s.queue.pending[r.timerRunning.value := cb]
  }

  /** `update_time`: show the wall clock and schedule the next clock tick, paused or not. */
  function UpdateTime(s: State, now: int): (r: State)
    ensures r.display == WallClock(now)
    ensures r.timerRunning.Some? && r.timerRunning.value in r.queue.pending
    ensures r.queue.pending[r.timerRunning.value] == ClockTick
    ensures s.queue.Fresh() ==> Rescheduled(s, r, ClockTick)
    ensures r.(display := s.display, timerRunning := s.timerRunning, queue := s.queue) == s
  {
    var (q, h) := Schedule(s.queue, ClockTick);
    s.(display := WallClock(now), timerRunning := Some(h), queue := q)
  }

  /** `start_real_time`: reset, then `update_time`. */
  function StartRealTime(s: State, now: int): (r: State)
    ensures !r.timerPaused && r.display == WallClock(now)
    ensures r.(timerPaused := s.timerPaused, display := s.display, timerRunning := s.timerRunning,
               queue := s.queue) == s
    ensures Inv(s) ==>
      Inv(r) && r.timerRunning.Some? && r.queue.pending == map[r.timerRunning.value := ClockTick]
  {
    UpdateTime(ResetTimer(s), now)
  }

  /**
   * `update_countdown`: unless paused, compare `end_time` with `now`; while time is left,
   * show the whole seconds left and schedule the next countdown tick, otherwise show
   * "0:00:00", forget the id and schedule nothing.
   */
  function UpdateCountdown(s: State, now: int): (r: Effect)
    ensures s.timerPaused ==> r == Effect(s, Returned)
    ensures !s.timerPaused && s.endTime.None? ==> r == Effect(s, Raised(AttributeError))
    ensures !s.timerPaused && s.endTime.Some? ==>
      && r.outcome == Returned
      && r.state.display == CountdownLabel(s.endTime.value - now)
      && r.state.(display := s.display, timerRunning := s.timerRunning, queue := s.queue) == s
    ensures !s.timerPaused && s.endTime.Some? && s.endTime.value <= now ==>
      r.state.timerRunning == None && r.state.queue == s.queue
    ensures !s.timerPaused && s.endTime.Some? && s.endTime.value > now && s.queue.Fresh() ==>
      Rescheduled(s, r.state, CountdownTick)
  {
    if s.timerPaused then Effect(s, Returned)
    else if s.endTime.None? then Effect(s, Raised(AttributeError))
    else
      var remaining := s.endTime.value - now;
      if remaining > 0 then
        var (q, h) := Schedule(s.queue, CountdownTick);
        Effect(s.(display := CountdownLabel(remaining), timerRunning := Some(h), queue := q), Returned)
      else
        Effect(s.(display := CountdownLabel(remaining), timerRunning := None), Returned)
  }

  /**
   * `start_countdown`: a no-op while paused; otherwise read both entries (an empty one is 0),
   * set `end_time = now + timedelta(hours, minutes)`, reset and run `update_countdown`, which
   * reads the clock again (`later`).
   */
  function StartCountdown(s: State, now: int, later: int, hours: Entry, minutes: Entry): (r: Effect)
    ensures s.timerPaused ==> r == Effect(s, Returned)
    ensures !s.timerPaused && (hours.Malformed? || minutes.Malformed?) ==>
      r == Effect(s, Raised(ValueError))
    ensures !s.timerPaused && !hours.Malformed? && !minutes.Malformed? ==>
      && r.outcome == Returned && !r.state.timerPaused && r.state.endTime.Some?
      && r.state.display == CountdownLabel(r.state.endTime.value - later)
      && r.state.isFullscreen == s.isFullscreen && r.state.remainingTime == s.remainingTime
    ensures Inv(s) ==> Inv(r.state)
  {
    if s.timerPaused then Effect(s, Returned)
    else match (EntryValue(hours), EntryValue(minutes))
      case (Some(h), Some(m)) =>
        UpdateCountdown(ResetTimer(s.(endTime := Some(now + CountdownLength(h, m)))), later)
      case _ => Effect(s, Raised(ValueError))
  }

  /**
   * `pause_countdown`. Pausing sets the flag, cancels the pending tick and captures
   * `end_time - now` (raising if `end_time` was never assigned); resuming clears the flag,
   * rebuilds `end_time = now + captured` and runs `update_countdown`, which reads the clock
   * again (`later`). Only a resume reads the clock twice; pausing ignores `later`.
   */
  function PauseCountdown(s: State, now: int, later: int): (r: Effect)
    ensures r.state.isFullscreen == s.isFullscreen
    ensures !s.timerPaused ==>
      && r.state.timerPaused
      && r.state.(timerPaused := s.timerPaused, remainingTime := s.remainingTime, queue := s.queue) == s
      && (s.timerRunning.Some? ==> s.timerRunning.value !in r.state.queue.pending)
      && (r.outcome == Returned <==> s.endTime.Some?)
    ensures !s.timerPaused && s.endTime.None? ==> r.outcome == Raised(AttributeError)
    ensures !s.timerPaused && s.endTime.Some? ==>
      r.state.remainingTime == Some(s.endTime.value - now) && r.state.endTime == s.endTime
    ensures !s.timerPaused && Inv(s) ==> r.state.queue.pending == map[]
    ensures s.timerPaused ==> !r.state.timerPaused && r.state.remainingTime == s.remainingTime
    ensures s.timerPaused && s.remainingTime.None? ==> r == Effect(s.(timerPaused := false), Raised(TypeError))
    ensures s.timerPaused && s.remainingTime.Some? ==>
      && r.outcome == Returned
      && r.state.endTime == Some(now + s.remainingTime.value)
      && r.state.display == CountdownLabel(s.remainingTime.value - (later - now))
    ensures s.timerPaused && s.remainingTime.Some? && s.remainingTime.value - (later - now) > 0
            && s.queue.Fresh() ==>
      Rescheduled(s, r.state, CountdownTick)
    ensures s.timerPaused && s.remainingTime.Some? && s.remainingTime.value - (later - now) <= 0 ==>
      r.state.timerRunning.None? && r.state.queue == s.queue
    ensures Inv(s) ==> Inv(r.state)
  {
    if s.timerPaused then
      var resumed := s.(timerPaused := false);
      if resumed.remainingTime.None? then Effect(resumed, Raised(TypeError))
      else UpdateCountdown(resumed.(endTime := Some(now + resumed.remainingTime.value)), later)
    else
      var paused := CancelPending(s).(timerPaused := true);
      if paused.endTime.None? then Effect(paused, Raised(AttributeError))
      else Effect(paused.(remainingTime := Some(paused.endTime.value - now)), Returned)
  }

  /**
   * The event loop fires the pending id `h` at time `now`: the registration is removed and its
   * callback runs. An id that is not pending never fires, so that event changes nothing.
   */
  function Fire(s: State, h: Handle, now: int): (r: Effect)
    ensures h !in s.queue.pending ==> r == Effect(s, Returned)
    ensures h in s.queue.pending && s.queue.Fresh() ==> h !in r.state.queue.pending
    ensures h in s.queue.pending && s.queue.pending[h] == ClockTick ==>
      r.outcome == Returned && r.state.display == WallClock(now)
      && r.state.timerRunning.Some? && r.state.timerRunning.value in r.state.queue.pending
      && r.state.queue.pending[r.state.timerRunning.value] == ClockTick
    ensures h in s.queue.pending && s.queue.pending[h] == CountdownTick
            && !s.timerPaused && s.endTime.Some? ==>
      r.outcome == Returned && r.state.display == CountdownLabel(s.endTime.value - now)
    ensures Inv(s) ==> Inv(r.state) && r.outcome == Returned
  {
    if h !in s.queue.pending then Effect(s, Returned)
    else
      var taken := s.(queue := Cancel(s.queue, h));
      match s.queue.pending[h]
      case ClockTick => Effect(UpdateTime(taken, now), Returned)
      case CountdownTick => UpdateCountdown(taken, now)
  }

  /** What can happen to the application: a click, a key press, or a due `after` callback. */
  datatype Event =
    | FullscreenKey                                       // <F11>
    | CountdownClicked(now: int, later: int, hours: Entry, minutes: Entry)
    | PauseClicked(now: int, later: int)
    | RealTimeClicked(now: int)
    | TickDue(handle: Handle, now: int)

  /** One event, handled. */
  function Step(s: State, e: Event): (r: Effect)
    ensures Inv(s) ==> Inv(r.state)
  {
    match e
    case FullscreenKey => Effect(ToggleFullscreen(s), Returned)
    case CountdownClicked(now, later, hours, minutes) => StartCountdown(s, now, later, hours, minutes)
    case PauseClicked(now, later) => PauseCountdown(s, now, later)
    case RealTimeClicked(now) => Effect(StartRealTime(s, now), Returned)
    case TickDue(h, now) => Fire(s, h, now)
  }

  /**
   * The state after a sequence of events, handled one after another; a raised exception does
   * not stop the loop, so the next event sees every change made before the raise.
   */
  function Run(s: State, events: seq<Event>): (r: State)
    ensures events == [] ==> r == s
    ensures |events| == 1 ==> r == Step(s, events[0]).state
    decreases |events|
  {
    if events == [] then s else Run(Step(s, events[0]).state, events[1..])
  }
}
