/**
 * What the timer's handlers promise together: one live tick chain, a countdown tick either
 * reschedules once or stops for good, pause/resume keeps the time left, and the error paths
 * the code leaves unguarded. That a start or a countdown tick does nothing while paused is
 * stated by the contracts of `StartCountdown` and `UpdateCountdown` themselves.
 */
module TimerProperties {
  import opened Optional
  import opened Scheduler
  import opened Timer

  /** In a state that keeps the invariant at most one tick is pending, and it is `timer_running`. */
  lemma SinglePendingTick(s: State)
    requires Inv(s)
    ensures |s.queue.pending| <= 1
    ensures s.queue.pending != map[] ==>
      s.timerRunning.Some? && s.queue.pending.Keys == {s.timerRunning.value}
  {
    if s.queue.pending != map[] {
      var h :| h in s.queue.pending;
      assert s.queue.pending.Keys == {h};
    }
  }

  /** Every sequence of events keeps the invariant. */
  lemma {:induction false} RunKeepsInv(s: State, events: seq<Event>)
    requires Inv(s)
    ensures Inv(Run(s, events))
    decreases |events|
  {
    if events != [] {
      RunKeepsInv(Step(s, events[0]).state, events[1..]);
    }
  }

  /** Events are handled one after another: running `a` then `b` is running `a + b`. */
  lemma {:induction false} RunConcat(s: State, a: seq<Event>, b: seq<Event>)
    ensures Run(s, a + b) == Run(Run(s, a), b)
    decreases |a|
  {
    if a == [] {
      assert a + b == b;
    } else {
      assert (a + b)[0] == a[0];
      assert (a + b)[1..] == a[1..] + b;
      RunConcat(Step(s, a[0]).state, a[1..], b);
    }
  }

  /** From start-up, whatever the user does and whatever ticks fire, at most one tick is pending. */
  lemma OneTickChainFromStart(events: seq<Event>)
    ensures |Run(Initial(), events).queue.pending| <= 1
    ensures Run(Initial(), events).timerPaused ==> Run(Initial(), events).queue.pending == map[]
  {
    RunKeepsInv(Initial(), events);
    SinglePendingTick(Run(Initial(), events));
  }

  /** An empty entry field starts the same countdown as one holding 0. */
  lemma EmptyEntryCountsAsZero(s: State, now: int, later: int, other: Entry)
    ensures StartCountdown(s, now, later, Empty, other)
         == StartCountdown(s, now, later, Numeral(0), other)
    ensures StartCountdown(s, now, later, other, Empty)
         == StartCountdown(s, now, later, other, Numeral(0))
  {
  }

  /** Starting with `h` hours and `m` minutes ends the countdown `h*3600 + m*60` seconds from now. */
  lemma CountdownEndsAfterEnteredTime(s: State, now: int, later: int, h: int, m: int)
    requires !s.timerPaused
    ensures StartCountdown(s, now, later, Numeral(h), Numeral(m)).state.endTime
         == Some(now + (h * 3600 + m * 60) * MicrosPerSecond)
  {
  }

  /** A duration of whole seconds shows exactly that many seconds. */
  lemma WholeSecondsOfExactDuration(secs: int)
    requires secs > 0
    ensures WholeSeconds(secs * MicrosPerSecond) == secs
  {
  }

  /**
   * Starting a countdown of `h` hours and `m` minutes from a reachable state, with the clock
   * read at `now` for `end_time` and at `later` inside `update_countdown`: the label shows the
   * entered time less the gap between the two readings. While time is left exactly one tick is
   * pending, a fresh countdown tick; otherwise (a total of zero or less, as negative entries
   * allow, or a gap as long as the whole time) "0:00:00" with nothing pending.
   */
  lemma StartShowsEnteredTime(s: State, now: int, later: int, h: int, m: int)
    requires Inv(s) && !s.timerPaused
    ensures var r := StartCountdown(s, now, later, Numeral(h), Numeral(m)).state;
      var left := (h * 3600 + m * 60) * MicrosPerSecond - (later - now);
      && r.display == CountdownLabel(left)
      && (left > 0 ==>
            r.timerRunning.Some? && r.queue.pending == map[r.timerRunning.value := CountdownTick])
      && (left <= 0 ==> r.timerRunning.None? && r.queue.pending == map[])
  {
  }

  /**
   * When the second reading comes less than a second after the first, a positive entered time
   * shows in full if the readings are equal and one second less otherwise (the fraction lost
   * is dropped by truncation): for 0 hours and 1 minute the first label reads 0:00:59.
   */
  lemma StartShowsAtMostOneSecondLess(s: State, now: int, later: int, h: int, m: int)
    requires Inv(s) && !s.timerPaused
    requires h * 3600 + m * 60 > 0 && 0 <= later - now < MicrosPerSecond
    ensures var r := StartCountdown(s, now, later, Numeral(h), Numeral(m)).state;
      r.display == Remaining(if later == now then h * 3600 + m * 60 else h * 3600 + m * 60 - 1)
  {
  }

  /**
   * Starting either mode cancels the tick that was pending before: no id pending before a start
   * is still pending after it (a start that raised on a bad entry changed nothing at all).
   */
  lemma StartCancelsPreviousTick(s: State, now: int, later: int, hours: Entry, minutes: Entry)
    requires Inv(s)
    ensures var r := StartCountdown(s, now, later, hours, minutes);
      r.outcome == Returned ==> forall h :: h in s.queue.pending ==> h !in r.state.queue.pending
    ensures var r := StartRealTime(s, now);
      forall h :: h in s.queue.pending ==> h !in r.queue.pending
  {
  }

  /**
   * A due countdown tick in a reachable state either shows the whole seconds left and leaves
   * exactly one pending tick, a new countdown tick, or shows "0:00:00", forgets the id and
   * leaves nothing pending.
   */
  lemma CountdownTickReschedulesOrExpires(s: State, h: Handle, now: int)
    requires Inv(s) && h in s.queue.pending && s.queue.pending[h] == CountdownTick
    ensures s.endTime.Some?
    ensures var r := Fire(s, h, now);
      && r.outcome == Returned
      && (s.endTime.value > now ==>
            && r.state.display == Remaining(WholeSeconds(s.endTime.value - now))
            && r.state.timerRunning.Some? && r.state.timerRunning != Some(h)
            && r.state.queue.pending == map[r.state.timerRunning.value := CountdownTick])
      && (s.endTime.value <= now ==>
            r.state.display == Expired && r.state.timerRunning.None?
            && r.state.queue.pending == map[])
  {
  }

  /**
   * A due clock tick in a reachable state shows the wall clock and leaves exactly one pending
   * tick, a new clock tick: the real-time chain goes on until something cancels it.
   */
  lemma ClockTickReschedules(s: State, h: Handle, now: int)
    requires Inv(s) && h in s.queue.pending && s.queue.pending[h] == ClockTick
    ensures var r := Fire(s, h, now);
      && r.outcome == Returned
      && r.state.display == WallClock(now)
      && r.state.timerRunning.Some? && r.state.timerRunning != Some(h)
      && r.state.queue.pending == map[r.state.timerRunning.value := ClockTick]
  {
  }

  /**
   * The countdown has run out no later than `t`: the label reads "0:00:00", nothing is pending
   * or remembered, and a captured remaining time, if paused, is not positive.
   */
  ghost predicate Stopped(s: State, t: int)
  {
    && s.display == Expired
    && s.timerRunning.None?
    && s.queue.pending == map[]
    && s.endTime.Some? && s.endTime.value <= t
    && (s.timerPaused ==> s.remainingTime.Some? && s.remainingTime.value <= 0)
  }

  /** The first clock reading an event carries, or `t` for an event that reads no clock. */
  function FirstClockOf(e: Event, t: int): int
  {
    match e
    case FullscreenKey => t
    case CountdownClicked(now, _, _, _) => now
    case PauseClicked(now, _) => now
    case RealTimeClicked(now) => now
    case TickDue(_, now) => now
  }

  /** The last clock reading an event carries, or `t` for an event that reads no clock. */
  function ClockOf(e: Event, t: int): int
  {
    match e
    case CountdownClicked(_, later, _, _) => later
    case PauseClicked(_, later) => later
    case _ => FirstClockOf(e, t)
  }

  /** The events read a clock that never goes back, starting from `t`. */
  ghost predicate ClockForward(events: seq<Event>, t: int)
    decreases |events|
  {
    events != [] ==>
      && t <= FirstClockOf(events[0], t) <= ClockOf(events[0], t)
      && ClockForward(events[1..], ClockOf(events[0], t))
  }

  /** A countdown tick due at or after `end_time` stops the countdown. */
  lemma TickAtEndStops(s: State, h: Handle, now: int)
    requires Inv(s) && h in s.queue.pending && s.queue.pending[h] == CountdownTick
    requires s.endTime.Some? && s.endTime.value <= now
    ensures Stopped(Fire(s, h, now).state, now)
  {
  }

  /** One event other than a start keeps a stopped countdown stopped. */
  lemma StepKeepsStopped(s: State, t: int, e: Event)
    requires Stopped(s, t) && t <= FirstClockOf(e, t) <= ClockOf(e, t)
    requires !e.CountdownClicked? && !e.RealTimeClicked?
    ensures Stopped(Step(s, e).state, ClockOf(e, t))
  {
  }

  /**
   * Expiry is terminal while the clock never goes back: once stopped, no sequence of events
   * without a start click (fullscreen, pause, resume, stale ticks) brings back a tick or a label
   * other than "0:00:00". `datetime.now()` is local time and can step back; see
   * `BackwardClockRevivesExpiry` for what the program does then.
   */
  lemma {:induction false} ExpiryIsTerminal(s: State, t: int, events: seq<Event>)
    requires Stopped(s, t) && ClockForward(events, t)
    requires forall i :: 0 <= i < |events| ==>
      !events[i].CountdownClicked? && !events[i].RealTimeClicked?
    ensures Run(s, events).display == Expired && Run(s, events).queue.pending == map[]
    decreases |events|
  {
    if events != [] {
      StepKeepsStopped(s, t, events[0]);
      ExpiryIsTerminal(Step(s, events[0]).state, ClockOf(events[0], t), events[1..]);
    }
  }

  /**
   * Pausing at `t1` and resuming at `t2` rebuilds `end_time` as `t2 + (end_time - t1)`, so the
   * time left at `t2` is the time left at `t1`. While paused nothing is pending. The resume's
   * `update_countdown` reads the clock again at `t3`: it shows the captured time less `t3 - t2`
   * and, while that is positive, ticking restarts with exactly one countdown tick; otherwise
   * "0:00:00" with nothing pending.
   */
  lemma PauseResumeKeepsRemaining(s: State, t1: int, t2: int, t3: int, unused: int)
    requires Inv(s) && !s.timerPaused && s.endTime.Some?
    ensures var paused := PauseCountdown(s, t1, unused);
      var resumed := PauseCountdown(paused.state, t2, t3);
      var left := (s.endTime.value - t1) - (t3 - t2);
      && paused.outcome == Returned
      && paused.state.timerPaused
      && paused.state.queue.pending == map[]
      && paused.state.remainingTime == Some(s.endTime.value - t1)
      && resumed.outcome == Returned
      && !resumed.state.timerPaused
      && resumed.state.endTime == Some(t2 + (s.endTime.value - t1))
      && resumed.state.endTime.value - t2 == s.endTime.value - t1
      && resumed.state.display == CountdownLabel(left)
      && (left > 0 ==>
            resumed.state.timerRunning.Some?
            && resumed.state.queue.pending == map[resumed.state.timerRunning.value := CountdownTick])
      && (left <= 0 ==> resumed.state.timerRunning.None? && resumed.state.queue.pending == map[])
  {
  }

  /**
   * With a clock that steps back (the naive local time `datetime.now()` returns can), a stopped
   * countdown comes back: paused at a reading `t1` before `end_time` and resumed, it captures a
   * positive time left, shows it again and ticks.
   */
  lemma BackwardClockRevivesExpiry(s: State, t: int, t1: int, t2: int, t3: int, unused: int)
    requires Stopped(s, t) && !s.timerPaused
    requires t1 < s.endTime.value && t3 - t2 < s.endTime.value - t1
    ensures var resumed := PauseCountdown(PauseCountdown(s, t1, unused).state, t2, t3).state;
      && resumed.display == Remaining(WholeSeconds(s.endTime.value - t1 - (t3 - t2)))
      && resumed.timerRunning.Some?
      && resumed.queue.pending == map[resumed.timerRunning.value := CountdownTick]
  {
  }

  /**
   * Pausing before any countdown was started raises AttributeError after setting the flag,
   * and the next click on pause then raises TypeError (there is no captured time to add).
   */
  lemma PauseBeforeAnyCountdownRaises(t1: int, t2: int, t3: int, t4: int)
    ensures var first := PauseCountdown(Initial(), t1, t2);
      var second := PauseCountdown(first.state, t3, t4);
      && first == Effect(Initial().(timerPaused := true), Raised(AttributeError))
      && second == Effect(Initial(), Raised(TypeError))
  {
  }

  /**
   * Pausing in real-time mode cancels the clock tick, so the clock stops; it raises
   * AttributeError unless an earlier countdown assigned `end_time`, in which case it captures
   * that countdown's time left. The real-time tick itself never looks at the pause flag.
   */
  lemma PauseInRealTimeMode(s: State, t0: int, t1: int, unused: int)
    requires Inv(s)
    ensures var clock := StartRealTime(s, t0);
      var p := PauseCountdown(clock, t1, unused);
      && p.state.timerPaused
      && p.state.queue.pending == map[]
      && p.state.display == WallClock(t0)
      && (s.endTime.None? ==> p.outcome == Raised(AttributeError))
      && (s.endTime.Some? ==>
            p.outcome == Returned && p.state.remainingTime == Some(s.endTime.value - t1))
  {
  }

  /** Toggling fullscreen twice restores the state. */
  lemma ToggleTwiceRestores(s: State)
    ensures ToggleFullscreen(ToggleFullscreen(s)) == s
  {
  }
}
