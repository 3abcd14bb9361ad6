/**
 * `TimerApp` as the object it is in timer.py: its fields are updated in place by the button
 * handlers and by the callbacks the Tk event loop fires. Every method is proved to leave the
 * object in the state the matching function of module Timer computes from the state before,
 * so everything proved there (module TimerProperties) holds of the object.
 */
module App {
  import opened Optional
  import opened Scheduler
  import opened Timer

  class TimerApp
  {
    /** The `after` queue of the time label's Tk interpreter. */
    const loop: EventLoop<Callback>

    var timerRunning: Option<Handle>
    var timerPaused: bool
    var endTime: Option<int>
    var remainingTime: Option<int>
    var isFullscreen: bool
    /** The text of `timer_label`. */
    var display: Label

    /** The object and its `after` queue as one value. */
    ghost function Snapshot(): State
      reads this, loop
    {
      State(timerRunning, timerPaused, endTime, remainingTime, isFullscreen, display, loop.Queue())
    }

    ghost predicate Valid()
      reads this, loop
    {
      Inv(Snapshot())
    }

    /** `__init__`: the label is created empty and nothing is scheduled. */
    constructor ()
      ensures fresh(loop)
      ensures Snapshot() == Initial() && Valid()
    {
      loop := new EventLoop();
      isFullscreen := false;
      timerRunning := None;
      timerPaused := false;
      remainingTime := None;
      endTime := None;
      display := Blank;
    }

    /** `toggle_fullscreen` (the window attribute it also sets is not modelled). */
    method ToggleFullscreen()
      modifies this
      ensures Snapshot() == Timer.ToggleFullscreen(old(Snapshot()))
      ensures old(Valid()) ==> Valid()
    {
      isFullscreen := !isFullscreen;
    }

    /** `start_real_time`. */
    method StartRealTime(now: int)
      modifies this, loop
      ensures Snapshot() == Timer.StartRealTime(old(Snapshot()), now)
      ensures old(Valid()) ==> Valid()
    {
      ResetTimer();
      UpdateTime(now);
    }

    /** `reset_timer`. */
    method ResetTimer()
      modifies this, loop
      ensures Snapshot() == Timer.ResetTimer(old(Snapshot()))
      ensures old(Valid()) ==> Valid()
    {
      if timerRunning.Some? {
        loop.AfterCancel(timerRunning.value);
      }
      timerPaused := false;
    }

    /** `update_time`, run at time `now`. */
    method UpdateTime(now: int)
      modifies this, loop
      ensures Snapshot() == Timer.UpdateTime(old(Snapshot()), now)
    {
      display := WallClock(now);
      var h := loop.After(ClockTick);
      timerRunning := Some(h);
    }

    /**
     * `start_countdown`, clicked with the two entry fields as given; it reads the clock at `now`
     * for `end_time` and `update_countdown` reads it again at `later`.
     */
    method StartCountdown(now: int, later: int, hourEntry: Entry, minuteEntry: Entry) returns (outcome: Outcome)
      modifies this, loop
      ensures Effect(Snapshot(), outcome)
           == Timer.StartCountdown(old(Snapshot()), now, later, hourEntry, minuteEntry)
      ensures old(Valid()) ==> Valid()
    {
      if timerPaused {
        return Returned;
      }
      var hours := EntryValue(hourEntry);
      if hours.None? {
        return Raised(ValueError);
      }
      var minutes := EntryValue(minuteEntry);
      if minutes.None? {
        return Raised(ValueError);
      }
      endTime := Some(now + CountdownLength(hours.value, minutes.value));
      ResetTimer();
      outcome := UpdateCountdown(later);
    }

    /** `update_countdown`, run at time `now`. */
    method UpdateCountdown(now: int) returns (outcome: Outcome)
      modifies this, loop
      ensures Effect(Snapshot(), outcome) == Timer.UpdateCountdown(old(Snapshot()), now)
    {
      if timerPaused {
        return Returned;
      }
      if endTime.None? {
        return Raised(AttributeError);
      }
      var remaining := endTime.value - now;
      if remaining > 0 {
        display := Remaining(WholeSeconds(remaining));
        var h := loop.After(CountdownTick);
        timerRunning := Some(h);
      } else {
        display := Expired;
        timerRunning := None;
      }
      outcome := Returned;
    }

    /**
     * `pause_countdown`, clicked with the clock at `now`; a resume's `update_countdown` reads it
     * again at `later`.
     */
    method PauseCountdown(now: int, later: int) returns (outcome: Outcome)
      modifies this, loop
      ensures Effect(Snapshot(), outcome) == Timer.PauseCountdown(old(Snapshot()), now, later)
      ensures old(Valid()) ==> Valid()
    {
      if timerPaused {
        timerPaused := false;
        if remainingTime.None? {
          return Raised(TypeError);
        }
        endTime := Some(now + remainingTime.value);
        outcome := UpdateCountdown(later);
      } else {
        timerPaused := true;
        if timerRunning.Some? {
          loop.AfterCancel(timerRunning.value);
        }
        if endTime.None? {
          return Raised(AttributeError);
        }
        remainingTime := Some(endTime.value - now);
        outcome := Returned;
      }
    }

    /** The event loop fires the id `h` at time `now` and runs its callback, if it is pending. */
    method Dispatch(h: Handle, now: int) returns (outcome: Outcome)
      modifies this, loop
      ensures Effect(Snapshot(), outcome) == Fire(old(Snapshot()), h, now)
      ensures old(Valid()) ==> Valid() && outcome == Returned
    {
      var cb := loop.Take(h);
      match cb
      case None =>
        outcome := Returned;
      case Some(ClockTick) =>
        UpdateTime(now);
        outcome := Returned;
      case Some(CountdownTick) =>
        outcome := UpdateCountdown(now);
    }
  }
}
