/**
 * Tk's `after` queue, as used through `timer_label.after` and `after_cancel`.
 *
 * `after(1000, fn)` registers `fn` under a fresh id and returns that id; `after_cancel(id)`
 * drops the registration (an id that already fired or was cancelled is ignored); when the
 * event loop runs a callback it first takes it off the queue. The one-second delay itself
 * is not modelled: a pending callback may fire at any later event.
 */
module Scheduler {
  import opened Optional

  /** The id that `after` returns. */
  type Handle = nat

  /** The pending callbacks by id, and the next id `after` will hand out. */
  datatype AfterQueue<C> = AfterQueue(pending: map<Handle, C>, next: Handle)
  {
    /** Every id handed out so far is below `next`, so `next` is not pending. */
    ghost predicate Fresh()
    {
      forall h :: h in pending ==> h < next
    }
  }

  /** `after(ms, cb)`: the new queue and the id of the new registration. */
  function Schedule<C>(q: AfterQueue<C>, cb: C): (r: (AfterQueue<C>, Handle))
    ensures r.1 in r.0.pending && r.0.pending[r.1] == cb
    ensures q.Fresh() ==> r.0.Fresh() && r.1 !in q.pending && r.0.pending == q.pending[r.1 := cb]
  {
    (AfterQueue(q.pending[q.next := cb], q.next + 1), q.next)
  }

  /** `after_cancel(h)`: `h` is no longer pending and every other registration stays. */
  function Cancel<C>(q: AfterQueue<C>, h: Handle): (r: AfterQueue<C>)
    ensures h !in r.pending && r.next == q.next
    ensures forall k :: k in r.pending <==> k in q.pending && k != h
    ensures forall k :: k in r.pending ==> r.pending[k] == q.pending[k]
    ensures h !in q.pending ==> r == q
    ensures q.Fresh() ==> r.Fresh()
  {
    q.(pending := q.pending - {h})
  }

  /** The queue behind a Tk widget, updated in place. */
  class EventLoop<C>
  {
    var pending: map<Handle, C>
    var next: Handle

    /** The queue as a value. */
    function Queue(): AfterQueue<C>
      reads this
    {
      AfterQueue(pending, next)
    }

    constructor ()
      ensures Queue() == AfterQueue(map[], 0)
    {
      pending := map[];
      next := 0;
    }

    /** `widget.after(1000, cb)`. */
    method After(cb: C) returns (h: Handle)
      modifies this
      ensures (Queue(), h) == Schedule(old(Queue()), cb)
    {
      h := next;
      pending := pending[h := cb];
      next := next + 1;
    }

    /** `widget.after_cancel(h)`. */
    method AfterCancel(h: Handle)
      modifies this
      ensures Queue() == Cancel(old(Queue()), h)
    {
      pending := pending - {h};
    }

    /** The loop fires `h`: the registration is removed and its callback handed back to run. */
    method Take(h: Handle) returns (cb: Option<C>)
      modifies this
      ensures Queue() == Cancel(old(Queue()), h)
      ensures h in old(pending) ==> cb == Some(old(pending)[h])
      ensures h !in old(pending) ==> cb == None
    {
      if h in pending {
        cb := Some(pending[h]);
        pending := pending - {h};
      } else {
        cb := None;
      }
    }
  }
}
