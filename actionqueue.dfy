/** The queue that runs the view's asynchronous transitions one after another
    (src/helper/ActionQueue.js).

    `enqueue(action)` pushes a wrapper that awaits `action()`, then dequeues
    itself and runs the next wrapper; when the queue was empty the new wrapper
    is run at once. The wrapper's promise settling is an event from outside,
    so the model has it as a signal: `Resolve` when the running action's
    promise fulfils, `Reject` when it rejects, in which case the `await`
    throws and neither the dequeue nor the `next()` after it ever runs. The
    queue of wrappers is plain FIFO (Queue.js is not part of this model). */
module ActionQueue {

  /** Something that happens to the queue. */
  datatype Signal<A> = Enqueue(action: A) | Resolve | Reject

  /** The queue together with what has been started and finished so far, and
      whether the running action has rejected. */
  datatype State<A> = State(queue: seq<A>, started: seq<A>, finished: seq<A>, blocked: bool)

  function Initial<A>(): State<A>
  {
    State([], [], [], false)
  }

  /** `next()`: the action it runs, the head of the queue if there is one. */
  function Head<A>(queue: seq<A>): seq<A>
  {
    if queue == [] then [] else [queue[0]]
  }

  /** The effect of one signal. A settling with nothing running, or after the
      running action rejected, cannot happen and changes nothing. */
  function Step<A>(st: State<A>, sig: Signal<A>): (r: State<A>)
    ensures sig.Enqueue? ==> r.queue == st.queue + [sig.action] && r.finished == st.finished
    ensures sig.Enqueue? ==> r.started == st.started + (if st.queue == [] then [sig.action] else [])
    ensures st.blocked ==> r.blocked && r.finished == st.finished
    ensures st.blocked && st.queue != [] ==> r.started == st.started
    ensures sig.Resolve? && st.queue != [] && !st.blocked ==>
      r.queue == st.queue[1..] && r.finished == st.finished + [st.queue[0]]
    ensures sig.Reject? ==> r.queue == st.queue && r.started == st.started && r.finished == st.finished
    ensures sig.Reject? ==> (r.blocked <==> st.blocked || st.queue != [])
  {
    match sig
    case Enqueue(a) =>
      st.(queue := st.queue + [a], started := st.started + (if st.queue == [] then [a] else []))
    case Resolve =>
      if st.queue == [] || st.blocked then st
      else st.(queue := st.queue[1..], started := st.started + Head(st.queue[1..]),
               finished := st.finished + [st.queue[0]])
    case Reject =>
      if st.queue == [] || st.blocked then st else st.(blocked := true)
  }

  /** The state after `sigs`, starting from `st`. */
  function Replay<A>(st: State<A>, sigs: seq<Signal<A>>): (r: State<A>)
    ensures st.blocked ==> r.blocked && r.finished == st.finished
  {
    if sigs == [] then st else Step(Replay(st, sigs[..|sigs| - 1]), sigs[|sigs| - 1])
  }

  /** The actions passed to `enqueue`, in order. */
  function Enqueued<A>(sigs: seq<Signal<A>>): (as_: seq<A>)
    ensures |as_| <= |sigs|
  {
    if sigs == [] then []
    else
      var last := sigs[|sigs| - 1];
      Enqueued(sigs[..|sigs| - 1]) + (if last.Enqueue? then [last.action] else [])
  }

  /** What holds of every reachable state: every enqueued action is either
      finished or still queued, in enqueue order; the actions started are the
      finished ones followed by the head of the queue, so at most one action
      runs, it is the head, and actions start in FIFO order; and only a
      running action can have rejected. */
  ghost predicate Sound<A>(st: State<A>, enqueued: seq<A>)
  {
    && enqueued == st.finished + st.queue
    && st.started == st.finished + Head(st.queue)
    && (st.blocked ==> st.queue != [])
  }

  lemma {:induction false} ReplaySound<A>(sigs: seq<Signal<A>>)
    ensures Sound(Replay(Initial(), sigs), Enqueued(sigs))
  {
    if sigs != [] {
      var before := sigs[..|sigs| - 1];
      ReplaySound(before);
      var st := Replay(Initial(), before);
      var next := Step(st, sigs[|sigs| - 1]);
      match sigs[|sigs| - 1]
      case Enqueue(a) =>
        assert st.queue != [] ==> Head(st.queue + [a]) == Head(st.queue);
      case Resolve =>
        if st.queue != [] && !st.blocked {
          assert st.queue == [st.queue[0]] + st.queue[1..];
        }
      case Reject =>
    }
  }

  /** At most one action is running, and it is the oldest unfinished one. */
  lemma AtMostOneRunning<A>(sigs: seq<Signal<A>>)
    ensures var st := Replay(Initial(), sigs);
      && |st.finished| <= |st.started| <= |st.finished| + 1
      && st.finished <= st.started
      && (|st.started| > |st.finished| ==> st.queue != [] && st.started[|st.finished|] == st.queue[0])
      && st.started <= Enqueued(sigs)
  {
    ReplaySound(sigs);
  }

  /** Once the running action has rejected, nothing is ever started or
      finished again: later enqueues only grow the queue behind it. */
  lemma {:induction false} RejectBlocksForever<A>(st: State<A>, more: seq<Signal<A>>)
    requires st.blocked && st.queue != []
    ensures var after := Replay(st, more);
      && after.blocked
      && after.started == st.started && after.finished == st.finished
      && after.queue == st.queue + Enqueued(more)
  {
    if more != [] {
      RejectBlocksForever(st, more[..|more| - 1]);
    }
  }

  /** The queue object: only `queue` is real state; the rest is ghost
      bookkeeping that records what the wrappers have done. */
  class ActionQueue<A> {
    var queue: seq<A>
    ghost var started: seq<A>
    ghost var finished: seq<A>
    ghost var blocked: bool
    ghost var signals: seq<Signal<A>>

    ghost predicate Valid()
      reads this
    {
      Replay(Initial(), signals) == State(queue, started, finished, blocked)
    }

    /** A running action: the head of the queue, unless it has rejected. */
    ghost predicate Running()
      reads this
    {
      queue != [] && !blocked
    }

    constructor ()
      ensures Valid() && queue == [] && signals == []
    {
      queue, started, finished, blocked := [], [], [], false;
      signals := [];
    }

    /** `next()`: runs the head's wrapper, if any; `run` is what it starts. */
    method Next() returns (run: seq<A>)
      ensures |run| <= 1
      ensures run == [] <==> queue == []
      ensures run != [] ==> run[0] == queue[0]
    {
      run := if queue == [] then [] else [queue[0]];
    }

    /** `enqueue(action)`: appends the wrapper and, only if the queue was
        empty, starts it; otherwise the running head is left alone. */
    method Enqueue(a: A) returns (run: seq<A>)
      requires Valid()
      modifies this
      ensures Valid()
      ensures queue == old(queue) + [a]
      ensures run == if old(queue) == [] then [a] else []
      ensures started == old(started) + run
      ensures finished == old(finished) && blocked == old(blocked)
      ensures signals == old(signals) + [Signal.Enqueue(a)]
    {
      var empty := queue == [];
      queue := queue + [a];
      if empty {
        run := Next();
      } else {
        run := [];
      }
      started := started + run;
      signals := signals + [Signal.Enqueue(a)];
      assert signals[..|signals| - 1] == old(signals);
    }

    /** The running action's promise fulfils: its wrapper dequeues it and
        calls `next()`, which starts the new head if there is one. */
    method Complete() returns (run: seq<A>)
      requires Valid() && Running()
      modifies this
      ensures Valid()
      ensures queue == old(queue)[1..]
      ensures finished == old(finished) + [old(queue)[0]]
      ensures run == Head(queue) && started == old(started) + run
      ensures blocked == old(blocked)
      ensures signals == old(signals) + [Resolve]
    {
      finished := finished + [queue[0]];
      queue := queue[1..];
      run := Next();
      started := started + run;
      signals := signals + [Resolve];
      assert signals[..|signals| - 1] == old(signals);
    }

    /** The running action's promise rejects: the `await` in its wrapper
        throws, so the wrapper stays at the head and nothing runs again. */
    method Fail()
      requires Valid() && Running()
      modifies this
      ensures Valid()
      ensures queue == old(queue) && started == old(started) && finished == old(finished)
      ensures blocked
      ensures signals == old(signals) + [Reject]
    {
      blocked := true;
      signals := signals + [Reject];
      assert signals[..|signals| - 1] == old(signals);
    }
  }
}
