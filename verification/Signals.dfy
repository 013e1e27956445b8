/**
  Signal queues and delivery (`kernel/src/process/signal.rs`), after POSIX.1-2017 System Interfaces section
  2.4.1: sending to a thread or a process, and the loop that delivers what is pending.
  */
module Signals {
  import opened Common

  const SIGABRT := 1
  const SIGBUS := 3
  const SIGCHLD := 4
  const SIGCONT := 5
  const SIGFPE := 6
  const SIGILL := 8
  const SIGKILL := 10
  const SIGQUIT := 12
  const SIGSEGV := 13
  const SIGSTOP := 14
  const SIGTSTP := 16
  const SIGTTIN := 17
  const SIGTTOU := 18
  const SIGWINCH := 21
  const SIGSYS := 22
  const SIGTRAP := 23
  const SIGURG := 24
  const SIGXCPU := 26
  const SIGXFSZ := 27
  const SIGIOT := 32
  const MAX_SIGNAL := 33

  datatype DefaultAction = Terminate | CoreDump | Stop | Continue | Ignored

  type Signal = s: int | 1 <= s <= MAX_SIGNAL witness 1

  predicate IsStop(s: Signal) {
    s == SIGSTOP || s == SIGTSTP || s == SIGTTIN || s == SIGTTOU
  }

  function DefaultOf(s: Signal): DefaultAction {
    if IsStop(s) then Stop
    else if s == SIGCONT then Continue
    else if s == SIGCHLD || s == SIGURG || s == SIGWINCH then Ignored
    else if s == SIGQUIT || s == SIGABRT || s == SIGBUS || s == SIGFPE || s == SIGILL || s == SIGSEGV || s == SIGSYS
            || s == SIGTRAP || s == SIGXCPU || s == SIGXFSZ || s == SIGIOT then CoreDump
    else Terminate
  }

  datatype Disposition = Default | Ignore | Handler(address: nat)

  datatype Action = Action(disposition: Disposition, mask: set<Signal>, resetHand: bool, noDefer: bool)

  const DEFAULT := Action(Default, {}, false, false)

  predicate Ignores(a: Action, s: Signal) {
    a.disposition == Ignore || (a.disposition == Default && DefaultOf(s) == Ignored)
  }

  /** Pending signals, each with the information it was first sent with. */
  type Queue = map<Signal, int>

  datatype Thread = Thread(queue: Queue, mask: set<Signal>, restoreMask: Option<set<Signal>>)

  datatype Status = Running | Stopped(signal: Signal)

  datatype Delivery = Delivery(signal: Signal, handler: nat, info: int, oldMask: set<Signal>)

  datatype Decision = Fatal(signal: Signal) | Retry | Nothing | Wait | Deliver(delivery: Delivery)

  /** Nothing comes of the signal. */
  predicate Skipped(a: Action, s: Signal) {
    Ignores(a, s) || (a.disposition == Default && DefaultOf(s) == Continue)
  }

  /** What must come of a signal that is taken from a queue. */
  function Verdict(a: Action, s: Signal, info: int, saved: set<Signal>): (d: Decision)
    ensures d == Retry <==> Skipped(a, s)
  {
    if Skipped(a, s) then Retry
    else if a.disposition.Handler? then Deliver(Delivery(s, a.disposition.address, info, saved))
    else if IsStop(s) then Wait
    else Fatal(s)
  }

  /** What came of the signal: nothing, as it should, or it is what the loop ended with. */
  predicate Answered(a: Action, s: Signal, d: Decision, status: Status) {
    || Skipped(a, s)
    || (d.Deliver? && d.delivery.signal == s && a.disposition == Handler(d.delivery.handler))
    || (a.disposition == Default && if IsStop(s) then d == Wait && status == Stopped(s) else d == Fatal(s))
  }

  function Enqueue(q: Queue, s: Signal, info: int): Queue {
    if s in q then q else q[s := info]
  }

  /** The thread in a handler: its mask gains the handler's mask and the signal itself, unless that is not
      deferred. */
  function Entered(t: Thread, s: Signal, a: Action): Thread {
    t.(mask := Sanitize(t.mask + a.mask + if a.noDefer then {} else {s}), restoreMask := None)
  }

  lemma SameMask(t: Thread, s: Signal, a: Action, mask: set<Signal>)
    requires mask == Sanitize((if a.noDefer then t.mask else t.mask + {s}) + a.mask)
    ensures mask == Entered(t, s, a).mask
  {
  }

  /** In a handler exactly the signals are blocked that were so before or that it asks for, and the signal itself
      unless it is not deferred; SIGKILL and SIGSTOP never are. */
  lemma EnteredBlocks(t: Thread, s: Signal, a: Action, x: Signal)
    ensures x in Entered(t, s, a).mask <==>
            x != SIGKILL && x != SIGSTOP && (x in t.mask || x in a.mask || (x == s && !a.noDefer))
  {
  }

  /** By default every signal ends the process but those that stop or continue it and the three that are ignored. */
  lemma EndsByDefault(s: Signal)
    ensures DefaultOf(s) == Terminate || DefaultOf(s) == CoreDump <==>
            !IsStop(s) && s != SIGCONT && s != SIGCHLD && s != SIGURG && s != SIGWINCH
  {
  }

  /** The mask that the thread goes back to: the one from before a `sigsuspend`, if it is in one. */
  function Saved(t: Thread): set<Signal> {
    if t.restoreMask.Some? then t.restoreMask.value else t.mask
  }

  function Sanitize(m: set<Signal>): set<Signal> {
    m - {SIGKILL, SIGSTOP}
  }

  predicate StopIn(q: Queue) {
    SIGSTOP in q || SIGTSTP in q || SIGTTIN in q || SIGTTOU in q
  }

  /** What a send of `s` throws out of a queue. */
  function Discard(q: Queue, s: Signal): Queue {
    if IsStop(s) then q - {SIGCONT}
    else if s == SIGCONT then q - {SIGSTOP, SIGTSTP, SIGTTIN, SIGTTOU}
    else q
  }

  predicate ContPending(threads: seq<Thread>, shared: Queue) {
    SIGCONT in shared || exists i :: 0 <= i < |threads| && SIGCONT in threads[i].queue
  }

  predicate StopPending(threads: seq<Thread>, shared: Queue) {
    StopIn(shared) || exists i :: 0 <= i < |threads| && StopIn(threads[i].queue)
  }

  /** A send throws out the opposites everywhere and brings nothing in. */
  lemma DiscardClears(threads: seq<Thread>, shared: Queue, s: Signal, threads': seq<Thread>, shared': Queue)
    requires |threads'| == |threads| && shared' == Discard(shared, s)
    requires forall i :: 0 <= i < |threads| ==> threads'[i].queue == Discard(threads[i].queue, s)
    ensures ContPending(threads', shared') ==> ContPending(threads, shared)
    ensures StopPending(threads', shared') ==> StopPending(threads, shared)
    ensures s == SIGCONT ==> !StopPending(threads', shared')
    ensures IsStop(s) ==> !ContPending(threads', shared')
  {
    if i :| 0 <= i < |threads'| && SIGCONT in threads'[i].queue {
      assert SIGCONT in threads[i].queue;
    }
    if i :| 0 <= i < |threads'| && StopIn(threads'[i].queue) {
      assert StopIn(threads[i].queue);
    }
  }

  lemma JoinThread(threads: seq<Thread>, shared: Queue, t: nat, s: Signal, info: int)
    requires t < |threads|
    ensures var threads' := threads[t := threads[t].(queue := Enqueue(threads[t].queue, s, info))];
            && (ContPending(threads', shared) ==> s == SIGCONT || ContPending(threads, shared))
            && (StopPending(threads', shared) ==> IsStop(s) || StopPending(threads, shared))
  {
    var threads' := threads[t := threads[t].(queue := Enqueue(threads[t].queue, s, info))];
    if i :| 0 <= i < |threads'| && SIGCONT in threads'[i].queue {
      assert s == SIGCONT || SIGCONT in threads[i].queue;
    }
    if i :| 0 <= i < |threads'| && StopIn(threads'[i].queue) {
      assert IsStop(s) || StopIn(threads[i].queue);
    }
  }

  lemma JoinShared(threads: seq<Thread>, shared: Queue, s: Signal, info: int)
    ensures var shared' := Enqueue(shared, s, info);
            && (ContPending(threads, shared') ==> s == SIGCONT || ContPending(threads, shared))
            && (StopPending(threads, shared') ==> IsStop(s) || StopPending(threads, shared))
  {
  }

  /** The lowest signal of a set. */
  method Lowest(s: set<Signal>) returns (r: Option<Signal>)
    ensures r == None <==> s == {}
    ensures r.Some? ==> r.value in s && forall x :: x in s ==> r.value <= x
  {
    var i: int := 1;
    while i <= MAX_SIGNAL
      invariant 1 <= i <= MAX_SIGNAL + 1 && forall x :: x in s ==> i <= x
    {
      if i in s {
        return Some(i);
      }
      i := i + 1;
    }
    assert forall x :: x in s ==> false;
    return None;
  }

  /** A signal is dropped when it is sent exactly if it is ignored, can be caught and is not blocked. */
  predicate Kept(s: Signal, blocked: bool, actions: map<Signal, Action>)
    requires s in actions
  {
    s == SIGKILL || s == SIGSTOP || blocked || !Ignores(actions[s], s)
  }

  predicate Deliverable(q: Queue, mask: set<Signal>) {
    exists s: Signal :: s in q && s !in mask
  }

  /** The lowest signal of a queue that is not blocked, with its information. */
  predicate IsLowest(q: Queue, mask: set<Signal>, s: Signal, info: int) {
    s in q && s !in mask && info == q[s] && forall x: Signal :: x in q && x !in mask ==> s <= x
  }

  /** What is delivered next: from the thread's own queue if it has anything, or else from the shared one. */
  predicate IsNext(t: Thread, shared: Queue, s: Signal, info: int) {
    if Deliverable(t.queue, t.mask) then IsLowest(t.queue, t.mask, s, info) else IsLowest(shared, t.mask, s, info)
  }

  class Process {
    var threads: seq<Thread>
    var shared: Queue
    var actions: map<Signal, Action>
    var status: Status

    constructor (threads: seq<Thread>, actions: map<Signal, Action>)
      requires forall i :: 0 <= i < |threads| ==> threads[i].queue == map[]
      requires forall s: Signal :: s in actions
      ensures Valid() && Exclusive() && this.threads == threads && this.actions == actions && shared == map[]
    {
      this.threads, this.actions := threads, actions;
      shared, status := map[], Running;
    }

    ghost predicate Valid()
      reads this`actions
    {
      forall s: Signal :: s in actions
    }

    /** Never SIGCONT and a stop signal together, in whatever queues. */
    ghost predicate Exclusive()
      reads this`threads, this`shared
    {
      !(ContPending(threads, shared) && StopPending(threads, shared))
    }

    /** `prepare_signal`: the opposite signals leave every queue, whatever becomes of the new one. */
    method PrepareSignal(s: Signal, blocked: bool) returns (queueIt: bool)
      requires Valid()
      modifies this`threads, this`shared, this`status
      ensures Valid() && |threads| == |old(threads)|
      ensures forall i :: 0 <= i < |threads| ==> threads[i].queue == Discard(old(threads)[i].queue, s)
      ensures forall i :: 0 <= i < |threads| ==>
                threads[i].mask == old(threads)[i].mask && threads[i].restoreMask == old(threads)[i].restoreMask
      ensures shared == Discard(old(shared), s)
      ensures queueIt <==> Kept(s, blocked, actions)
      ensures status == if s == SIGCONT || s == SIGKILL then Running else old(status)
    {
      if (s == SIGCONT || s == SIGKILL) && status.Stopped? {
        status := Running;
      }
      if s == SIGCONT || IsStop(s) {
        for i := 0 to |threads|
          modifies this`threads
          invariant |threads| == |old(threads)|
          invariant forall j :: 0 <= j < i ==>
                    threads[j] == old(threads)[j].(queue := Discard(old(threads)[j].queue, s))
          invariant forall j :: i <= j < |threads| ==> threads[j] == old(threads)[j]
        {
          threads := threads[i := threads[i].(queue := Discard(threads[i].queue, s))];
        }
        shared := Discard(shared, s);
      }
      queueIt := !(s != SIGKILL && s != SIGSTOP && !blocked && Ignores(actions[s], s));
    }

    /** `send_signal_info_to_thread`: the opposites leave every queue, the signal joins the queue of the thread
        unless it is dropped, and nothing else changes. */
    method SendToThread(t: nat, s: Signal, info: int)
      requires Valid() && t < |threads|
      modifies this`threads, this`shared, this`status
      ensures Valid() && (old(Exclusive()) ==> Exclusive()) && |threads| == |old(threads)|
      ensures shared == Discard(old(shared), s)
      ensures forall i :: 0 <= i < |threads| ==>
                threads[i] == old(threads)[i].(queue :=
                  if i == t && Kept(s, s in old(threads)[t].mask, actions)
                      then Enqueue(Discard(old(threads)[i].queue, s), s, info)
                  else Discard(old(threads)[i].queue, s))
      ensures status == if s == SIGCONT || s == SIGKILL then Running else old(status)
    {
      hide StopIn, ContPending, StopPending;
      var blocked := s in threads[t].mask;
      var queueIt := PrepareSignal(s, blocked);
      DiscardClears(old(threads), old(shared), s, threads, shared);
      JoinThread(threads, shared, t, s, info);
      if queueIt {
        QueueOn(t, s, info);
      }
    }

    /** The second critical section of a send to a thread. */
    method QueueOn(t: nat, s: Signal, info: int)
      requires t < |threads|
      modifies this`threads
      ensures threads == old(threads)[t := old(threads)[t].(queue := Enqueue(old(threads)[t].queue, s, info))]
    {
      threads := threads[t := threads[t].(queue := Enqueue(threads[t].queue, s, info))];
    }

    /** `send_signal_info_to_process`; false when there is no thread. */
    method SendToProcess(s: Signal, info: int) returns (sent: bool)
      requires Valid()
      modifies this`threads, this`shared, this`status
      ensures Valid() && (old(Exclusive()) ==> Exclusive()) && |threads| == |old(threads)|
      ensures sent <==> threads != []
      ensures !sent ==> threads == old(threads) && shared == old(shared) && status == old(status)
      ensures sent ==>
                && (forall i :: 0 <= i < |threads| ==>
                    threads[i] == old(threads)[i].(queue := Discard(old(threads)[i].queue, s)))
                && shared == (if Kept(s, forall i :: 0 <= i < |threads| ==> s in old(threads)[i].mask, actions)
                              then Enqueue(Discard(old(shared), s), s, info) else Discard(old(shared), s))
                && status == if s == SIGCONT || s == SIGKILL then Running else old(status)
    {
      hide StopIn, ContPending, StopPending;
      var allBlocked := true;
      for i := 0 to |threads|
        invariant allBlocked <==> forall j :: 0 <= j < i ==> s in threads[j].mask
      {
        if s !in threads[i].mask {
          allBlocked := false;
        }
      }
      if threads == [] {
        return false;
      }
      var queueIt := PrepareSignal(s, allBlocked);
      DiscardClears(old(threads), old(shared), s, threads, shared);
      JoinShared(threads, shared, s, info);
      if queueIt {
        shared := Enqueue(shared, s, info);
      }
      sent := true;
    }

    /** `force_signal_to_thread`, for the signal of a fault: it is pending, not blocked and not ignored, and
        nothing else changes. */
    method ForceSignal(t: nat, s: Signal, info: int)
      requires Valid() && t < |threads|
      modifies this`threads, this`actions
      ensures Valid() && (old(Exclusive()) && s != SIGCONT && !IsStop(s) ==> Exclusive())
      ensures threads == old(threads)[t := old(threads)[t].(queue := Enqueue(old(threads)[t].queue, s, info),
                                                            mask := old(threads)[t].mask - {s})]
      ensures actions == if old(actions)[s].disposition == Ignore || s in old(threads)[t].mask
                         then old(actions)[s := DEFAULT] else old(actions)
      ensures s in threads[t].queue && s !in threads[t].mask && actions[s].disposition != Ignore
    {
      hide StopIn, ContPending, StopPending;
      var blocked := s in threads[t].mask;
      if actions[s].disposition == Ignore || blocked {
        actions := actions[s := DEFAULT];
      }
      JoinThread(threads, shared, t, s, info);
      ghost var joined := threads[t := threads[t].(queue := Enqueue(threads[t].queue, s, info))];
      SameQueues(joined, shared, t, threads[t].mask - {s}, threads[t].restoreMask);
      threads := threads[t := threads[t].(mask := threads[t].mask - {s})];
      threads := threads[t := threads[t].(queue := Enqueue(threads[t].queue, s, info))];
      assert threads == joined[t := joined[t].(mask := joined[t].mask - {s}, restoreMask := joined[t].restoreMask)];
    }

    /** `sigsuspend`: the mask is replaced for a while. */
    method SigSuspend(t: nat, mask: set<Signal>)
      requires t < |threads| && threads[t].restoreMask == None
      modifies this`threads
      ensures |threads| == |old(threads)| && Saved(threads[t]) == old(threads[t].mask)
                && threads[t].mask == Sanitize(mask)
      ensures old(Exclusive()) ==> Exclusive()
    {
      SameQueues(threads, shared, t, Sanitize(mask), Some(threads[t].mask));
      threads := threads[t := threads[t].(mask := Sanitize(mask), restoreMask := Some(threads[t].mask))];
    }

    /** Pending signals of the thread and the process, and a saved mask: what the delivery loop uses up. */
    ghost function Work(t: nat): nat
      reads this`threads, this`shared
      requires t < |threads|
    {
      |threads[t].queue| + |shared| + if threads[t].restoreMask.Some? then 1 else 0
    }

    /** Nothing that the thread does not block is pending for it. */
    ghost predicate Quiet(t: nat)
      reads this`threads, this`shared
      requires t < |threads|
    {
      forall s: Signal :: s !in threads[t].mask ==> s !in threads[t].queue && s !in shared
    }

    /** The lowest signal that is not blocked, from the thread's own queue first. */
    method Dequeue(t: nat) returns (r: Option<(Signal, int)>)
      requires t < |threads|
      modifies this`threads, this`shared
      ensures |threads| == |old(threads)| && (old(Exclusive()) ==> Exclusive())
      ensures forall i :: 0 <= i < |threads| ==>
                threads[i].mask == old(threads)[i].mask && threads[i].restoreMask == old(threads)[i].restoreMask
      ensures forall i :: 0 <= i < |threads| && i != t ==> threads[i] == old(threads)[i]
      ensures r == None <==> old(Quiet(t))
      ensures r == None ==> threads == old(threads) && shared == old(shared)
      ensures r.Some? ==> Work(t) == old(Work(t)) - 1 && IsNext(old(threads[t]), old(shared), r.value.0, r.value.1)
      ensures r.Some? && old(Deliverable(threads[t].queue, threads[t].mask)) ==>
                threads[t].queue == old(threads[t].queue) - {r.value.0} && shared == old(shared)
      ensures r.Some? && !old(Deliverable(threads[t].queue, threads[t].mask)) ==>
                threads[t].queue == old(threads[t].queue) && shared == old(shared) - {r.value.0}
    {
      hide StopIn, ContPending, StopPending;
      var th := threads[t];
      var own, queue := TakeLowest(th.queue, th.mask);
      if own.Some? {
        Removed(threads, shared, t, own.value.0);
        threads := threads[t := th.(queue := queue)];
        return own;
      }
      var rest;
      r, rest := TakeLowest(shared, th.mask);
      if r.Some? {
        RemovedShared(threads, shared, r.value.0);
      }
      shared := rest;
    }

    /** `prepare_next_signal`: one turn of the delivery loop.  A retry has used up a pending signal or the saved
        mask.  `Wait` stands for a process that is stopped and waits for a SIGCONT. */
    method PrepareNext(t: nat) returns (d: Decision, ghost taken: Option<(Signal, int)>)
      requires Valid() && t < |threads|
      modifies this`threads, this`shared, this`actions, this`status
      ensures Valid() && (old(Exclusive()) ==> Exclusive()) && |threads| == |old(threads)|
      ensures forall i :: 0 <= i < |threads| && i != t ==> threads[i] == old(threads)[i]
      ensures d == Retry ==> Work(t) < old(Work(t))
      ensures d == Retry || d == Nothing || d == Wait ==> Saved(threads[t]) == old(Saved(threads[t]))
      ensures d == Nothing ==> Quiet(t) && threads[t].restoreMask == None
      ensures d == Wait <==> status.Stopped?
      // a running process takes the next signal unless nothing is pending, and that signal gets its answer
      ensures taken.Some? <==> old(status == Running && !Quiet(t))
      ensures taken.Some? ==>
                && IsNext(old(threads[t]), old(shared), taken.value.0, taken.value.1)
                && d == Verdict(old(actions)[taken.value.0], taken.value.0, taken.value.1, old(Saved(threads[t])))
                && status == (if d == Wait then Stopped(taken.value.0) else Running)
      ensures taken == None ==>
                status == old(status) && d == if status.Stopped? then Wait
                                              else if old(threads[t]).restoreMask.Some? then Retry else Nothing
      // it alone leaves its queue, and a handler that is to be reset is
      ensures threads[t].queue == if taken.Some? && old(Deliverable(threads[t].queue, threads[t].mask))
                                  then old(threads[t].queue) - {taken.value.0} else old(threads[t].queue)
      ensures shared == if taken.Some? && !old(Deliverable(threads[t].queue, threads[t].mask))
                        then old(shared) - {taken.value.0} else old(shared)
      ensures actions == if d.Deliver? && old(actions)[d.delivery.signal].resetHand
                         then old(actions)[d.delivery.signal := DEFAULT] else old(actions)
      ensures d.Deliver? ==> Handed(old(threads[t]), old(shared), old(actions), d.delivery, threads[t])
      ensures d.Fatal? ==>
                && taken.Some? && d.signal == taken.value.0 && old(actions)[d.signal].disposition == Default
                && (DefaultOf(d.signal) == Terminate || DefaultOf(d.signal) == CoreDump)
    {
      hide StopIn, ContPending, StopPending, IsNext, IsLowest, Deliverable, Sanitize, IsStop, DefaultOf;
      taken := None;
      if status.Stopped? {
        d := Wait;
        return;
      }
      var r := Dequeue(t);
      taken := r;
      if r == None {
        if threads[t].restoreMask.Some? {
          SameQueues(threads, shared, t, threads[t].restoreMask.value, None);
          threads := threads[t := threads[t].(mask := threads[t].restoreMask.value, restoreMask := None)];
          d := Retry;
          return;
        }
        d := Nothing;
        return;
      }
      VerdictFatal(actions[r.value.0], r.value.0, r.value.1, Saved(threads[t]));
      d := Act(t, r.value.0, r.value.1);
    }

    /** What is done about a signal that was taken. */
    method Act(t: nat, s: Signal, info: int) returns (d: Decision)
      requires Valid() && t < |threads| && status == Running
      modifies this`threads, this`actions, this`status
      ensures Valid() && (old(Exclusive()) ==> Exclusive())
      ensures d == Verdict(old(actions)[s], s, info, old(Saved(threads[t])))
      ensures threads == if d.Deliver? then old(threads)[t := Entered(old(threads)[t], s, old(actions)[s])]
                         else old(threads)
      ensures actions == if d.Deliver? && old(actions)[s].resetHand then old(actions)[s := DEFAULT] else old(actions)
      ensures status == if d == Wait then Stopped(s) else Running
    {
      hide StopIn, ContPending, StopPending, Sanitize;
      var action := actions[s];
      if action.disposition.Handler? && action.resetHand {
        actions := actions[s := DEFAULT];
      }
      match action.disposition
      case Ignore =>
        d := Retry;
      case Default =>
        match DefaultOf(s) {
          case Ignored => d := Retry;
          case Continue => d := Retry;
          case Terminate => d := Fatal(s);
          case CoreDump => d := Fatal(s);
          case Stop =>
            status := Stopped(s);
            d := Wait;
        }
      case Handler(address) =>
        var oldMask := Saved(threads[t]);
        var mask := threads[t].mask;
        if !action.noDefer {
          mask := mask + {s};
        }
        mask := Sanitize(mask + action.mask);
        SameMask(threads[t], s, action, mask);
        SameQueues(threads, shared, t, mask, None);
        threads := threads[t := threads[t].(mask := mask, restoreMask := None)];
        d := Deliver(Delivery(s, address, info, oldMask));
    }

    /** `deliver_pending_signals`, up to the next send: it ends, and then either nothing that is not blocked is
        pending and the mask from before a `sigsuspend` is back, or a handler was entered and that mask is the
        one staged for its return.  No signal is lost on the way. */
    method DeliverPending(t: nat) returns (d: Decision)
      requires Valid() && t < |threads|
      modifies this`threads, this`shared, this`actions, this`status
      ensures Valid() && (old(Exclusive()) ==> Exclusive()) && |threads| == |old(threads)| && d != Retry
      ensures forall i :: 0 <= i < |threads| && i != t ==> threads[i] == old(threads)[i]
      ensures d == Nothing ==> Quiet(t) && threads[t].mask == old(Saved(threads[t])) && threads[t].restoreMask == None
      ensures d.Deliver? ==> d.delivery.oldMask == old(Saved(threads[t])) && threads[t].restoreMask == None
      ensures d == Wait ==> Saved(threads[t]) == old(Saved(threads[t])) && status.Stopped?
      // what left a queue was skipped, or is what the loop ended with; the rest is pending as before
      ensures Fewer(old(threads[t]).queue, threads[t].queue, old(actions), d, status)
      ensures Fewer(old(shared), shared, old(actions), d, status)
      ensures d.Deliver? ==> Had(old(threads[t]).queue, d.delivery) || Had(old(shared), d.delivery)
    {
      hide StopIn, ContPending, StopPending, Fewer, Had, Verdict, IsNext, Deliverable, Quiet, Work, Exclusive, Handed;
      d := Retry;
      FewerNone(threads[t].queue, actions, d, status);
      FewerNone(shared, actions, d, status);
      while d == Retry
        invariant Valid() && (old(Exclusive()) ==> Exclusive()) && |threads| == |old(threads)|
        invariant forall i :: 0 <= i < |threads| && i != t ==> threads[i] == old(threads)[i]
        invariant d == Retry || d == Nothing || d == Wait ==> Saved(threads[t]) == old(Saved(threads[t]))
        invariant d == Nothing ==> Quiet(t) && threads[t].restoreMask == None
        invariant d.Deliver? ==> d.delivery.oldMask == old(Saved(threads[t])) && threads[t].restoreMask == None
        invariant d == Wait ==> status.Stopped?
        invariant d == Retry ==> actions == old(actions)
        invariant Fewer(old(threads[t]).queue, threads[t].queue, old(actions), d, status)
        invariant Fewer(old(shared), shared, old(actions), d, status)
        invariant d.Deliver? ==> Had(old(threads[t]).queue, d.delivery) || Had(old(shared), d.delivery)
        decreases if d == Retry then 1 else 0, Work(t)
      {
        ghost var own, all, st, saved := threads[t].queue, shared, status, Saved(threads[t]);
        ghost var taken, before := None, threads[t];
        d, taken := PrepareNext(t);
        if taken.Some? {
          Step(old(threads[t]).queue, old(shared), before, all, old(actions), taken.value.0, taken.value.1, saved, d,
               st, status);
          if d.Deliver? {
            HandedMask(before, all, old(actions), d.delivery, threads[t]);
          }
        } else {
          FewerStill(old(threads[t]).queue, own, old(actions), st, d, status);
          FewerStill(old(shared), all, old(actions), st, d, status);
        }
      }
    }
  }

  lemma FewerNone(q: Queue, actions: map<Signal, Action>, d: Decision, status: Status)
    ensures Fewer(q, q, actions, d, status)
  {
  }

  /** What was skipped stays answered, whatever comes next. */
  lemma FewerStill(q0: Queue, q1: Queue, actions: map<Signal, Action>, st: Status, d: Decision, status: Status)
    requires Fewer(q0, q1, actions, Retry, st)
    ensures Fewer(q0, q1, actions, d, status)
  {
  }

  lemma FewerLess(q0: Queue, q1: Queue, actions: map<Signal, Action>, st: Status, s: Signal, d: Decision,
                  status: Status)
    requires Fewer(q0, q1, actions, Retry, st) && s in actions && Answered(actions[s], s, d, status)
    ensures Fewer(q0, q1 - {s}, actions, d, status)
  {
  }

  lemma VerdictFatal(a: Action, s: Signal, info: int, saved: set<Signal>)
    ensures var d := Verdict(a, s, info, saved);
            d.Fatal? ==> d.signal == s && a.disposition == Default
                         && (DefaultOf(s) == Terminate || DefaultOf(s) == CoreDump)
  {
  }

  lemma VerdictAnswers(a: Action, s: Signal, info: int, saved: set<Signal>, d: Decision, status: Status)
    requires d == Verdict(a, s, info, saved) && status == if d == Wait then Stopped(s) else Running
    ensures Answered(a, s, d, status)
    ensures d.Deliver? ==> d.delivery.signal == s && d.delivery.info == info && d.delivery.oldMask == saved
  {
  }

  lemma HandedMask(before: Thread, shared: Queue, actions: map<Signal, Action>, d: Delivery, after: Thread)
    requires Handed(before, shared, actions, d, after)
    ensures after.restoreMask == None && d.oldMask == Saved(before)
  {
  }

  /** One more signal is taken and answered. */
  lemma Step(own0: Queue, shared0: Queue, before: Thread, shared: Queue, actions: map<Signal, Action>, s: Signal,
             info: int, saved: set<Signal>, d: Decision, st: Status, status: Status)
    requires Fewer(own0, before.queue, actions, Retry, st) && Fewer(shared0, shared, actions, Retry, st)
    requires IsNext(before, shared, s, info) && s in actions && d == Verdict(actions[s], s, info, saved)
    requires status == if d == Wait then Stopped(s) else Running
    ensures var own := Deliverable(before.queue, before.mask);
            && Fewer(own0, if own then before.queue - {s} else before.queue, actions, d, status)
            && Fewer(shared0, if own then shared else shared - {s}, actions, d, status)
    ensures d.Deliver? ==> Had(own0, d.delivery) || Had(shared0, d.delivery)
  {
    hide Fewer, Answered, Verdict, Deliverable;
    VerdictAnswers(actions[s], s, info, saved, d, status);
    FewerStill(own0, before.queue, actions, st, d, status);
    FewerStill(shared0, shared, actions, st, d, status);
    FewerLess(own0, before.queue, actions, st, s, d, status);
    FewerLess(shared0, shared, actions, st, s, d, status);
    if d.Deliver? {
      HadBefore(own0, before.queue, actions, st, s);
      HadBefore(shared0, shared, actions, st, s);
    }
  }

  lemma HadBefore(q0: Queue, q1: Queue, actions: map<Signal, Action>, st: Status, s: Signal)
    requires Fewer(q0, q1, actions, Retry, st)
    ensures s in q1 ==> s in q0 && q0[s] == q1[s]
  {
  }

  /** The queue lost only signals that were answered, and kept the others with their information. */
  predicate Fewer(before: Queue, after: Queue, actions: map<Signal, Action>, d: Decision, status: Status) {
    && (forall s: Signal :: s in after ==> s in before && after[s] == before[s])
    && (forall s: Signal :: s in before && s !in after ==> s in actions && Answered(actions[s], s, d, status))
  }

  predicate Had(q: Queue, d: Delivery) {
    d.signal in q && q[d.signal] == d.info
  }

  /** The promise is about whole sends.  Two sends whose two critical sections interleave leave both signals
      pending, since neither lock is held across. */
  method InterleavedSends(actions: map<Signal, Action>) returns (p: Process)
    requires (forall s: Signal :: s in actions) && !Ignores(actions[SIGCONT], SIGCONT)
    ensures p.Valid() && !p.Exclusive()
  {
    p := new Process([Thread(map[], {}, None)], actions);
    var a := p.PrepareSignal(SIGCONT, false);
    var b := p.PrepareSignal(SIGSTOP, false);
    assert a && b;
    p.QueueOn(0, SIGCONT, 0);
    p.QueueOn(0, SIGSTOP, 0);
    assert SIGCONT in p.threads[0].queue && StopIn(p.threads[0].queue);
  }

  /** A signal handed to its handler: it was the next to be delivered, and the mask from before is staged. */
  predicate Handed(before: Thread, shared: Queue, actions: map<Signal, Action>, d: Delivery, after: Thread) {
    && d.signal in actions && actions[d.signal].disposition == Handler(d.handler)
    && IsNext(before, shared, d.signal, d.info) && d.oldMask == Saved(before)
    && after == Entered(before, d.signal, actions[d.signal]).(queue := after.queue)
  }

  /** `SigQueue::dequeue`. */
  method TakeLowest(q: Queue, mask: set<Signal>) returns (r: Option<(Signal, int)>, rest: Queue)
    ensures r == None <==> forall s: Signal :: s in q ==> s in mask
    ensures r == None ==> rest == q
    ensures r.Some? ==>
              IsLowest(q, mask, r.value.0, r.value.1) && rest == q - {r.value.0} && |rest| == |q| - 1
  {
    var lowest := Lowest(q.Keys - mask);
    assert forall s: Signal :: s in q && s !in mask ==> s in q.Keys - mask;
    if lowest == None {
      return None, q;
    }
    OneLess(q, lowest.value);
    r, rest := Some((lowest.value, q[lowest.value])), q - {lowest.value};
  }

  lemma RemovedShared(threads: seq<Thread>, shared: Queue, s: Signal)
    ensures ContPending(threads, shared - {s}) ==> ContPending(threads, shared)
    ensures StopPending(threads, shared - {s}) ==> StopPending(threads, shared)
  {
  }

  lemma OneLess(q: Queue, s: Signal)
    requires s in q
    ensures |q - {s}| == |q| - 1
  {
    assert (q - {s}).Keys == q.Keys - {s};
    assert |q.Keys| == |q| && |(q - {s}).Keys| == |q - {s}|;
  }

  lemma Removed(threads: seq<Thread>, shared: Queue, t: nat, s: Signal)
    requires t < |threads|
    ensures var threads' := threads[t := threads[t].(queue := threads[t].queue - {s})];
            && (ContPending(threads', shared) ==> ContPending(threads, shared))
            && (StopPending(threads', shared) ==> StopPending(threads, shared))
  {
    var threads' := threads[t := threads[t].(queue := threads[t].queue - {s})];
    if i :| 0 <= i < |threads'| && SIGCONT in threads'[i].queue {
      assert SIGCONT in threads[i].queue;
    }
    if i :| 0 <= i < |threads'| && StopIn(threads'[i].queue) {
      assert StopIn(threads[i].queue);
    }
  }

  lemma SameQueues(threads: seq<Thread>, shared: Queue, t: nat, mask: set<Signal>, restore: Option<set<Signal>>)
    requires t < |threads|
    ensures var threads' := threads[t := threads[t].(mask := mask, restoreMask := restore)];
            && (ContPending(threads', shared) ==> ContPending(threads, shared))
            && (StopPending(threads', shared) ==> StopPending(threads, shared))
  {
    var threads' := threads[t := threads[t].(mask := mask, restoreMask := restore)];
    assert forall i :: 0 <= i < |threads| ==> threads'[i].queue == threads[i].queue;
  }
}