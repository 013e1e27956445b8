/**
  Sends of signals that interleave (`kernel/src/process/signal.rs`).  A send throws the opposite signals out of
  one queue after the other and then joins its own; threads take signals out meanwhile.  The steps of any number of
  sends mix freely here.  The kernel holds the lock of the thread list while a send clears the queues of the
  threads, so it mixes less: two sends do not clear them at the same time.
  */
module SignalRace {
  import opened Signals

  datatype Fate = Open | Queued | Dropped

  /** A send: its signal and queue, how many queues it has cleared, and, once queued, the sends that had cleared
      its queue by then. */
  datatype Send = Send(signal: Signal, target: nat, at: nat, fate: Fate, over: set<nat>)

  /** The queues of the threads and the process, and all sends ever begun. */
  datatype State = State(queues: seq<Queue>, sends: seq<Send>)

  datatype Step =
    | Begin(signal: Signal, target: nat)
    | Clear(k: nat)
    | Put(k: nat, info: int)
    | Drop(k: nat)
    | Take(q: nat, s: Signal)

  predicate Opposite(s: Signal, t: Signal) {
    (s == SIGCONT && IsStop(t)) || (IsStop(s) && t == SIGCONT)
  }

  predicate Can(st: State, step: Step) {
    match step
    case Begin(_, target) => target < |st.queues|
    case Clear(k) => k < |st.sends| && st.sends[k].fate == Open && st.sends[k].at < |st.queues|
    case Put(k, _) => k < |st.sends| && st.sends[k].fate == Open && st.sends[k].at == |st.queues|
        && st.sends[k].target < |st.queues|
    case Drop(k) => k < |st.sends| && st.sends[k].fate == Open && st.sends[k].at == |st.queues|
    case Take(q, _) => q < |st.queues|
  }

  /** The sends that have cleared queue `q`. */
  function Over(sends: seq<Send>, q: nat): set<nat> {
    set b | 0 <= b < |sends| && sends[b].at > q
  }

  function Next(st: State, step: Step): State
    requires Can(st, step)
  {
    match step
    case Begin(s, target) => st.(sends := st.sends + [Send(s, target, 0, Open, {})])
    case Clear(k) =>
      var x := st.sends[k];
      State(st.queues[x.at := Discard(st.queues[x.at], x.signal)], st.sends[k := x.(at := x.at + 1)])
    case Put(k, info) =>
      var x := st.sends[k];
      State(st.queues[x.target := Enqueue(st.queues[x.target], x.signal, info)],
            st.sends[k := x.(fate := Queued, over := Over(st.sends, x.target))])
    case Drop(k) => st.(sends := st.sends[k := st.sends[k].(fate := Dropped)])
    case Take(q, s) => st.(queues := st.queues[q := st.queues[q] - {s}])
  }

  predicate Holds(queues: seq<Queue>, s: Signal) {
    exists q :: 0 <= q < |queues| && s in queues[q]
  }

  /** SIGCONT and a stop signal are both pending. */
  predicate Both(queues: seq<Queue>) {
    Holds(queues, SIGCONT) && exists s: Signal :: IsStop(s) && Holds(queues, s)
  }

  /** Each of two opposite sends has cleared the queue of the other before the other joined it. */
  predicate Crossed(st: State, a: nat, b: nat) {
    && a < |st.sends| && b < |st.sends| && Opposite(st.sends[a].signal, st.sends[b].signal)
    && st.sends[a].fate == Queued && st.sends[b].fate == Queued
    && a in st.sends[b].over && b in st.sends[a].over
  }

  // ----- what every step keeps

  predicate Shape(st: State) {
    forall k :: 0 <= k < |st.sends| ==>
      && st.sends[k].target < |st.queues| && st.sends[k].at <= |st.queues|
      && (st.sends[k].fate == Queued ==> st.sends[k].at == |st.queues|)
      && (forall b :: b in st.sends[k].over ==> b < |st.sends| && st.sends[b].at > st.sends[k].target)
  }

  /** Send `a` brought `s` into queue `q`, and no opposite send has cleared the queue since. */
  predicate Origin(st: State, q: nat, s: Signal, a: nat) {
    && a < |st.sends| && st.sends[a].fate == Queued && st.sends[a].target == q && st.sends[a].signal == s
    && forall b :: 0 <= b < |st.sends| && Opposite(st.sends[b].signal, s) && st.sends[b].at > q ==>
        b in st.sends[a].over
  }

  ghost predicate Origins(st: State) {
    forall q, s :: 0 <= q < |st.queues| && s in st.queues[q] ==> exists a :: Origin(st, q, s, a)
  }

  lemma ShapeKeeps(st: State, step: Step)
    requires Shape(st) && Can(st, step)
    ensures Shape(Next(st, step))
  {
  }

  lemma OriginsKeep(st: State, step: Step)
    requires Shape(st) && Origins(st) && Can(st, step)
    ensures Origins(Next(st, step))
  {
    hide Origins, Shape;
    var w := Next(st, step);
    forall q, s | 0 <= q < |w.queues| && s in w.queues[q]
      ensures exists a :: Origin(w, q, s, a)
    {
      if s in st.queues[q] {
        assert exists a :: Origin(st, q, s, a) by { OriginOf(st, q, s); }
        var a :| Origin(st, q, s, a);
        OriginKeeps(st, step, q, s, a);
      } else {
        OriginNew(st, step, q, s);
      }
    }
    OriginsAre(w);
  }

  lemma OriginOf(st: State, q: nat, s: Signal)
    requires Origins(st) && q < |st.queues| && s in st.queues[q]
    ensures exists a :: Origin(st, q, s, a)
  {
  }

  lemma OriginsAre(st: State)
    requires forall q, s :: 0 <= q < |st.queues| && s in st.queues[q] ==> exists a :: Origin(st, q, s, a)
    ensures Origins(st)
  {
  }

  lemma OriginKeeps(st: State, step: Step, q: nat, s: Signal, a: nat)
    requires Shape(st) && Can(st, step) && q < |st.queues| && Origin(st, q, s, a) && s in Next(st, step).queues[q]
    ensures Origin(Next(st, step), q, s, a)
  {
  }

  lemma OriginNew(st: State, step: Step, q: nat, s: Signal)
    requires Shape(st) && Can(st, step) && q < |st.queues| && s !in st.queues[q] && s in Next(st, step).queues[q]
    ensures exists a :: Origin(Next(st, step), q, s, a)
  {
    assert Origin(Next(st, step), q, s, step.k);
  }

  /** A signal that a send has queued is pending there, unless an opposite send has cleared the queue since. */
  ghost predicate Kept(st: State) {
    forall a :: 0 <= a < |st.sends| && st.sends[a].fate == Queued && st.sends[a].target < |st.queues| ==>
      st.sends[a].signal in st.queues[st.sends[a].target] || exists b :: Cleared(st, a, b)
  }

  predicate Cleared(st: State, a: nat, b: nat) {
    && a < |st.sends| && b < |st.sends| && Opposite(st.sends[b].signal, st.sends[a].signal)
    && st.sends[b].at > st.sends[a].target && b !in st.sends[a].over
  }

  lemma KeptKeeps(st: State, step: Step)
    requires Shape(st) && Kept(st) && Can(st, step) && !step.Take?
    ensures Kept(Next(st, step))
  {
    hide Shape, Kept;
    var w := Next(st, step);
    forall a | 0 <= a < |w.sends| && w.sends[a].fate == Queued && w.sends[a].target < |w.queues|
      ensures w.sends[a].signal in w.queues[w.sends[a].target] || exists b :: Cleared(w, a, b)
    {
      if a < |st.sends| && st.sends[a].fate == Queued {
        KeptOf(st, a);
        KeptStill(st, step, a);
      }
    }
    KeptIs(w);
  }

  lemma KeptOf(st: State, a: nat)
    requires Kept(st) && a < |st.sends| && st.sends[a].fate == Queued && st.sends[a].target < |st.queues|
    ensures st.sends[a].signal in st.queues[st.sends[a].target] || exists b :: Cleared(st, a, b)
  {
  }

  lemma KeptIs(st: State)
    requires forall a :: 0 <= a < |st.sends| && st.sends[a].fate == Queued && st.sends[a].target < |st.queues| ==>
               st.sends[a].signal in st.queues[st.sends[a].target] || exists b :: Cleared(st, a, b)
    ensures Kept(st)
  {
  }

  lemma KeptStill(st: State, step: Step, a: nat)
    requires Can(st, step) && !step.Take? && Shape(st)
    requires a < |st.sends| && st.sends[a].fate == Queued && st.sends[a].target < |st.queues|
    requires st.sends[a].signal in st.queues[st.sends[a].target] || exists b :: Cleared(st, a, b)
    ensures var w := Next(st, step);
            w.sends[a].signal in w.queues[w.sends[a].target] || exists b :: Cleared(w, a, b)
  {
    var w := Next(st, step);
    if b :| Cleared(st, a, b) {
      assert Cleared(w, a, b);
    } else if step.Clear? && w.sends[a].signal !in w.queues[w.sends[a].target] {
      assert Cleared(w, a, step.k);
    }
  }

  // ----- runs

  ghost predicate Runs(sts: seq<State>, steps: seq<Step>) {
    && |sts| == |steps| + 1 && sts[0].sends == []
    && (forall q :: 0 <= q < |sts[0].queues| ==> sts[0].queues[q] == map[])
    && forall i :: 0 <= i < |steps| ==> Can(sts[i], steps[i]) && sts[i + 1] == Next(sts[i], steps[i])
  }

  lemma {:induction false} RunKeeps(sts: seq<State>, steps: seq<Step>)
    requires Runs(sts, steps)
    ensures Shape(sts[|steps|]) && Origins(sts[|steps|])
    ensures (forall i :: 0 <= i < |steps| ==> !steps[i].Take?) ==> Kept(sts[|steps|])
  {
    if steps != [] {
      hide Shape, Origins, Kept, Can, Next;
      var n := |steps| - 1;
      RunKeeps(sts[..n + 1], steps[..n]);
      ShapeKeeps(sts[n], steps[n]);
      OriginsKeep(sts[n], steps[n]);
      if forall i :: 0 <= i < |steps| ==> !steps[i].Take? {
        assert forall i :: 0 <= i < n ==> !steps[..n][i].Take?;
        KeptKeeps(sts[n], steps[n]);
      }
    }
  }

  /** However sends interleave, SIGCONT and a stop signal are both pending only if two opposite sends have
      crossed. */
  lemma Exclusive(sts: seq<State>, steps: seq<Step>)
    requires Runs(sts, steps) && Both(sts[|steps|].queues)
    ensures exists a, b :: Crossed(sts[|steps|], a, b)
  {
    hide Origins;
    var st := sts[|steps|];
    RunKeeps(sts, steps);
    var s: Signal :| IsStop(s) && Holds(st.queues, s);
    var q :| 0 <= q < |st.queues| && SIGCONT in st.queues[q];
    var r :| 0 <= r < |st.queues| && s in st.queues[r];
    OriginOf(st, q, SIGCONT);
    OriginOf(st, r, s);
    var a :| Origin(st, q, SIGCONT, a);
    var b :| Origin(st, r, s, b);
    assert Crossed(st, a, b);
  }

  /** Two opposite sends and nothing else: in the end both are pending exactly when they have crossed. */
  lemma TwoSends(sts: seq<State>, steps: seq<Step>)
    requires Runs(sts, steps) && (forall i :: 0 <= i < |steps| ==> !steps[i].Take?)
    requires var st := sts[|steps|];
             |st.sends| == 2 && st.sends[0].fate == Queued && st.sends[1].fate == Queued
    requires Opposite(sts[|steps|].sends[0].signal, sts[|steps|].sends[1].signal)
    ensures Both(sts[|steps|].queues) <==> Crossed(sts[|steps|], 0, 1)
  {
    hide Origins, Kept;
    var st := sts[|steps|];
    RunKeeps(sts, steps);
    if Both(st.queues) {
      Exclusive(sts, steps);
      var a, b :| Crossed(st, a, b);
      assert (a == 0 && b == 1) || (a == 1 && b == 0);
    }
    if Crossed(st, 0, 1) {
      KeptOf(st, 0);
      KeptOf(st, 1);
      assert forall b :: !Cleared(st, 0, b) && !Cleared(st, 1, b);
      assert Holds(st.queues, st.sends[0].signal) && Holds(st.queues, st.sends[1].signal);
    }
  }

  /** A send begins only when no opposite one is under way. */
  predicate InTurn(st: State, step: Step) {
    step.Begin? ==> forall k :: 0 <= k < |st.sends| && Opposite(st.sends[k].signal, step.signal) ==>
        st.sends[k].fate != Open
  }

  /** A later opposite send has not cleared the queue before an earlier one joined it. */
  predicate Ordered(st: State) {
    forall a, b :: 0 <= a < b < |st.sends| && Opposite(st.sends[a].signal, st.sends[b].signal) ==>
      st.sends[a].fate != Open && b !in st.sends[a].over
  }

  lemma OrderedKeeps(st: State, step: Step)
    requires Shape(st) && Ordered(st) && Can(st, step) && InTurn(st, step)
    ensures Ordered(Next(st, step))
  {
  }

  lemma {:induction false} RunOrdered(sts: seq<State>, steps: seq<Step>)
    requires Runs(sts, steps) && forall i :: 0 <= i < |steps| ==> InTurn(sts[i], steps[i])
    ensures Ordered(sts[|steps|])
  {
    if steps != [] {
      hide Shape, Ordered, Can, Next, InTurn;
      var n := |steps| - 1;
      assert forall i :: 0 <= i < n ==> InTurn(sts[..n + 1][i], steps[..n][i]);
      RunOrdered(sts[..n + 1], steps[..n]);
      RunKeeps(sts[..n + 1], steps[..n]);
      OrderedKeeps(sts[n], steps[n]);
    }
  }

  /** If no send begins while an opposite one is under way, SIGCONT and a stop signal are never both pending. */
  lemma InTurnExclusive(sts: seq<State>, steps: seq<Step>)
    requires Runs(sts, steps) && forall i :: 0 <= i < |steps| ==> InTurn(sts[i], steps[i])
    ensures !Both(sts[|steps|].queues)
  {
    hide Both;
    RunOrdered(sts, steps);
    if Both(sts[|steps|].queues) {
      Exclusive(sts, steps);
    }
  }

  // ----- the code

  /** What is left to clear, cleared in one go. */
  function ClearAll(st: State, k: nat): State
    requires k < |st.sends| && st.sends[k].fate == Open && st.sends[k].at <= |st.queues|
    decreases |st.queues| - st.sends[k].at
  {
    if st.sends[k].at == |st.queues| then st else ClearAll(Next(st, Clear(k)), k)
  }

  /** That is `PrepareSignal`: the opposites leave every queue. */
  lemma {:induction false} ClearAllIs(st: State, k: nat)
    requires k < |st.sends| && st.sends[k].fate == Open && st.sends[k].at <= |st.queues|
    ensures |ClearAll(st, k).queues| == |st.queues|
    ensures forall q :: 0 <= q < |st.queues| ==>
              ClearAll(st, k).queues[q] ==
              if q < st.sends[k].at then st.queues[q] else Discard(st.queues[q], st.sends[k].signal)
    ensures ClearAll(st, k).sends == st.sends[k := st.sends[k].(at := |st.queues|)]
    decreases |st.queues| - st.sends[k].at
  {
    if st.sends[k].at < |st.queues| {
      ClearAllIs(Next(st, Clear(k)), k);
    }
  }
}
