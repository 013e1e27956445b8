/**
  The scheduler with the critical sections of a wake, a preemption and an interrupted yield as steps of their own.
  A wake looks at the state of the task in one section, sets its `queued` flag in a second, and puts it into the run
  queue in a third; a preemption sets the flag in the section on the state.  Other CPUs act in between.  As long as
  no flag is set astray, every run of these smaller steps is, up to the tasks that are on their way, a run of the
  machine of `Sched`; and every flag that is set astray breaks what that machine keeps.
  */
module SchedSections {
  import opened Common
  import opened Sched

  /** A task marked as queued that is yet to join the queue of CPU `c`; `own` if that CPU itself puts it there,
      and does nothing else before. */
  datatype Pending = Pending(t: nat, c: nat, own: bool)

  datatype Fine = Fine(sys: Sys, pend: seq<Pending>)

  datatype Small =
    | Sets(task: nat, cpu: nat)
    | Preempts(cpu: nat)
    | Yields(cpu: nat)
    | Joins(i: nat)
    | Other(step: Step)

  predicate Blocked(pend: seq<Pending>, c: nat) {
    exists i :: 0 <= i < |pend| && pend[i].own && pend[i].c == c
  }

  /** The CPU that takes a step of selection. */
  function Selector(step: Step): Option<nat> {
    match step
    case DoPop(c, _) => Some(c)
    case DoSteal(c, _, _) => Some(c)
    case DoPickIdle(c) => Some(c)
    case _ => None
  }

  predicate CanDo(f: Fine, x: Small) {
    match x
    case Sets(t, c) => t in f.sys.tasks && c < |f.sys.cpus|
    case Preempts(c) => Enabled(f.sys, DoPreempt(c))
    case Yields(c) => Enabled(f.sys, DoYield(c))
    case Joins(i) => i < |f.pend| && f.pend[i].c < |f.sys.cpus| && f.pend[i].t in f.sys.tasks
    case Other(step) =>
      && Enabled(f.sys, step) && !step.DoWake? && !step.DoAdd? && !step.DoPreempt? && !step.DoYield?
      && (Selector(step).Some? ==> !Blocked(f.pend, Selector(step).value))
  }

  /** A flag is set astray: the task is in no queue and on its way to none, but a CPU runs it or is about to, or
      another CPU than the one it shall go to has its context. */
  predicate Stray(f: Fine, x: Small) {
    x.Sets? && x.task in f.sys.tasks && !f.sys.tasks[x.task].queued && !MayJoin(f.sys.tasks[x.task], x.cpu)
  }

  /** The task stays ready and is marked as queued, unless it is so already; the CPU goes on to select. */
  function Marks(f: Fine, c: nat, t: nat): Fine
    requires c < |f.sys.cpus| && t in f.sys.tasks
  {
    var r := f.sys.tasks[t];
    Fine(ToSelecting(SetTask(f.sys, t, r.(state := Ready, migratable := false, queued := true)), c),
         if r.queued then f.pend else f.pend + [Pending(t, c, true)])
  }

  function DoSmall(f: Fine, x: Small): Fine
    requires CanDo(f, x)
  {
    match x
    case Sets(t, c) =>
      var r := f.sys.tasks[t];
      if r.queued then f else Fine(SetTask(f.sys, t, r.(queued := true)), f.pend + [Pending(t, c, false)])
    case Preempts(c) =>
      var cur := f.sys.cpus[c].current;
      if cur.Some? && !Gone(f.sys.tasks[cur.value]) then Marks(f, c, cur.value)
      else f.(sys := Preempt(f.sys, c))
    case Yields(c) =>
      var cur := f.sys.cpus[c].current;
      if cur.Some? && !Gone(f.sys.tasks[cur.value]) && f.sys.tasks[cur.value].wakePending then
        Marks(f.(sys := SetTask(f.sys, cur.value, f.sys.tasks[cur.value].(wakePending := false))), c, cur.value)
      else f.(sys := Yield(f.sys, c))
    case Joins(i) =>
      var p := f.pend[i];
      Fine(if p.own then Requeued(f.sys, p.c, p.t) else Push(Account(f.sys, p.c, p.t), p.c, p.t),
           f.pend[..i] + f.pend[i + 1..])
    case Other(step) => f.(sys := Do(f.sys, step))
  }

  // ----- as if all that is on its way had arrived

  function On(pend: seq<Pending>, c: nat): multiset<nat> {
    if pend == [] then multiset{}
    else On(pend[..|pend| - 1], c) + if pend[|pend| - 1].c == c then multiset{pend[|pend| - 1].t} else multiset{}
  }

  /** How many of them are yet to be counted. */
  function Uncounted(pend: seq<Pending>, c: nat): nat {
    if pend == [] then 0
    else Uncounted(pend[..|pend| - 1], c) + if pend[|pend| - 1].c == c && !pend[|pend| - 1].own then 1 else 0
  }

  /** Where a task is on its way to, to be counted there. */
  function Goes(pend: seq<Pending>, t: nat): Option<nat> {
    if pend == [] then None
    else if pend[|pend| - 1].t == t && !pend[|pend| - 1].own then Some(pend[|pend| - 1].c)
    else Goes(pend[..|pend| - 1], t)
  }

  function Arrived(r: Task, to: Option<nat>): Task {
    if to.Some? then r.(counted := true, schedCpu := to.value) else r
  }

  function Lift(cpu: Cpu, pend: seq<Pending>, c: nat): Cpu {
    cpu.(queue := cpu.queue + On(pend, c), load := cpu.load + Uncounted(pend, c))
  }

  function Abs(f: Fine): (s: Sys)
    ensures s.tasks.Keys == f.sys.tasks.Keys && |s.cpus| == |f.sys.cpus|
    ensures forall t :: t in f.sys.tasks ==> s.tasks[t] == Arrived(f.sys.tasks[t], Goes(f.pend, t))
    ensures forall c :: 0 <= c < |f.sys.cpus| ==> s.cpus[c] == Lift(f.sys.cpus[c], f.pend, c)
  {
    Sys(map t | t in f.sys.tasks :: Arrived(f.sys.tasks[t], Goes(f.pend, t)),
        seq(|f.sys.cpus|, c requires 0 <= c < |f.sys.cpus| => Lift(f.sys.cpus[c], f.pend, c)))
  }

  predicate Waits(pend: seq<Pending>, t: nat) {
    exists i :: 0 <= i < |pend| && pend[i].t == t
  }

  predicate PendOk(s: Sys, p: Pending) {
    && p.t in s.tasks && p.c < |s.cpus|
    && (p.own ==> s.tasks[p.t].counted && s.tasks[p.t].schedCpu == p.c && s.cpus[p.c].phase == Selecting)
    && (!p.own ==> !s.tasks[p.t].counted && s.tasks[p.t].schedCpu == NO_CPU)
  }

  ghost predicate FineInv(f: Fine) {
    && Inv(Abs(f))
    && (forall i :: 0 <= i < |f.pend| ==> PendOk(f.sys, f.pend[i]))
    && (forall i, j :: 0 <= i < j < |f.pend| ==> f.pend[i].t != f.pend[j].t)
  }

  lemma InvAbs(f: Fine)
    requires FineInv(f)
    ensures Inv(Abs(f))
  {
  }

  lemma PendAt(f: Fine, i: nat)
    requires FineInv(f) && i < |f.pend|
    ensures PendOk(f.sys, f.pend[i])
  {
  }

  lemma FineInvIs(f: Fine, g: Fine)
    requires FineInv(f) && Inv(Abs(g)) && g.pend == f.pend
    requires forall i :: 0 <= i < |f.pend| ==> PendOk(g.sys, f.pend[i])
    ensures FineInv(g)
  {
    hide Inv, Abs, PendOk;
  }

  lemma {:induction false} OnHas(pend: seq<Pending>, i: nat)
    requires i < |pend|
    ensures pend[i].t in On(pend, pend[i].c)
  {
    if i < |pend| - 1 {
      OnHas(pend[..|pend| - 1], i);
    }
  }

  lemma {:induction false} OnWaits(pend: seq<Pending>, c: nat, t: nat)
    ensures t in On(pend, c) <==> exists i :: 0 <= i < |pend| && pend[i].c == c && pend[i].t == t
  {
    if pend != [] {
      var n := |pend| - 1;
      OnWaits(pend[..n], c, t);
      if i :| 0 <= i < |pend| && pend[i].c == c && pend[i].t == t {
        if i < n {
          assert pend[..n][i] == pend[i];
        }
      }
      if i :| 0 <= i < n && pend[..n][i].c == c && pend[..n][i].t == t {
        assert pend[i].c == c && pend[i].t == t;
      }
    }
  }

  lemma {:induction false} GoesNone(pend: seq<Pending>, t: nat)
    requires !Waits(pend, t)
    ensures Goes(pend, t) == None
  {
    if pend != [] {
      var n := |pend| - 1;
      assert forall i :: 0 <= i < n ==> pend[..n][i] == pend[i];
      GoesNone(pend[..n], t);
      assert pend[n].t != t;
    }
  }

  /** A change of one task and one CPU is the same change when all has arrived. */
  lemma AbsChange(f: Fine, t: nat, r: Task, c: nat, cpu: Cpu)
    requires t in f.sys.tasks && c < |f.sys.cpus|
    ensures Abs(f.(sys := Change(f.sys, t, r, c, cpu))) ==
              Change(Abs(f), t, Arrived(r, Goes(f.pend, t)), c, Lift(cpu, f.pend, c))
  {
    hide Goes, Arrived, Lift, Abs;
    var a := Abs(f.(sys := Change(f.sys, t, r, c, cpu)));
    var b := Change(Abs(f), t, Arrived(r, Goes(f.pend, t)), c, Lift(cpu, f.pend, c));
    SameSys(a, b);
  }

  lemma SameSys(a: Sys, b: Sys)
    requires a.tasks.Keys == b.tasks.Keys && (forall t :: t in a.tasks ==> a.tasks[t] == b.tasks[t])
    requires |a.cpus| == |b.cpus| && (forall c :: 0 <= c < |a.cpus| ==> a.cpus[c] == b.cpus[c])
    ensures a == b
  {
    assert a.tasks == b.tasks && a.cpus == b.cpus;
  }

  /** A CPU whose queue one more task has joined. */
  function Marked(cpu: Cpu, p: Pending): Cpu {
    cpu.(queue := cpu.queue + multiset{p.t}, load := cpu.load + if p.own then 0 else 1)
  }

  lemma LiftAdd(cpu: Cpu, pend: seq<Pending>, p: Pending, c: nat)
    ensures Lift(cpu, pend + [p], c) == if p.c == c then Marked(Lift(cpu, pend, c), p) else Lift(cpu, pend, c)
  {
    assert (pend + [p])[..|pend + [p]| - 1] == pend;
    var q, on, one := cpu.queue, On(pend, c), multiset{p.t};
    assert q + (on + one) == (q + on) + one;
    assert on + multiset{} == on;
  }

  lemma GoesAdd(pend: seq<Pending>, p: Pending, t: nat)
    requires !Waits(pend, p.t)
    ensures Goes(pend + [p], t) == if t == p.t then (if p.own then None else Some(p.c)) else Goes(pend, t)
  {
    assert (pend + [p])[..|pend + [p]| - 1] == pend;
    GoesNone(pend, p.t);
  }

  lemma AbsAdd(f: Fine, p: Pending)
    requires PendOk(f.sys, p) && !Waits(f.pend, p.t)
    ensures Abs(f.(pend := f.pend + [p])) ==
            Change(Abs(f), p.t, Arrived(f.sys.tasks[p.t], if p.own then None else Some(p.c)), p.c,
                Marked(Abs(f).cpus[p.c], p))
  {
    hide Abs, Lift, Goes, Marked, Arrived;
    var g := f.(pend := f.pend + [p]);
    var b := Change(Abs(f), p.t, Arrived(f.sys.tasks[p.t], if p.own then None else Some(p.c)), p.c,
        Marked(Abs(f).cpus[p.c], p));
    forall t | t in f.sys.tasks
      ensures Abs(g).tasks[t] == b.tasks[t]
    {
      GoesAdd(f.pend, p, t);
    }
    forall c | 0 <= c < |f.sys.cpus|
      ensures Abs(g).cpus[c] == b.cpus[c]
    {
      LiftAdd(f.sys.cpus[c], f.pend, p, c);
    }
    SameSys(Abs(g), b);
  }

  // ----- tasks on their way

  lemma WaitsQueued(f: Fine, t: nat)
    requires FineInv(f) && Waits(f.pend, t)
    ensures t in f.sys.tasks && f.sys.tasks[t].queued
    ensures f.sys.tasks[t].state != Running
    ensures forall c :: 0 <= c < |f.sys.cpus| ==> t !in f.sys.cpus[c].queue
  {
    hide Inv, Abs;
    var i :| 0 <= i < |f.pend| && f.pend[i].t == t;
    var d := f.pend[i].c;
    assert PendOk(f.sys, f.pend[i]);
    OnHas(f.pend, i);
    assert t in Abs(f).cpus[d].queue;
    At(Abs(f), t, d);
    forall c | 0 <= c < |f.sys.cpus|
      ensures t !in f.sys.cpus[c].queue
    {
      if t in f.sys.cpus[c].queue {
        At(Abs(f), t, c);
      }
    }
  }

  /** A task that is not on its way looks as if all had arrived. */
  lemma Settled(f: Fine, t: nat)
    requires FineInv(f) && t in f.sys.tasks && !f.sys.tasks[t].queued
    ensures !Waits(f.pend, t) && Goes(f.pend, t) == None && Abs(f).tasks[t] == f.sys.tasks[t]
  {
    hide Inv, Abs;
    if Waits(f.pend, t) {
      WaitsQueued(f, t);
    }
    GoesNone(f.pend, t);
  }

  lemma InQueue(f: Fine, c: nat, t: nat)
    requires FineInv(f) && c < |f.sys.cpus| && t in f.sys.cpus[c].queue
    ensures !Waits(f.pend, t) && Goes(f.pend, t) == None && t in f.sys.tasks && Abs(f).tasks[t] == f.sys.tasks[t]
    ensures t in Abs(f).cpus[c].queue
  {
    hide Inv, Abs;
    if Waits(f.pend, t) {
      WaitsQueued(f, t);
    }
    GoesNone(f.pend, t);
    CpuAt(Abs(f), c);
  }

  /** What a change may not touch: whether a task on its way is counted, and the phase of a CPU that puts one
      there itself. */
  predicate Leaves(f: Fine, t: nat, r: Task, c: nat, cpu: Cpu) {
    && t in f.sys.tasks && c < |f.sys.cpus|
    && (Waits(f.pend, t) ==> r.counted == f.sys.tasks[t].counted && r.schedCpu == f.sys.tasks[t].schedCpu)
    && (Blocked(f.pend, c) ==> cpu.phase == Selecting)
  }

  lemma PendsKept(f: Fine, t: nat, r: Task, c: nat, cpu: Cpu)
    requires FineInv(f) && Leaves(f, t, r, c, cpu)
    ensures forall i :: 0 <= i < |f.pend| ==> PendOk(Change(f.sys, t, r, c, cpu), f.pend[i])
  {
    hide Inv, Abs;
    forall i | 0 <= i < |f.pend|
      ensures PendOk(Change(f.sys, t, r, c, cpu), f.pend[i])
    {
      assert PendOk(f.sys, f.pend[i]);
    }
  }

  /** A small step that changes one task and one CPU, as the step of the machine does. */
  lemma ChangeSim(f: Fine, t: nat, r: Task, c: nat, cpu: Cpu, step: Step)
    requires FineInv(f) && Leaves(f, t, r, c, cpu) && Enabled(Abs(f), step)
    requires Do(Abs(f), step) == Change(Abs(f), t, Arrived(r, Goes(f.pend, t)), c, Lift(cpu, f.pend, c))
    ensures var g := f.(sys := Change(f.sys, t, r, c, cpu)); FineInv(g) && Abs(g) == Do(Abs(f), step)
  {
    hide Inv, Abs, Do, Enabled, PendOk, Lift, Arrived, Goes;
    StepKeeps(Abs(f), step);
    AbsChange(f, t, r, c, cpu);
    PendsKept(f, t, r, c, cpu);
  }

  lemma Unchanged(s: Sys, t: nat, r: Task, c: nat)
    requires c < |s.cpus|
    ensures SetTask(s, t, r) == Change(s, t, r, c, s.cpus[c])
  {
  }

  lemma BlockedSelecting(f: Fine, c: nat)
    requires FineInv(f) && c < |f.sys.cpus| && Blocked(f.pend, c)
    ensures f.sys.cpus[c].phase == Selecting
  {
    var i :| 0 <= i < |f.pend| && f.pend[i].own && f.pend[i].c == c;
    assert PendOk(f.sys, f.pend[i]);
  }

  // ----- every small step

  /** The step of the machine that a small step is; joining a queue is none. */
  function Seen(x: Small): Option<Step> {
    match x
    case Sets(t, c) => Some(DoAdd(t, c))
    case Preempts(c) => Some(DoPreempt(c))
    case Yields(c) => Some(DoYield(c))
    case Joins(_) => None
    case Other(step) => Some(step)
  }

  ghost predicate Simulates(f: Fine, g: Fine, step: Step) {
    FineInv(g) && Enabled(Abs(f), step) && Abs(g) == Do(Abs(f), step)
  }

  lemma SetSim(f: Fine, t: nat, c: nat)
    requires FineInv(f) && CanDo(f, Sets(t, c)) && !Stray(f, Sets(t, c))
    ensures Simulates(f, DoSmall(f, Sets(t, c)), DoAdd(t, c))
  {
    hide Inv, Abs, FineInv, Add, Goes, Lift;
    if f.sys.tasks[t].queued {
      AddNothing(Abs(f), c, t);
    } else {
      EnterSim(f, t, c);
    }
  }

  lemma EnterSim(f: Fine, t: nat, c: nat)
    requires FineInv(f) && CanDo(f, Sets(t, c)) && !f.sys.tasks[t].queued && MayJoin(f.sys.tasks[t], c)
    ensures Simulates(f, DoSmall(f, Sets(t, c)), DoAdd(t, c))
  {
    hide Inv, Abs, Add, Lift, On, Uncounted, Goes, FineInv;
    var r := f.sys.tasks[t].(queued := true);
    Settled(f, t);
    EnterOk(f, t, c);
    Unchanged(f.sys, t, r, c);
    MarkAdd(f, r, c, f.sys.cpus[c], Pending(t, c, false));
    AddIs(Abs(f), c, t);
    MarkSim(f, r, c, f.sys.cpus[c], Pending(t, c, false), DoAdd(t, c));
  }

  lemma EnterOk(f: Fine, t: nat, c: nat)
    requires FineInv(f) && t in f.sys.tasks && c < |f.sys.cpus|
    requires !f.sys.tasks[t].queued && !f.sys.tasks[t].counted
    ensures f.sys.tasks[t].schedCpu == NO_CPU
    ensures Leaves(f, t, f.sys.tasks[t].(queued := true), c, f.sys.cpus[c])
  {
    hide Inv, Abs;
    Settled(f, t);
    At(Abs(f), t, c);
    if Blocked(f.pend, c) {
      BlockedSelecting(f, c);
    }
  }

  lemma AbsSet(f: Fine, t: nat, r: Task)
    requires t in f.sys.tasks
    ensures Abs(f.(sys := SetTask(f.sys, t, r))) == SetTask(Abs(f), t, Arrived(r, Goes(f.pend, t)))
  {
    hide Abs, Arrived, Lift, Goes;
    SameSys(Abs(f.(sys := SetTask(f.sys, t, r))), SetTask(Abs(f), t, Arrived(r, Goes(f.pend, t))));
  }

  /** A change of the state or of `wakePending` of one task. */
  lemma StateSim(f: Fine, t: nat, r: Task, step: Step)
    requires FineInv(f) && t in f.sys.tasks && Enabled(Abs(f), step)
    requires r.counted == f.sys.tasks[t].counted && r.schedCpu == f.sys.tasks[t].schedCpu
    requires Do(Abs(f), step) == SetTask(Abs(f), t, Arrived(r, Goes(f.pend, t)))
    ensures Simulates(f, f.(sys := SetTask(f.sys, t, r)), step)
  {
    hide Inv, Abs, FineInv, Goes, Arrived, Do, Enabled;
    InvAbs(f);
    StepKeeps(Abs(f), step);
    AbsSet(f, t, r);
    var g := f.(sys := SetTask(f.sys, t, r));
    forall i | 0 <= i < |f.pend|
      ensures PendOk(g.sys, f.pend[i])
    {
      PendAt(f, i);
    }
    FineInvIs(f, g);
  }

  lemma LookSim(f: Fine, t: nat)
    requires FineInv(f) && t in f.sys.tasks
    ensures Simulates(f, f.(sys := Look(f.sys, t)), DoLook(t))
  {
    hide Inv, Abs, FineInv, Goes, Lift, Simulates;
    StateSim(f, t, Looked(f.sys.tasks[t]), DoLook(t));
  }

  /** A task is marked and on its way to the CPU that changes with it. */
  lemma MarkAdd(f: Fine, r: Task, c: nat, cpu: Cpu, p: Pending)
    requires Leaves(f, p.t, r, c, cpu) && !Waits(f.pend, p.t) && p.c == c && PendOk(Change(f.sys, p.t, r, c, cpu), p)
    ensures Abs(Fine(Change(f.sys, p.t, r, c, cpu), f.pend + [p])) ==
            Change(Abs(f), p.t, Arrived(r, if p.own then None else Some(c)), c, Marked(Lift(cpu, f.pend, c), p))
  {
    hide Abs, Lift, Goes, Arrived, PendOk, Marked;
    AbsChange(f, p.t, r, c, cpu);
    AbsAdd(f.(sys := Change(f.sys, p.t, r, c, cpu)), p);
    Twice(Abs(f), p.t, c, Arrived(r, Goes(f.pend, p.t)), Lift(cpu, f.pend, c),
        Arrived(r, if p.own then None else Some(c)),
          Marked(Lift(cpu, f.pend, c), p));
  }

  lemma MarkSim(f: Fine, r: Task, c: nat, cpu: Cpu, p: Pending, step: Step)
    requires FineInv(f) && Leaves(f, p.t, r, c, cpu) && !Waits(f.pend, p.t) && PendOk(Change(f.sys, p.t, r, c, cpu), p)
    requires Enabled(Abs(f), step) && Abs(Fine(Change(f.sys, p.t, r, c, cpu), f.pend + [p])) == Do(Abs(f), step)
    ensures Simulates(f, Fine(Change(f.sys, p.t, r, c, cpu), f.pend + [p]), step)
  {
    hide Inv, Abs, Do, Enabled, PendOk;
    StepKeeps(Abs(f), step);
    AddPending(f, r, c, cpu, p);
  }

  lemma Twice(s: Sys, t: nat, c: nat, r: Task, cpu: Cpu, r': Task, cpu': Cpu)
    requires c < |s.cpus|
    ensures Change(Change(s, t, r, c, cpu), t, r', c, cpu') == Change(s, t, r', c, cpu')
  {
  }

  /** One more task on its way. */
  lemma AddPending(f: Fine, r: Task, c: nat, cpu: Cpu, p: Pending)
    requires FineInv(f) && Leaves(f, p.t, r, c, cpu) && !Waits(f.pend, p.t) && PendOk(Change(f.sys, p.t, r, c, cpu), p)
    ensures var pend := f.pend + [p];
            && (forall i :: 0 <= i < |pend| ==> PendOk(Change(f.sys, p.t, r, c, cpu), pend[i]))
            && (forall i, j :: 0 <= i < j < |pend| ==> pend[i].t != pend[j].t)
  {
    hide Inv, Abs, PendOk;
    PendsKept(f, p.t, r, c, cpu);
  }

  /** A small step that changes one CPU only. */
  lemma CpuSim(f: Fine, c: nat, cpu: Cpu, step: Step)
    requires FineInv(f) && c < |f.sys.cpus| && (Blocked(f.pend, c) ==> cpu.phase == Selecting) && Enabled(Abs(f), step)
    requires Do(Abs(f), step) == Abs(f).(cpus := Abs(f).cpus[c := Lift(cpu, f.pend, c)])
    ensures Simulates(f, f.(sys := f.sys.(cpus := f.sys.cpus[c := cpu])), step)
  {
    hide Inv, Abs, Do, Enabled, Lift, Arrived, Goes;
    StepKeeps(Abs(f), step);
    var g := f.(sys := f.sys.(cpus := f.sys.cpus[c := cpu]));
    SameSys(Abs(g), Abs(f).(cpus := Abs(f).cpus[c := Lift(cpu, f.pend, c)]));
    forall i | 0 <= i < |f.pend|
      ensures PendOk(g.sys, f.pend[i])
    {
      assert PendOk(f.sys, f.pend[i]);
    }
  }

  /** A CPU that is not selecting puts nothing into its queue itself. */
  lemma Free(f: Fine, c: nat)
    requires FineInv(f) && c < |f.sys.cpus| && f.sys.cpus[c].phase != Selecting
    ensures !Blocked(f.pend, c) && Abs(f).cpus[c].phase == f.sys.cpus[c].phase
              && Abs(f).cpus[c].current == f.sys.cpus[c].current
  {
    hide Inv, Abs;
    if Blocked(f.pend, c) {
      BlockedSelecting(f, c);
    }
  }

  /** A CPU that engages a task sees it as if all had arrived. */
  lemma EngagedSame(f: Fine, c: nat, t: nat)
    requires FineInv(f) && Engaged(Abs(f).tasks, c, t)
    ensures Engaged(f.sys.tasks, c, t) && !Waits(f.pend, t) && Goes(f.pend, t) == None
              && Abs(f).tasks[t] == f.sys.tasks[t]
  {
    hide Inv, Abs;
    Settled(f, t);
  }

  lemma MarksSim(f: Fine, c: nat, t: nat, r: Task, step: Step)
    requires FineInv(f) && c < |f.sys.cpus| && f.sys.cpus[c].phase == Normal && Engaged(f.sys.tasks, c, t)
              && !Waits(f.pend, t)
    requires r.counted && r.schedCpu == c && Goes(f.pend, t) == None && Enabled(Abs(f), step)
    requires Do(Abs(f), step) == Change(Abs(f), t, r, c,
                                        Abs(f).cpus[c].(queue := Abs(f).cpus[c].queue + multiset{t},
                                                        phase := Selecting))
    ensures Simulates(f,
              Fine(Change(f.sys, t, r, c, f.sys.cpus[c].(phase := Selecting)), f.pend + [Pending(t, c, true)]), step)
  {
    hide Inv, Abs, Do, Enabled, On, Uncounted, Goes, FineInv;
    var cpu, p := f.sys.cpus[c].(phase := Selecting), Pending(t, c, true);
    MarkAdd(f, r, c, cpu, p);
    MarkSim(f, r, c, cpu, p, step);
  }

  lemma PreemptSim(f: Fine, c: nat)
    requires FineInv(f) && CanDo(f, Preempts(c))
    ensures Simulates(f, DoSmall(f, Preempts(c)), DoPreempt(c))
  {
    hide Inv, Abs, Preempt, Unaccount, Requeue;
    Free(f, c);
    CpuAt(Abs(f), c);
    match f.sys.cpus[c].current {
      case None =>
        IdleIs(f.sys, c);
        IdleIs(Abs(f), c);
        CpuSim(f, c, f.sys.cpus[c].(phase := Selecting), DoPreempt(c));
      case Some(t) =>
        EngagedSame(f, c, t);
        PreemptIs(f.sys, c, t);
        PreemptIs(Abs(f), c, t);
        var r, cpu := f.sys.tasks[t], f.sys.cpus[c];
        if Gone(r) {
          ChangeSim(f, t, r.(counted := false, schedCpu := NO_CPU), c, cpu.(load := cpu.load - 1, phase := Selecting),
              DoPreempt(c));
        } else {
          MarksSim(f, c, t, r.(state := Ready, migratable := false, queued := true), DoPreempt(c));
        }
    }
  }

  lemma YieldSim(f: Fine, c: nat)
    requires FineInv(f) && CanDo(f, Yields(c))
    ensures Simulates(f, DoSmall(f, Yields(c)), DoYield(c))
  {
    hide Inv, Abs, Yield, FineInv, On, Uncounted, Goes;
    Free(f, c);
    CpuAtAbs(f, c);
    match f.sys.cpus[c].current {
      case None =>
        IdleIs(f.sys, c);
        IdleIs(Abs(f), c);
        CpuSim(f, c, f.sys.cpus[c].(phase := Selecting), DoYield(c));
      case Some(t) =>
        EngagedSame(f, c, t);
        YieldIs(f.sys, c, t);
        YieldIs(Abs(f), c, t);
        var r, cpu := f.sys.tasks[t], f.sys.cpus[c];
        if Gone(r) {
          ChangeSim(f, t, r.(counted := false, schedCpu := NO_CPU), c, cpu.(load := cpu.load - 1, phase := Selecting),
              DoYield(c));
        } else if r.wakePending {
          var r1 := r.(wakePending := false, state := Ready, migratable := false, queued := true);
          MarksSim(f, c, t, r1, DoYield(c));
          assert f.sys.tasks[t := r.(wakePending := false)][t := r1] == f.sys.tasks[t := r1];
        } else {
          ChangeSim(f, t, r.(state := Waiting, migratable := false, counted := false, schedCpu := NO_CPU),
                    c, cpu.(load := cpu.load - 1, phase := Selecting), DoYield(c));
        }
    }
  }

  lemma CpuAtAbs(f: Fine, c: nat)
    requires FineInv(f) && c < |f.sys.cpus|
    ensures CpuOk(Abs(f).tasks, c, Abs(f).cpus[c])
  {
    hide Inv, Abs;
    CpuAt(Abs(f), c);
  }

  /** Taking a task out of a queue, and bringing others in, can be swapped. */
  lemma PullSwap(q: multiset<nat>, on: multiset<nat>, t: nat)
    requires t in q
    ensures (q - multiset{t}) + on == (q + on) - multiset{t}
  {
  }

  lemma LiftPull(cpu: Cpu, pend: seq<Pending>, c: nat, t: nat)
    requires t in cpu.queue
    ensures var l := Lift(cpu, pend, c);
            Lift(cpu.(queue := cpu.queue - multiset{t}, load := cpu.load - 1), pend, c) ==
            l.(queue := l.queue - multiset{t}, load := l.load - 1)
  {
    PullSwap(cpu.queue, On(pend, c), t);
  }

  lemma PopSim(f: Fine, c: nat, t: nat)
    requires FineInv(f) && CanDo(f, Other(DoPop(c, t)))
    ensures Simulates(f, f.(sys := Pop(f.sys, c, t)), DoPop(c, t))
  {
    hide Inv, Abs, Pop, FineInv, Lift, Goes;
    InQueue(f, c, t);
    QueueFacts(f, c, t);
    PopIs(f.sys, c, t);
    PopIs(Abs(f), c, t);
    var r, cpu := f.sys.tasks[t], f.sys.cpus[c];
    LiftPull(cpu, f.pend, c, t);
    LiftTake(cpu, f.pend, c, t, Chosen(Some(t)));
    if r.state == Ready {
      ChangeSim(f, t, r.(queued := false, state := Running, migratable := true),
                c, cpu.(queue := cpu.queue - multiset{t}, phase := Chosen(Some(t))), DoPop(c, t));
    } else {
      ChangeSim(f, t, r.(queued := false, wakePending := false, counted := false, schedCpu := NO_CPU),
                c, cpu.(queue := cpu.queue - multiset{t}, load := cpu.load - 1), DoPop(c, t));
    }
  }

  lemma LiftTake(cpu: Cpu, pend: seq<Pending>, c: nat, t: nat, phase: Phase)
    requires t in cpu.queue
    ensures var l := Lift(cpu, pend, c);
            && Lift(cpu.(queue := cpu.queue - multiset{t}, phase := phase), pend, c) ==
               l.(queue := l.queue - multiset{t}, phase := phase)
            && l.phase == cpu.phase && l.current == cpu.current
  {
    PullSwap(cpu.queue, On(pend, c), t);
  }

  /** A task in a queue is counted there, and does not run. */
  lemma QueueFacts(f: Fine, c: nat, t: nat)
    requires FineInv(f) && c < |f.sys.cpus| && t in f.sys.cpus[c].queue
    ensures t in f.sys.tasks && f.sys.tasks[t].counted && f.sys.tasks[t].schedCpu == c
    ensures f.sys.tasks[t].state != Running
    ensures f.sys.tasks[t].migratable && !Gone(f.sys.tasks[t]) ==> !f.sys.tasks[t].onCpu
  {
    hide Inv, Abs, Goes, On, Uncounted;
    InQueue(f, c, t);
    CpuAtAbs(f, c);
    TaskAtAbs(f, t);
  }

  lemma TaskAtAbs(f: Fine, t: nat)
    requires FineInv(f) && t in f.sys.tasks
    ensures TaskOk(Abs(f).cpus, t, Abs(f).tasks[t])
  {
    hide Abs;
  }

  lemma PickIdleSim(f: Fine, c: nat)
    requires FineInv(f) && CanDo(f, Other(DoPickIdle(c)))
    ensures Simulates(f, f.(sys := PickIdle(f.sys, c)), DoPickIdle(c))
  {
    hide Inv, Abs, FineInv, On, Uncounted, Goes;
    CpuSim(f, c, f.sys.cpus[c].(phase := Chosen(None)), DoPickIdle(c));
  }

  lemma SwitchSim(f: Fine, c: nat)
    requires FineInv(f) && CanDo(f, Other(DoSwitch(c)))
    ensures Simulates(f, f.(sys := Switch(f.sys, c)), DoSwitch(c))
  {
    hide Inv, Abs, FineInv, On, Uncounted, Goes, Account;
    Free(f, c);
    CpuAtAbs(f, c);
    var to, from := f.sys.cpus[c].phase.to, f.sys.cpus[c].current;
    if from == to {
      CpuSim(f, c, f.sys.cpus[c].(phase := Normal), DoSwitch(c));
    } else if to == None {
      CpuSim(f, c, f.sys.cpus[c].(current := None, phase := Leaving(from)), DoSwitch(c));
    } else {
      EngagedSame(f, c, to.value);
      SwitchIs(f.sys, c, to.value);
      SwitchIs(Abs(f), c, to.value);
      ChangeSim(f, to.value, f.sys.tasks[to.value].(lastCpu := c, onCpu := true),
                c, f.sys.cpus[c].(current := to, phase := Leaving(from)), DoSwitch(c));
    }
  }

  lemma ReleaseSim(f: Fine, c: nat)
    requires FineInv(f) && CanDo(f, Other(DoRelease(c)))
    ensures Simulates(f, f.(sys := Release(f.sys, c)), DoRelease(c))
  {
    hide Inv, Abs, FineInv, On, Uncounted, Goes, Release, Simulates;
    Free(f, c);
    match f.sys.cpus[c].phase.prev {
      case None =>
        ReleaseNone(f.sys, c);
        ReleaseNone(Abs(f), c);
        CpuSim(f, c, f.sys.cpus[c].(phase := Normal), DoRelease(c));
      case Some(t) => ReleaseOneSim(f, c, t);
    }
  }

  lemma ReleaseOneSim(f: Fine, c: nat, t: nat)
    requires FineInv(f) && CanDo(f, Other(DoRelease(c))) && f.sys.cpus[c].phase.prev == Some(t)
    ensures Simulates(f, f.(sys := Release(f.sys, c)), DoRelease(c))
  {
    hide Inv, Abs, FineInv, On, Uncounted, Goes, Release;
    Free(f, c);
    ReleaseIs(f.sys, c, t);
    ReleaseIs(Abs(f), c, t);
    ChangeSim(f, t, f.sys.tasks[t].(onCpu := false), c, f.sys.cpus[c].(phase := Normal), DoRelease(c));
  }

  lemma ReleaseNone(s: Sys, c: nat)
    requires c < |s.cpus| && s.cpus[c].phase == Leaving(None)
    ensures Release(s, c) == s.(cpus := s.cpus[c := s.cpus[c].(phase := Normal)])
  {
  }

  lemma ReleaseIs(s: Sys, c: nat, t: nat)
    requires c < |s.cpus| && s.cpus[c].phase == Leaving(Some(t)) && t in s.tasks
    ensures Release(s, c) == Change(s, t, s.tasks[t].(onCpu := false), c, s.cpus[c].(phase := Normal))
  {
  }

  lemma KillSim(f: Fine, t: nat)
    requires FineInv(f) && t in f.sys.tasks
    ensures Simulates(f, f.(sys := Kill(f.sys, t)), DoKill(t))
  {
    hide Inv, Abs, FineInv, Goes, Lift, Simulates;
    StateSim(f, t, f.sys.tasks[t].(state := Dead), DoKill(t));
  }

  lemma CreateSim(f: Fine, t: nat, bound: bool)
    requires FineInv(f) && t !in f.sys.tasks
    ensures Simulates(f, f.(sys := Create(f.sys, t, bound)), DoCreate(t, bound))
  {
    hide Inv, Abs, On, Uncounted, Lift;
    StepKeeps(Abs(f), DoCreate(t, bound));
    var g := f.(sys := Create(f.sys, t, bound));
    if Waits(f.pend, t) {
      WaitsQueued(f, t);
    }
    GoesNone(f.pend, t);
    SameSys(Abs(g), Create(Abs(f), t, bound));
    forall i | 0 <= i < |f.pend|
      ensures PendOk(g.sys, f.pend[i])
    {
      assert PendOk(f.sys, f.pend[i]);
    }
  }

  lemma LetGoSim(f: Fine, v: nat, t: nat)
    requires FineInv(f) && v < |f.sys.cpus| && t in f.sys.cpus[v].queue && t in f.sys.tasks
    ensures t in Abs(f).tasks && t in Abs(f).cpus[v].queue && Abs(f).tasks[t] == f.sys.tasks[t]
    ensures var g := f.(sys := LetGo(f.sys, v, t)); FineInv(g) && Abs(g) == LetGo(Abs(f), v, t)
  {
    hide Inv, Abs, On, Uncounted, Goes, FineInv, PendOk, Arrived, Lift, LetGo;
    InQueue(f, v, t);
    InvAbs(f);
    LetGoKeeps(Abs(f), v, t);
    LetGoAbs(f, v, t);
    FineInvIs(f, f.(sys := LetGo(f.sys, v, t)));
  }

  /** What the victim of a steal keeps, and what it lets go. */
  function Loose(r: Task): Task {
    r.(queued := false, counted := false, schedCpu := NO_CPU, wakePending := r.wakePending && r.state == Ready)
  }

  function Lighter(cpu: Cpu, t: nat): Cpu {
    cpu.(queue := cpu.queue - multiset{t}, load := cpu.load - 1)
  }

  lemma LetGoIs(s: Sys, v: nat, t: nat)
    requires v < |s.cpus| && t in s.tasks
    ensures LetGo(s, v, t) == Change(s, t, Loose(s.tasks[t]), v, Lighter(s.cpus[v], t))
  {
  }

  lemma LetGoAbs(f: Fine, v: nat, t: nat)
    requires FineInv(f) && v < |f.sys.cpus| && t in f.sys.cpus[v].queue && t in f.sys.tasks && !Waits(f.pend, t)
    requires Goes(f.pend, t) == None && Abs(f).tasks[t] == f.sys.tasks[t]
    ensures Abs(f.(sys := LetGo(f.sys, v, t))) == LetGo(Abs(f), v, t)
    ensures forall i :: 0 <= i < |f.pend| ==> PendOk(LetGo(f.sys, v, t), f.pend[i])
  {
    hide Inv, Abs, Goes, FineInv, PendOk, Lift, LetGo, Loose, Lighter;
    var r, cpu := Loose(f.sys.tasks[t]), Lighter(f.sys.cpus[v], t);
    LetGoIs(f.sys, v, t);
    LetGoIs(Abs(f), v, t);
    LighterLift(f, v, t);
    AbsChange(f, t, r, v, cpu);
    PendsKept(f, t, r, v, cpu);
  }

  lemma LighterLift(f: Fine, v: nat, t: nat)
    requires FineInv(f) && v < |f.sys.cpus| && t in f.sys.cpus[v].queue
    ensures Lift(Lighter(f.sys.cpus[v], t), f.pend, v) == Lighter(Lift(f.sys.cpus[v], f.pend, v), t)
    ensures Blocked(f.pend, v) ==> Lighter(f.sys.cpus[v], t).phase == Selecting
  {
    hide Inv, Abs, Lift, FineInv;
    LiftPull(f.sys.cpus[v], f.pend, v, t);
    if Blocked(f.pend, v) {
      BlockedSelecting(f, v);
    }
  }

  lemma StealSim(f: Fine, c: nat, v: nat, t: nat)
    requires FineInv(f) && CanDo(f, Other(DoSteal(c, v, t)))
    ensures Simulates(f, f.(sys := Steal(f.sys, c, v, t)), DoSteal(c, v, t))
  {
    hide Inv, Abs, Steal, FineInv, On, Uncounted, Goes, LetGo, TakeOver;
    InQueue(f, v, t);
    QueueFacts(f, v, t);
    StealIs(f.sys, c, v, t);
    StealIs(Abs(f), c, v, t);
    LetGoSim(f, v, t);
    LetGoLeaves(f.sys, c, v, t);
    LetGoLeaves(Abs(f), c, v, t);
    InvAbs(f);
    StealKeeps(Abs(f), c, v, t);
    var g := f.(sys := LetGo(f.sys, v, t));
    if f.sys.tasks[t].state == Ready {
      TakeOverSim(g, c, t);
    } else {
      PickIdleSim(g, c);
    }
  }

  lemma LetGoLeaves(s: Sys, c: nat, v: nat, t: nat)
    requires c < |s.cpus| && v < |s.cpus| && c != v && t in s.tasks
    ensures var s' := LetGo(s, v, t);
            && |s'.cpus| == |s.cpus| && s'.cpus[c] == s.cpus[c] && t in s'.tasks
            && s'.tasks[t].state == s.tasks[t].state && s'.tasks[t].onCpu == s.tasks[t].onCpu
            && !s'.tasks[t].queued && !s'.tasks[t].counted
  {
  }

  lemma TakeOverSim(f: Fine, c: nat, t: nat)
    requires FineInv(f) && c < |f.sys.cpus| && f.sys.cpus[c].phase == Selecting && !Blocked(f.pend, c)
    requires t in f.sys.tasks && !f.sys.tasks[t].queued && Inv(TakeOver(Abs(f), c, t))
    ensures FineInv(f.(sys := TakeOver(f.sys, c, t))) && Abs(f.(sys := TakeOver(f.sys, c, t))) == TakeOver(Abs(f), c, t)
  {
    hide Inv, Abs, On, Uncounted, Goes;
    Settled(f, t);
    var r := f.sys.tasks[t].(state := Running, migratable := true, counted := true, schedCpu := c);
    var cpu := f.sys.cpus[c].(load := f.sys.cpus[c].load + 1, phase := Chosen(Some(t)));
    AbsChange(f, t, r, c, cpu);
    PendsKept(f, t, r, c, cpu);
  }

  // ----- arriving

  function Rest(pend: seq<Pending>, i: nat): seq<Pending>
    requires i < |pend|
  {
    pend[..i] + pend[i + 1..]
  }

  lemma RestLast(pend: seq<Pending>, i: nat)
    requires i < |pend|
    ensures i == |pend| - 1 ==> Rest(pend, i) == pend[..|pend| - 1]
    ensures i < |pend| - 1 ==>
              var r := Rest(pend, i);
              r != [] && r[..|r| - 1] == Rest(pend[..|pend| - 1], i) && r[|r| - 1] == pend[|pend| - 1]
  {
  }

  lemma {:induction false} Without(pend: seq<Pending>, i: nat, c: nat)
    requires i < |pend|
    ensures On(pend, c) == On(Rest(pend, i), c) + if pend[i].c == c then multiset{pend[i].t} else multiset{}
    ensures Uncounted(pend, c) == Uncounted(Rest(pend, i), c) + if pend[i].c == c && !pend[i].own then 1 else 0
  {
    RestLast(pend, i);
    if i < |pend| - 1 {
      Without(pend[..|pend| - 1], i, c);
    }
  }

  lemma {:induction false} GoesWithout(pend: seq<Pending>, i: nat, t: nat)
    requires i < |pend| && pend[i].t != t
    ensures Goes(Rest(pend, i), t) == Goes(pend, t)
  {
    RestLast(pend, i);
    if i < |pend| - 1 {
      GoesWithout(pend[..|pend| - 1], i, t);
    }
  }

  lemma {:induction false} GoesIs(pend: seq<Pending>, i: nat)
    requires i < |pend| && forall j, k :: 0 <= j < k < |pend| ==> pend[j].t != pend[k].t
    ensures Goes(pend, pend[i].t) == if pend[i].own then None else Some(pend[i].c)
    ensures Goes(Rest(pend, i), pend[i].t) == None
  {
    var n := |pend| - 1;
    if i < n {
      assert pend[..n][i] == pend[i];
      GoesIs(pend[..n], i);
    } else if pend[i].own {
      GoesNone(pend[..n], pend[i].t);
    }
    GoesNone(Rest(pend, i), pend[i].t);
  }

  lemma JoinIs(f: Fine, i: nat)
    requires CanDo(f, Joins(i)) && PendOk(f.sys, f.pend[i])
    ensures var p := f.pend[i];
            DoSmall(f, Joins(i)) ==
            Fine(Change(f.sys, p.t, Arrived(f.sys.tasks[p.t], if p.own then None else Some(p.c)), p.c,
                Marked(f.sys.cpus[p.c], p)),
                 Rest(f.pend, i))
  {
    var p := f.pend[i];
    assert f.sys.tasks[p.t := f.sys.tasks[p.t]] == f.sys.tasks;
  }

  lemma JoinAbs(f: Fine, i: nat)
    requires FineInv(f) && CanDo(f, Joins(i))
    ensures Abs(DoSmall(f, Joins(i))) == Abs(f)
  {
    hide Inv, Abs, FineInv, DoSmall, Goes, On, Uncounted, Rest, CanDo;
    CanJoin(f, i);
    PendAt(f, i);
    var g, p := DoSmall(f, Joins(i)), f.pend[i];
    JoinIs(f, i);
    Distinct(f);
    GoesIs(f.pend, i);
    forall t | t in f.sys.tasks
      ensures Abs(g).tasks[t] == Abs(f).tasks[t]
    {
      if t != p.t {
        GoesWithout(f.pend, i, t);
      }
    }
    forall c | 0 <= c < |f.sys.cpus|
      ensures Abs(g).cpus[c] == Abs(f).cpus[c]
    {
      Without(f.pend, i, c);
      LiftMarked(f.sys.cpus[c], f.pend, i, c);
    }
    SameSys(Abs(g), Abs(f));
  }

  lemma CanJoin(f: Fine, i: nat)
    requires CanDo(f, Joins(i))
    ensures i < |f.pend| && f.pend[i].c < |f.sys.cpus| && f.pend[i].t in f.sys.tasks
  {
  }

  lemma Distinct(f: Fine)
    requires FineInv(f)
    ensures forall i, j :: 0 <= i < j < |f.pend| ==> f.pend[i].t != f.pend[j].t
  {
  }

  lemma LiftMarked(cpu: Cpu, pend: seq<Pending>, i: nat, c: nat)
    requires i < |pend|
    requires On(pend, c) == On(Rest(pend, i), c) + if pend[i].c == c then multiset{pend[i].t} else multiset{}
    requires Uncounted(pend, c) == Uncounted(Rest(pend, i), c) + if pend[i].c == c && !pend[i].own then 1 else 0
    ensures Lift(cpu, pend, c) == Lift(if pend[i].c == c then Marked(cpu, pend[i]) else cpu, Rest(pend, i), c)
  {
    hide On, Uncounted, Rest;
  }

  lemma JoinSim(f: Fine, i: nat)
    requires FineInv(f) && CanDo(f, Joins(i))
    ensures FineInv(DoSmall(f, Joins(i))) && Abs(DoSmall(f, Joins(i))) == Abs(f)
  {
    hide Inv, Abs, DoSmall, CanDo, PendOk, Change, Rest;
    CanJoin(f, i);
    PendAt(f, i);
    JoinAbs(f, i);
    JoinIs(f, i);
    JoinPends(f, i);
  }

  lemma JoinPends(f: Fine, i: nat)
    requires FineInv(f) && i < |f.pend| && PendOk(f.sys, f.pend[i])
    ensures var p, rest := f.pend[i], Rest(f.pend, i);
            var s := Change(f.sys, p.t, Arrived(f.sys.tasks[p.t], if p.own then None else Some(p.c)), p.c,
                Marked(f.sys.cpus[p.c], p));
            && (forall j :: 0 <= j < |rest| ==> PendOk(s, rest[j]))
            && (forall j, k :: 0 <= j < k < |rest| ==> rest[j].t != rest[k].t)
  {
    hide Inv, Abs, FineInv;
    Distinct(f);
    var rest := Rest(f.pend, i);
    forall j | 0 <= j < |rest|
      ensures rest[j] == f.pend[if j < i then j else j + 1] && PendOk(f.sys, rest[j])
    {
      PendAt(f, if j < i then j else j + 1);
    }
  }

  // ----- runs

  lemma SmallSim(f: Fine, x: Small)
    requires FineInv(f) && CanDo(f, x) && !Stray(f, x)
    ensures FineInv(DoSmall(f, x))
    ensures Seen(x).None? ==> Abs(DoSmall(f, x)) == Abs(f)
    ensures Seen(x).Some? ==> Simulates(f, DoSmall(f, x), Seen(x).value)
  {
    hide Inv, Abs, FineInv, Pop, Steal, PickIdle, Switch, Release, Create;
    match x
    case Sets(t, c) => SetSim(f, t, c);
    case Preempts(c) => PreemptSim(f, c);
    case Yields(c) => YieldSim(f, c);
    case Joins(i) => JoinSim(f, i);
    case Other(step) => OtherSim(f, step);
  }

  lemma OtherSim(f: Fine, step: Step)
    requires FineInv(f) && CanDo(f, Other(step))
    ensures Simulates(f, f.(sys := Do(f.sys, step)), step)
  {
    hide Inv, Abs, FineInv, Pop, Steal, PickIdle, Switch, Release, Create, Kill, Look, Simulates;
    match step
    case DoCreate(t, b) => CreateSim(f, t, b);
    case DoPop(c, t) => PopSim(f, c, t);
    case DoSteal(c, v, t) => StealSim(f, c, v, t);
    case DoPickIdle(c) => PickIdleSim(f, c);
    case DoSwitch(c) => SwitchSim(f, c);
    case DoRelease(c) => ReleaseSim(f, c);
    case DoKill(t) => KillSim(f, t);
    case DoLook(t) => LookSim(f, t);
  }

  /** A run in which no flag is set astray. */
  ghost predicate SmallRun(f: Fine, xs: seq<Small>, g: Fine)
    decreases |xs|
  {
    if xs == [] then g == f else CanDo(f, xs[0]) && !Stray(f, xs[0]) && SmallRun(DoSmall(f, xs[0]), xs[1..], g)
  }

  /** The steps of the machine that a run of small steps makes. */
  function Steps(xs: seq<Small>): seq<Step> {
    if xs == [] then [] else (if Seen(xs[0]).Some? then [Seen(xs[0]).value] else []) + Steps(xs[1..])
  }

  /** With what is on its way counted as arrived, a run of small steps is a run of the machine. */
  lemma {:induction false} Refines(f: Fine, xs: seq<Small>, g: Fine)
    requires FineInv(f) && SmallRun(f, xs, g)
    ensures FineInv(g) && IsRun(Abs(f), Steps(xs), Abs(g))
    decreases |xs|
  {
    hide FineInv, Abs, CanDo, Stray, DoSmall, Do, Enabled;
    if xs != [] {
      SmallSim(f, xs[0]);
      Refines(DoSmall(f, xs[0]), xs[1..], g);
      if Seen(xs[0]).Some? {
        var step := Seen(xs[0]).value;
        assert Steps(xs) == [step] + Steps(xs[1..]) && ([step] + Steps(xs[1..]))[1..] == Steps(xs[1..]);
      } else {
        assert Steps(xs) == [] + Steps(xs[1..]) == Steps(xs[1..]);
      }
    }
  }

  // ----- what it means for the small steps

  lemma {:induction false} Loads(f: Fine, c: nat)
    requires forall i :: 0 <= i < |f.pend| ==> PendOk(f.sys, f.pend[i])
    requires forall i, j :: 0 <= i < j < |f.pend| ==> f.pend[i].t != f.pend[j].t
    requires c < |f.sys.cpus|
    ensures |CountedOn(Abs(f).tasks, c)| == |CountedOn(f.sys.tasks, c)| + Uncounted(f.pend, c)
    decreases |f.pend|
  {
    hide Abs, CountedOn, PendOk;
    if f.pend == [] {
      AllThere(f);
      SameSys(Abs(f), f.sys);
    } else {
      var n := |f.pend| - 1;
      var h, p := f.(pend := f.pend[..n]), f.pend[n];
      Loads(h, c);
      assert f == h.(pend := h.pend + [p]);
      assert !Waits(h.pend, p.t);
      AbsAdd(h, p);
      GoesNone(h.pend, p.t);
      PendRecord(f.sys, p);
      CountSet(Abs(h).tasks, p.t, Arrived(f.sys.tasks[p.t], if p.own then None else Some(p.c)), c);
    }
  }

  lemma PendRecord(s: Sys, p: Pending)
    requires PendOk(s, p)
    ensures p.t in s.tasks && (!p.own ==> !s.tasks[p.t].counted)
  {
  }

  lemma AllThere(f: Fine)
    requires f.pend == []
    ensures forall t :: t in f.sys.tasks ==> Abs(f).tasks[t] == f.sys.tasks[t]
    ensures forall c :: 0 <= c < |f.sys.cpus| ==> Abs(f).cpus[c] == f.sys.cpus[c]
  {
  }

  /** The run queues and contexts, section by section.  A task sits at most once in at most one
      run queue, `queued` says exactly that it sits in one or is on its way to one, and it is never both; while
      its context is loaded that is the queue of that CPU; two CPUs never have it loaded; each load counter is
      the number of tasks counted there. */
  lemma Safety(n: nat, xs: seq<Small>, f: Fine)
    requires SmallRun(Fine(Boot(n), []), xs, f)
    ensures forall c, t :: 0 <= c < |f.sys.cpus| && t in f.sys.cpus[c].queue ==> SitsOnce(f, c, t)
    ensures forall c, d, t ::
              0 <= c < |f.sys.cpus| && 0 <= d < |f.sys.cpus| && t in f.sys.cpus[c].queue && t in f.sys.cpus[d].queue
              ==> c == d
    ensures forall t :: t in f.sys.tasks && f.sys.tasks[t].queued ==>
                Waits(f.pend, t) || exists c :: 0 <= c < |f.sys.cpus| && t in f.sys.cpus[c].queue
    ensures forall c, t :: t in f.sys.tasks && f.sys.tasks[t].onCpu && Bound(f, c, t) ==> f.sys.tasks[t].lastCpu == c
    ensures forall c, d, t ::
              0 <= c < |f.sys.cpus| && 0 <= d < |f.sys.cpus| && Aboard(f.sys.cpus[c], t) && Aboard(f.sys.cpus[d], t)
              ==> c == d
    ensures forall c :: 0 <= c < |f.sys.cpus| ==> f.sys.cpus[c].load == |CountedOn(f.sys.tasks, c)|
  {
    hide SmallRun, FineInv, Abs, On, Uncounted, CountedOn, Waits, Bound, SitsOnce;
    Starts(n);
    Refines(Fine(Boot(n), []), xs, f);
    forall c | 0 <= c < |f.sys.cpus|
      ensures f.sys.cpus[c].load == |CountedOn(f.sys.tasks, c)|
    {
      LoadExact(f, c);
    }
    forall c, t | 0 <= c < |f.sys.cpus| && t in f.sys.cpus[c].queue
      ensures SitsOnce(f, c, t)
    {
      QueuedOnce(f, c, t);
    }
    forall c, d, t | 0 <= c < |f.sys.cpus| && 0 <= d < |f.sys.cpus| && t in f.sys.cpus[c].queue
        && t in f.sys.cpus[d].queue
      ensures c == d
    {
      QueueFacts(f, c, t);
      QueueFacts(f, d, t);
    }
    forall t | t in f.sys.tasks && f.sys.tasks[t].queued
      ensures Waits(f.pend, t) || exists c :: 0 <= c < |f.sys.cpus| && t in f.sys.cpus[c].queue
    {
      QueuedSomewhere(f, t);
    }
    forall c, t | t in f.sys.tasks && f.sys.tasks[t].onCpu && Bound(f, c, t)
      ensures f.sys.tasks[t].lastCpu == c
    {
      LoadedHere(f, c, t);
    }
    forall c, d, t | 0 <= c < |f.sys.cpus| && 0 <= d < |f.sys.cpus| && Aboard(f.sys.cpus[c], t)
        && Aboard(f.sys.cpus[d], t)
      ensures c == d
    {
      AboardOnce(f, c, t);
      AboardOnce(f, d, t);
    }
  }

  /** It sits there once, is marked so and counted there, and is not on its way anywhere; no other CPU has its
      context, and none runs it or is about to. */
  predicate SitsOnce(f: Fine, c: nat, t: nat)
    requires c < |f.sys.cpus|
  {
    && f.sys.cpus[c].queue[t] == 1 && !Waits(f.pend, t) && InLine(f.sys, c, t)
  }

  /** The task waits for its turn on CPU `c`. */
  predicate InLine(s: Sys, c: nat, t: nat) {
    && t in s.tasks && s.tasks[t].queued && s.tasks[t].counted && s.tasks[t].schedCpu == c
    && s.tasks[t].state != Running && (s.tasks[t].onCpu ==> s.tasks[t].lastCpu == c)
    && (forall d :: 0 <= d < |s.cpus| ==> !Holds(s.cpus[d], t))
  }

  /** The task sits in the queue of the CPU, or is on its way to it. */
  predicate Bound(f: Fine, c: nat, t: nat) {
    && c < |f.sys.cpus|
    && (t in f.sys.cpus[c].queue || exists i :: 0 <= i < |f.pend| && f.pend[i].c == c && f.pend[i].t == t)
  }

  lemma LoadExact(f: Fine, c: nat)
    requires FineInv(f) && c < |f.sys.cpus|
    ensures f.sys.cpus[c].load == |CountedOn(f.sys.tasks, c)|
  {
    hide Inv, Abs, On, Uncounted, CountedOn;
    LoadAbs(Abs(f), c);
    Loads(f, c);
  }

  lemma LoadAbs(s: Sys, c: nat)
    requires Inv(s) && c < |s.cpus|
    ensures s.cpus[c].load == |CountedOn(s.tasks, c)|
  {
  }

  lemma LoadedHere(f: Fine, c: nat, t: nat)
    requires FineInv(f) && t in f.sys.tasks && f.sys.tasks[t].onCpu && Bound(f, c, t)
    ensures f.sys.tasks[t].lastCpu == c
  {
    hide Inv, Abs, On, Uncounted;
    CpuAtAbs(f, c);
    TaskAtAbs(f, t);
    OnWaits(f.pend, c, t);
    assert t in Abs(f).cpus[c].queue;
  }

  lemma AboardOnce(f: Fine, c: nat, t: nat)
    requires FineInv(f) && c < |f.sys.cpus| && Aboard(f.sys.cpus[c], t)
    ensures t in f.sys.tasks && f.sys.tasks[t].lastCpu == c
  {
    hide Inv, Abs, On, Uncounted;
    CpuAtAbs(f, c);
  }

  lemma QueuedOnce(f: Fine, c: nat, t: nat)
    requires FineInv(f) && c < |f.sys.cpus| && t in f.sys.cpus[c].queue
    ensures SitsOnce(f, c, t)
  {
    hide Inv, Abs, On, Uncounted;
    InQueue(f, c, t);
    CpuAtAbs(f, c);
    TaskAtAbs(f, t);
    forall d | 0 <= d < |f.sys.cpus|
      ensures !Holds(f.sys.cpus[d], t)
    {
      CpuAtAbs(f, d);
    }
  }

  /** Every flag that is set astray breaks it: once the task has joined the queue, it is not in line there. */
  lemma StrayBreaks(f: Fine, t: nat, c: nat) returns (g: Fine, h: Fine)
    requires FineInv(f) && CanDo(f, Sets(t, c)) && Stray(f, Sets(t, c))
    ensures g == DoSmall(f, Sets(t, c)) && CanDo(g, Joins(|f.pend|)) && h == DoSmall(g, Joins(|f.pend|))
    ensures c < |h.sys.cpus| && t in h.sys.cpus[c].queue && !SitsOnce(h, c, t)
  {
    hide Inv, Abs, On, Uncounted;
    Settled(f, t);
    TaskAtAbs(f, t);
    g := DoSmall(f, Sets(t, c));
    h := DoSmall(g, Joins(|f.pend|));
    var r := f.sys.tasks[t];
    if r.counted {
      assert Holds(h.sys.cpus[r.schedCpu], t);
    }
  }

  /** So the flag may be set exactly when that is not astray. */
  lemma SetIff(f: Fine, t: nat, c: nat)
    requires FineInv(f) && CanDo(f, Sets(t, c))
    ensures FineInv(DoSmall(f, Sets(t, c))) <==> !Stray(f, Sets(t, c))
  {
    hide FineInv, DoSmall, CanDo, Stray, SitsOnce;
    if Stray(f, Sets(t, c)) {
      var g, h := StrayBreaks(f, t, c);
      if FineInv(g) {
        JoinSim(g, |f.pend|);
        QueuedOnce(h, c, t);
      }
    } else {
      SmallSim(f, Sets(t, c));
    }
  }

  lemma QueuedSomewhere(f: Fine, t: nat)
    requires FineInv(f) && t in f.sys.tasks && f.sys.tasks[t].queued
    ensures Waits(f.pend, t) || exists c :: 0 <= c < |f.sys.cpus| && t in f.sys.cpus[c].queue
  {
    hide Inv, Abs, On, Uncounted;
    TaskAtAbs(f, t);
    var c := Abs(f).tasks[t].schedCpu;
    OnWaits(f.pend, c, t);
  }

  lemma Starts(n: nat)
    ensures FineInv(Fine(Boot(n), []))
  {
    hide Inv;
    var f := Fine(Boot(n), []);
    AllThere(f);
    SameSys(Abs(f), Boot(n));
    BootOk(n);
  }

  // ----- a wake that chose its CPU too early

  /** Two CPUs and one task.  The second CPU gets the task, runs it, and puts it to sleep. */
  function Scene(k: nat): Sys {
    var idle := Cpu(None, Normal, 0, multiset{});
    var woken := FRESH.(queued := true, counted := true, schedCpu := 1);
    var running := woken.(queued := false, state := Running, lastCpu := 1, onCpu := true);
    match k
    case 0 => Sys(map[0 := FRESH], [idle, idle])
    case 1 => Sys(map[0 := woken], [idle, Cpu(None, Normal, 1, multiset{0})])
    case 2 => Sys(map[0 := woken], [idle, Cpu(None, Selecting, 1, multiset{0})])
    case 3 => Sys(map[0 := running.(lastCpu := NO_CPU, onCpu := false)],
        [idle, Cpu(None, Chosen(Some(0)), 1, multiset{})])
    case 4 => Sys(map[0 := running], [idle, Cpu(Some(0), Leaving(None), 1, multiset{})])
    case 5 => Sys(map[0 := running], [idle, Cpu(Some(0), Normal, 1, multiset{})])
    case _ => Sys(map[0 := running.(state := Waiting, migratable := false, counted := false, schedCpu := NO_CPU)],
                  [idle, Cpu(Some(0), Selecting, 0, multiset{})])
  }

  ghost predicate Follows(s: Sys, step: Step, s': Sys) {
    Enabled(s, step) && Do(s, step) == s'
  }

  lemma SceneBegins()
    ensures Follows(Boot(2), DoCreate(0, false), Scene(0))
  {
    SameSys(Create(Boot(2), 0, false), Scene(0));
  }

  lemma SceneWakes()
    ensures Follows(Scene(0), DoWake(0, 1), Scene(1))
  {
    hide AddTask;
    EnqueueIs(Scene(0), 1, 0);
    SameSys(Wake(Scene(0), 0, 1), Scene(1));
  }

  lemma ScenePreempts()
    ensures Follows(Scene(1), DoPreempt(1), Scene(2))
  {
    SameSys(Preempt(Scene(1), 1), Scene(2));
  }

  lemma ScenePops()
    ensures Follows(Scene(2), DoPop(1, 0), Scene(3))
  {
    hide Pop;
    PopIs(Scene(2), 1, 0);
    assert multiset{0} - multiset{0} == multiset{};
    SameSys(Pop(Scene(2), 1, 0), Scene(3));
  }

  lemma SceneSwitches()
    ensures Follows(Scene(3), DoSwitch(1), Scene(4))
  {
    SameSys(Switch(Scene(3), 1), Scene(4));
  }

  lemma SceneReleases()
    ensures Follows(Scene(4), DoRelease(1), Scene(5))
  {
    SameSys(Release(Scene(4), 1), Scene(5));
  }

  lemma SceneYields()
    ensures Follows(Scene(5), DoYield(1), Scene(6))
  {
    hide Yield;
    YieldIs(Scene(5), 1, 0);
    SameSys(Yield(Scene(5), 1), Scene(6));
  }

  /** `wake_task` chooses the CPU before it looks at the state of the task.  If the task runs elsewhere and goes
      to sleep in between, the wake puts it into the queue of a CPU that does not have its context, while
      another one still has; `Sched.AddTaskIff` says exactly when that is so. */
  lemma StaleWake() returns (early: Sys, mid: seq<Step>, late: Sys)
    ensures IsRun(Boot(2), [DoCreate(0, false)], early) && IsRun(early, mid, late)
    ensures 0 in early.tasks && WakeTarget(early, 0, 0) == 0 && 0 in late.tasks && |late.cpus| == 2
    ensures var s := AddTask(late, 0, 0);
            |s.cpus| == 2 && 0 in s.cpus[0].queue && Aboard(s.cpus[1], 0) && s.tasks[0].onCpu && s.tasks[0].lastCpu == 1
  {
    hide IsRun, AddTask;
    SceneRun(Scene(0));
    SceneAdds();
    early, late := Scene(0), Scene(6);
    mid := [DoWake(0, 1), DoPreempt(1), DoPop(1, 0), DoSwitch(1), DoRelease(1), DoYield(1)];
  }

  lemma SceneRun(s: Sys)
    requires s == Scene(0)
    ensures IsRun(Boot(2), [DoCreate(0, false)], s)
    ensures IsRun(s, [DoWake(0, 1), DoPreempt(1), DoPop(1, 0), DoSwitch(1), DoRelease(1), DoYield(1)], Scene(6))
  {
    hide IsRun, Scene, Do, Enabled, Boot;
    SceneBegins();
    SceneWakes();
    ScenePreempts();
    ScenePops();
    SceneSwitches();
    SceneReleases();
    SceneYields();
    OneStep(Boot(2), DoCreate(0, false), s);
    var steps := [DoWake(0, 1), DoPreempt(1), DoPop(1, 0), DoSwitch(1), DoRelease(1), DoYield(1)];
    RunOfSix(s, Scene(1), Scene(2), Scene(3), Scene(4), Scene(5), Scene(6), steps);
  }

  lemma SceneAdds()
    ensures var s := AddTask(Scene(6), 0, 0);
            |s.cpus| == 2 && 0 in s.cpus[0].queue && Aboard(s.cpus[1], 0) && s.tasks[0].onCpu && s.tasks[0].lastCpu == 1
  {
    EnqueueIs(Scene(6), 0, 0);
  }

  lemma OneStep(s: Sys, step: Step, s': Sys)
    requires Follows(s, step, s')
    ensures IsRun(s, [step], s')
  {
    hide Do, Enabled;
    assert [step][1..] == [];
  }

  lemma RunOfSix(s: Sys, s1: Sys, s2: Sys, s3: Sys, s4: Sys, s5: Sys, s6: Sys, steps: seq<Step>)
    requires |steps| == 6
    requires Follows(s, steps[0], s1)
    requires Follows(s1, steps[1], s2)
    requires Follows(s2, steps[2], s3)
    requires Follows(s3, steps[3], s4)
    requires Follows(s4, steps[4], s5)
    requires Follows(s5, steps[5], s6)
    ensures IsRun(s, steps, s6)
  {
    hide Do, Enabled;
    OneStep(s5, steps[5], s6);
    assert steps[5..] == [steps[5]];
    assert steps[4..][1..] == steps[5..] && steps[3..][1..] == steps[4..] && steps[2..][1..] == steps[3..];
    assert steps[1..][1..] == steps[2..] && steps[0..] == steps;
    assert IsRun(s4, steps[4..], s6);
    assert IsRun(s3, steps[3..], s6);
    assert IsRun(s2, steps[2..], s6);
    assert IsRun(s1, steps[1..], s6);
  }
}
