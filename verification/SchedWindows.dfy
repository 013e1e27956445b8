/**
  The scheduler with the selection of a task in its three parts: `next` and `try_steal` take the task out of a
  run queue, clear its `queued` flag, and then look at its state, each in a section of its own.  A wake remembers,
  from its look at the state to its setting of the flag, which task it saw and where it shall go.  Unless a flag is
  set too late, after the task was taken out or loaded elsewhere, this is a run of the steps of `SchedSections`, and
  so of `Sched`; a flag that is set too late always breaks what these keep.
  */
module SchedWindows {
  import opened Common
  import opened Sched
  import opened SchedSections
  import C = SchedCode

  /** CPU `c` has taken task `t` out of the queue of `v`, and has cleared its flag or not yet. */
  datatype Take = Take(t: nat, c: nat, v: nat, cleared: bool)

  /** A wake that has seen task `t` ready or waiting, and will set its flag to put it into the queue of CPU `c`. */
  datatype Waker = Waker(t: nat, c: nat)

  datatype Tiny = Tiny(f: Fine, takes: seq<Take>, wakers: seq<Waker>)

  datatype Micro =
    | Does(x: Small)
    | Glances(t: nat, c: nat)
    | Flags(i: nat)
    | TakesOut(c: nat, v: nat, t: nat)
    | Clears(i: nat)
    | Settles(i: nat)

  predicate Busy(takes: seq<Take>, c: nat) {
    exists i :: 0 <= i < |takes| && takes[i].c == c
  }

  predicate IsOut(takes: seq<Take>, t: nat) {
    exists i :: 0 <= i < |takes| && takes[i].t == t
  }

  /** The task was taken out of a queue and its flag is not yet cleared. */
  predicate StillFlagged(takes: seq<Take>, t: nat) {
    exists i :: 0 <= i < |takes| && takes[i].t == t && !takes[i].cleared
  }

  /** The steps of `SchedSections` that have steps of their own here. */
  predicate Divided(x: Small) {
    x.Sets? || (x.Other? && (x.step.DoPop? || x.step.DoSteal? || x.step.DoLook?))
  }

  predicate CanMicro(y: Tiny, m: Micro) {
    match m
    case Does(x) =>
      && CanDo(y.f, x) && !Divided(x)
      && (x.Other? && x.step.DoPickIdle? ==> !Busy(y.takes, x.step.cpu))
    case Glances(t, c) => t in y.f.sys.tasks && c < |y.f.sys.cpus|
    case Flags(i) => i < |y.wakers| && CanDo(y.f, Sets(y.wakers[i].t, y.wakers[i].c))
    case TakesOut(c, v, t) =>
      && c < |y.f.sys.cpus| && v < |y.f.sys.cpus| && y.f.sys.cpus[c].phase == Selecting
      && !Blocked(y.f.pend, c) && !Busy(y.takes, c) && t in y.f.sys.cpus[v].queue && t in y.f.sys.tasks
      && (v != c ==> y.f.sys.tasks[t].migratable && !y.f.sys.tasks[t].bound)
    case Clears(i) => i < |y.takes| && !y.takes[i].cleared && y.takes[i].t in y.f.sys.tasks
    case Settles(i) =>
      && i < |y.takes| && y.takes[i].cleared && y.takes[i].t in y.f.sys.tasks
      && y.takes[i].c < |y.f.sys.cpus| && y.takes[i].v < |y.f.sys.cpus|
  }

  /** What `next` does once it has cleared the flag: the section on the state, and what follows. */
  function Chooses(s: Sys, c: nat, t: nat): Sys
    requires c < |s.cpus| && t in s.tasks
  {
    var r := s.tasks[t];
    if r.state == Ready then
      SetCpu(SetTask(s, t, r.(state := Running, migratable := true)), c, s.cpus[c].(phase := Chosen(Some(t))))
    else if r.state == Running then s
    else Unaccount(SetTask(s, t, r.(wakePending := false)), t)
  }

  function Others<T>(all: seq<T>, i: nat): seq<T>
    requires i < |all|
  {
    all[..i] + all[i + 1..]
  }

  /** A wake goes on past its look at the state. */
  predicate GoesOn(r: Task) {
    r.state == Ready || r.state == Waiting
  }

  function DoMicro(y: Tiny, m: Micro): Tiny
    requires CanMicro(y, m)
  {
    match m
    case Does(x) => y.(f := DoSmall(y.f, x))
    case Glances(t, c) =>
      y.(f := DoSmall(y.f, Other(DoLook(t))),
         wakers := if GoesOn(y.f.sys.tasks[t]) then y.wakers + [Waker(t, c)] else y.wakers)
    case Flags(i) => y.(f := DoSmall(y.f, Sets(y.wakers[i].t, y.wakers[i].c)), wakers := Others(y.wakers, i))
    case TakesOut(c, v, t) => y.(f := y.f.(sys := Pull(y.f.sys, v, t)), takes := y.takes + [Take(t, c, v, false)])
    case Clears(i) =>
      var k := y.takes[i];
      y.(f := y.f.(sys := SetTask(y.f.sys, k.t, y.f.sys.tasks[k.t].(queued := false))),
         takes := y.takes[i := k.(cleared := true)])
    case Settles(i) =>
      var k := y.takes[i];
      y.(f := y.f.(sys := if k.v == k.c then Chooses(y.f.sys, k.c, k.t)
                          else if y.f.sys.tasks[k.t].state == Ready then C.TakeOn(y.f.sys, k.c, k.v, k.t)
                          else C.Reject(y.f.sys, k.c, k.t)),
         takes := Others(y.takes, i))
  }

  // ----- as if nothing had been taken out yet

  function OutOf(takes: seq<Take>, v: nat): multiset<nat> {
    if takes == [] then multiset{}
    else OutOf(takes[..|takes| - 1], v) + if takes[|takes| - 1].v == v then multiset{takes[|takes| - 1].t}
        else multiset{}
  }

  function BackTask(r: Task, out: bool): Task {
    if out then r.(queued := true) else r
  }

  function BackCpu(cpu: Cpu, takes: seq<Take>, v: nat): Cpu {
    cpu.(queue := cpu.queue + OutOf(takes, v))
  }

  function BackSys(s: Sys, takes: seq<Take>): (b: Sys)
    ensures b.tasks.Keys == s.tasks.Keys && |b.cpus| == |s.cpus|
    ensures forall t :: t in s.tasks ==> b.tasks[t] == BackTask(s.tasks[t], IsOut(takes, t))
    ensures forall c :: 0 <= c < |s.cpus| ==> b.cpus[c] == BackCpu(s.cpus[c], takes, c)
  {
    Sys(map t | t in s.tasks :: BackTask(s.tasks[t], IsOut(takes, t)),
        seq(|s.cpus|, c requires 0 <= c < |s.cpus| => BackCpu(s.cpus[c], takes, c)))
  }

  function Back(y: Tiny): Fine {
    Fine(BackSys(y.f.sys, y.takes), y.f.pend)
  }

  predicate TakeOk(f: Fine, k: Take) {
    && k.t in f.sys.tasks && k.c < |f.sys.cpus| && k.v < |f.sys.cpus|
    && f.sys.cpus[k.c].phase == Selecting && !Blocked(f.pend, k.c)
    && (k.cleared <==> !f.sys.tasks[k.t].queued)
    && (k.v != k.c ==> f.sys.tasks[k.t].migratable && !f.sys.tasks[k.t].bound)
  }

  ghost predicate TakesOk(y: Tiny) {
    && (forall i :: 0 <= i < |y.takes| ==> TakeOk(y.f, y.takes[i]))
    && (forall i, j :: 0 <= i < j < |y.takes| ==> y.takes[i].t != y.takes[j].t && y.takes[i].c != y.takes[j].c)
  }

  ghost predicate TinyInv(y: Tiny) {
    FineInv(Back(y)) && TakesOk(y)
  }

  lemma BackChange(s: Sys, takes: seq<Take>, t: nat, r: Task, c: nat, cpu: Cpu)
    requires t in s.tasks && c < |s.cpus|
    ensures BackSys(Change(s, t, r, c, cpu), takes) ==
            Change(BackSys(s, takes), t, BackTask(r, IsOut(takes, t)), c, BackCpu(cpu, takes, c))
  {
    hide BackSys, BackTask, BackCpu, IsOut;
    SameSys(BackSys(Change(s, t, r, c, cpu), takes),
            Change(BackSys(s, takes), t, BackTask(r, IsOut(takes, t)), c, BackCpu(cpu, takes, c)));
  }

  lemma BackCpuChange(s: Sys, takes: seq<Take>, c: nat, cpu: Cpu)
    requires c < |s.cpus|
    ensures BackSys(s.(cpus := s.cpus[c := cpu]), takes) ==
            BackSys(s, takes).(cpus := BackSys(s, takes).cpus[c := BackCpu(cpu, takes, c)])
  {
    hide BackSys, BackTask, BackCpu, IsOut;
    SameSys(BackSys(s.(cpus := s.cpus[c := cpu]), takes),
            BackSys(s, takes).(cpus := BackSys(s, takes).cpus[c := BackCpu(cpu, takes, c)]));
  }

  lemma {:induction false} OutHas(takes: seq<Take>, i: nat)
    requires i < |takes|
    ensures takes[i].t in OutOf(takes, takes[i].v)
  {
    if i < |takes| - 1 {
      OutHas(takes[..|takes| - 1], i);
    }
  }

  lemma BackIs(y: Tiny)
    requires TinyInv(y)
    ensures FineInv(Back(y)) && TakesOk(y)
  {
  }

  /** A task that was taken out is, as if it had not been, in its queue. */
  lemma OutQueued(y: Tiny, i: nat)
    requires TinyInv(y) && i < |y.takes|
    ensures var k := y.takes[i];
            && TakeOk(y.f, k) && k.t in Back(y).sys.cpus[k.v].queue
            && y.f.sys.tasks[k.t].counted && y.f.sys.tasks[k.t].schedCpu == k.v
            && y.f.sys.tasks[k.t].state != Running && !Waits(y.f.pend, k.t)
  {
    hide FineInv, BackSys, OutOf;
    var k := y.takes[i];
    assert TakeOk(y.f, k);
    OutHas(y.takes, i);
    InQueue(Back(y), k.v, k.t);
    QueueFacts(Back(y), k.v, k.t);
  }

  /** A task in a real queue was not taken out. */
  lemma QueuedNotOut(y: Tiny, v: nat, t: nat)
    requires TinyInv(y) && v < |y.f.sys.cpus| && t in y.f.sys.cpus[v].queue
    ensures !IsOut(y.takes, t) && t in y.f.sys.tasks && y.f.sys.tasks[t].queued
  {
    hide FineInv, BackSys;
    assert t in Back(y).sys.cpus[v].queue;
    QueuedOnce(Back(y), v, t);
    if i :| 0 <= i < |y.takes| && y.takes[i].t == t {
      OutQueued(y, i);
      OutHas(y.takes, i);
      QueueFacts(Back(y), v, t);
    }
  }

  // ----- steps that take nothing out

  /** What a change may not touch: the flag of a task that is out and whether it may move, and the phase of a CPU
      that has taken one. */
  predicate Spares(y: Tiny, t: nat, r: Task, c: nat, cpu: Cpu) {
    && t in y.f.sys.tasks && c < |y.f.sys.cpus|
    && (IsOut(y.takes, t) ==>
          && r.queued == y.f.sys.tasks[t].queued && r.migratable == y.f.sys.tasks[t].migratable
          && r.bound == y.f.sys.tasks[t].bound)
    && (Busy(y.takes, c) ==> cpu.phase == Selecting)
  }

  lemma TakesKept(y: Tiny, t: nat, r: Task, c: nat, cpu: Cpu, pend: seq<Pending>)
    requires TakesOk(y) && Spares(y, t, r, c, cpu)
    requires forall d :: Busy(y.takes, d) && Blocked(pend, d) ==> Blocked(y.f.pend, d)
    ensures TakesOk(y.(f := Fine(Change(y.f.sys, t, r, c, cpu), pend)))
  {
    var z := y.(f := Fine(Change(y.f.sys, t, r, c, cpu), pend));
    forall i | 0 <= i < |z.takes|
      ensures TakeOk(z.f, z.takes[i])
    {
      assert TakeOk(y.f, y.takes[i]);
      assert IsOut(y.takes, y.takes[i].t) && Busy(y.takes, y.takes[i].c);
    }
  }

  /** A step that changes one task and one CPU, with or without what was taken out. */
  lemma ChangeBack(y: Tiny, x: Small, t: nat, r: Task, c: nat, cpu: Cpu, pend: seq<Pending>)
    requires TinyInv(y) && Spares(y, t, r, c, cpu) && CanDo(y.f, x) && CanDo(Back(y), x) && !Stray(Back(y), x)
    requires forall d :: Busy(y.takes, d) && Blocked(pend, d) ==> Blocked(y.f.pend, d)
    requires DoSmall(y.f, x) == Fine(Change(y.f.sys, t, r, c, cpu), pend)
    requires DoSmall(Back(y), x) ==
             Fine(Change(Back(y).sys, t, BackTask(r, IsOut(y.takes, t)), c, BackCpu(cpu, y.takes, c)), pend)
    ensures var z := y.(f := DoSmall(y.f, x)); TinyInv(z) && Back(z) == DoSmall(Back(y), x)
  {
    hide FineInv, BackSys, BackTask, BackCpu, DoSmall, CanDo, Stray, TakesOk, Spares;
    SparesIn(y, t, r, c, cpu);
    SmallSim(Back(y), x);
    BackChange(y.f.sys, y.takes, t, r, c, cpu);
    TakesKept(y, t, r, c, cpu, pend);
  }

  lemma SparesIn(y: Tiny, t: nat, r: Task, c: nat, cpu: Cpu)
    requires Spares(y, t, r, c, cpu)
    ensures t in y.f.sys.tasks && c < |y.f.sys.cpus|
  {
  }

  /** A step that changes one CPU only. */
  lemma CpuBack(y: Tiny, x: Small, c: nat, cpu: Cpu)
    requires TinyInv(y) && c < |y.f.sys.cpus| && (Busy(y.takes, c) ==> cpu.phase == Selecting)
    requires CanDo(y.f, x) && CanDo(Back(y), x) && !Stray(Back(y), x)
    requires DoSmall(y.f, x) == y.f.(sys := y.f.sys.(cpus := y.f.sys.cpus[c := cpu]))
    requires DoSmall(Back(y), x) ==
             Back(y).(sys := Back(y).sys.(cpus := Back(y).sys.cpus[c := BackCpu(cpu, y.takes, c)]))
    ensures var z := y.(f := DoSmall(y.f, x)); TinyInv(z) && Back(z) == DoSmall(Back(y), x)
  {
    hide FineInv, BackSys, BackTask, BackCpu, DoSmall, CanDo, Stray;
    SmallSim(Back(y), x);
    BackCpuChange(y.f.sys, y.takes, c, cpu);
    forall i | 0 <= i < |y.takes|
      ensures TakeOk(DoSmall(y.f, x), y.takes[i])
    {
      assert TakeOk(y.f, y.takes[i]);
      assert Busy(y.takes, y.takes[i].c);
    }
  }

  /** A step that changes nothing. */
  lemma SameBack(y: Tiny, x: Small)
    requires TinyInv(y) && CanDo(y.f, x) && CanDo(Back(y), x)
    requires DoSmall(y.f, x) == y.f && DoSmall(Back(y), x) == Back(y)
    ensures var z := y.(f := DoSmall(y.f, x)); TinyInv(z) && Back(z) == DoSmall(Back(y), x)
  {
  }

  lemma BackRecord(y: Tiny, t: nat)
    requires t in y.f.sys.tasks
    ensures t in Back(y).sys.tasks && Back(y).sys.tasks[t] == BackTask(y.f.sys.tasks[t], IsOut(y.takes, t))
    ensures |Back(y).sys.cpus| == |y.f.sys.cpus|
  {
  }

  lemma BackSeen(y: Tiny, c: nat)
    requires c < |y.f.sys.cpus|
    ensures |Back(y).sys.cpus| == |y.f.sys.cpus| && Back(y).sys.cpus[c] == BackCpu(y.f.sys.cpus[c], y.takes, c)
  {
  }

  /** A flag is set, not too late. */
  lemma FlagBack(y: Tiny, t: nat, c: nat)
    requires TinyInv(y) && CanDo(y.f, Sets(t, c)) && !Stray(y.f, Sets(t, c))
    ensures CanDo(Back(y), Sets(t, c)) && !Stray(Back(y), Sets(t, c))
    ensures var z := y.(f := DoSmall(y.f, Sets(t, c))); TinyInv(z) && Back(z) == DoSmall(Back(y), Sets(t, c))
  {
    hide FineInv, BackSys, TakesOk;
    BackRecord(y, t);
    if y.f.sys.tasks[t].queued {
      SameBack(y, Sets(t, c));
    } else {
      EnterBack(y, t, c);
    }
  }

  lemma EnterBack(y: Tiny, t: nat, c: nat)
    requires TinyInv(y) && CanDo(y.f, Sets(t, c)) && !y.f.sys.tasks[t].queued && MayJoin(y.f.sys.tasks[t], c)
    ensures CanDo(Back(y), Sets(t, c)) && !Stray(Back(y), Sets(t, c))
    ensures var z := y.(f := DoSmall(y.f, Sets(t, c))); TinyInv(z) && Back(z) == DoSmall(Back(y), Sets(t, c))
  {
    hide FineInv, BackSys, OutOf, TakesOk, TinyInv;
    BackRecord(y, t);
    BackSeen(y, c);
    if i :| 0 <= i < |y.takes| && y.takes[i].t == t {
      OutQueued(y, i);
    }
    var r, pend := y.f.sys.tasks[t].(queued := true), y.f.pend + [Pending(t, c, false)];
    Unchanged(y.f.sys, t, r, c);
    Unchanged(Back(y).sys, t, r, c);
    BusyPhase(y, c);
    BlockedSame(y.f.pend, Pending(t, c, false));
    ChangeBack(y, Sets(t, c), t, r, c, y.f.sys.cpus[c], pend);
  }

  /** A step that changes the state or `wakePending` of one task. */
  lemma StateBack(y: Tiny, x: Small, t: nat, r: Task)
    requires TinyInv(y) && t in y.f.sys.tasks && CanDo(Back(y), x) && !Stray(Back(y), x)
    requires r == y.f.sys.tasks[t].(state := r.state, wakePending := r.wakePending)
    requires DoSmall(Back(y), x) == Back(y).(sys := SetTask(Back(y).sys, t, BackTask(r, IsOut(y.takes, t))))
    ensures var z := y.(f := y.f.(sys := SetTask(y.f.sys, t, r))); TinyInv(z) && Back(z) == DoSmall(Back(y), x)
  {
    hide FineInv, BackSys, BackTask, IsOut, TakesOk, DoSmall, CanDo, Stray;
    SmallSim(Back(y), x);
    BackSet(y.f.sys, y.takes, t, r);
    StateTakes(y, t, r);
  }

  lemma StateTakes(y: Tiny, t: nat, r: Task)
    requires TakesOk(y) && t in y.f.sys.tasks
    requires r == y.f.sys.tasks[t].(state := r.state, wakePending := r.wakePending)
    ensures TakesOk(y.(f := y.f.(sys := SetTask(y.f.sys, t, r))))
  {
    var z := y.(f := y.f.(sys := SetTask(y.f.sys, t, r)));
    forall i | 0 <= i < |y.takes|
      ensures TakeOk(z.f, y.takes[i])
    {
      assert TakeOk(y.f, y.takes[i]);
    }
  }

  lemma GlanceBack(y: Tiny, t: nat)
    requires TinyInv(y) && t in y.f.sys.tasks
    ensures CanDo(Back(y), Other(DoLook(t)))
    ensures var z := y.(f := y.f.(sys := Look(y.f.sys, t)));
            TinyInv(z) && Back(z) == Back(y).(sys := Look(Back(y).sys, t))
  {
    hide FineInv, BackSys, TakesOk, IsOut, TinyInv, Stray, CanDo, DoSmall, Looked, BackTask;
    BackRecord(y, t);
    LookedBack(y.f.sys.tasks[t], IsOut(y.takes, t));
    LookIs(Back(y), t);
    NotStray(Back(y), DoLook(t));
    StateBack(y, Other(DoLook(t)), t, Looked(y.f.sys.tasks[t]));
  }

  lemma LookedBack(r: Task, out: bool)
    ensures Looked(BackTask(r, out)) == BackTask(Looked(r), out)
    ensures Looked(r) == r.(state := Looked(r).state, wakePending := Looked(r).wakePending)
  {
  }

  lemma NotStray(f: Fine, step: Step)
    ensures !Stray(f, Other(step))
  {
  }

  lemma LookIs(f: Fine, t: nat)
    requires t in f.sys.tasks
    ensures CanDo(f, Other(DoLook(t))) && DoSmall(f, Other(DoLook(t))) == f.(sys := Look(f.sys, t))
  {
  }

  lemma BackSet(s: Sys, takes: seq<Take>, t: nat, r: Task)
    requires t in s.tasks
    ensures BackSys(SetTask(s, t, r), takes) == SetTask(BackSys(s, takes), t, BackTask(r, IsOut(takes, t)))
  {
    hide BackSys, BackTask, BackCpu, IsOut;
    SameSys(BackSys(SetTask(s, t, r), takes), SetTask(BackSys(s, takes), t, BackTask(r, IsOut(takes, t))));
  }

  /** What the wakes remember is no part of it. */
  lemma WakersApart(y: Tiny, wakers: seq<Waker>)
    ensures var z := y.(wakers := wakers); Back(z) == Back(y) && (TinyInv(z) <==> TinyInv(y))
  {
    var z := y.(wakers := wakers);
    assert TakesOk(z) <==> TakesOk(y);
  }

  lemma BusyPhase(y: Tiny, c: nat)
    requires TinyInv(y) && c < |y.f.sys.cpus|
    ensures Busy(y.takes, c) ==> y.f.sys.cpus[c].phase == Selecting && !Blocked(y.f.pend, c)
  {
    if i :| 0 <= i < |y.takes| && y.takes[i].c == c {
      assert TakeOk(y.f, y.takes[i]);
    }
  }

  lemma BlockedSame(pend: seq<Pending>, p: Pending)
    requires !p.own
    ensures forall d :: Blocked(pend + [p], d) ==> Blocked(pend, d)
  {
    forall d | Blocked(pend + [p], d)
      ensures Blocked(pend, d)
    {
      var i :| 0 <= i < |pend + [p]| && (pend + [p])[i].own && (pend + [p])[i].c == d;
      assert pend[i].own && pend[i].c == d;
    }
  }

  /** The running task of a CPU that has taken nothing out. */
  lemma CurrentBack(y: Tiny, c: nat)
    requires TinyInv(y) && c < |y.f.sys.cpus| && y.f.sys.cpus[c].phase != Selecting
    ensures !Busy(y.takes, c) && !Blocked(y.f.pend, c)
    ensures |Back(y).sys.cpus| == |y.f.sys.cpus| && Back(y).sys.cpus[c] == BackCpu(y.f.sys.cpus[c], y.takes, c)
    ensures y.f.sys.cpus[c].current.Some? && y.f.sys.cpus[c].phase == Normal ==>
              var t := y.f.sys.cpus[c].current.value;
              !IsOut(y.takes, t) && Engaged(y.f.sys.tasks, c, t) && Engaged(Back(y).sys.tasks, c, t)
                  && Back(y).sys.tasks[t] == y.f.sys.tasks[t]
    ensures y.f.sys.cpus[c].phase.Chosen? && y.f.sys.cpus[c].phase.to.Some? ==>
              var t := y.f.sys.cpus[c].phase.to.value;
              !IsOut(y.takes, t) && Engaged(y.f.sys.tasks, c, t) && Engaged(Back(y).sys.tasks, c, t)
                  && Back(y).sys.tasks[t] == y.f.sys.tasks[t]
  {
    hide FineInv, BackSys, OutOf, TakesOk;
    BackSeen(y, c);
    BusyPhase(y, c);
    Free(Back(y), c);
    CpuAtAbs(Back(y), c);
    if y.f.sys.cpus[c].current.Some? && y.f.sys.cpus[c].phase == Normal {
      EngagedBack(y, c, y.f.sys.cpus[c].current.value);
    }
    if y.f.sys.cpus[c].phase.Chosen? && y.f.sys.cpus[c].phase.to.Some? {
      EngagedBack(y, c, y.f.sys.cpus[c].phase.to.value);
    }
  }

  lemma EngagedBack(y: Tiny, c: nat, t: nat)
    requires TinyInv(y) && Engaged(Abs(Back(y)).tasks, c, t)
    ensures !IsOut(y.takes, t) && Engaged(y.f.sys.tasks, c, t) && Engaged(Back(y).sys.tasks, c, t)
    ensures Back(y).sys.tasks[t] == y.f.sys.tasks[t]
  {
    hide FineInv, BackSys, Abs;
    EngagedSame(Back(y), c, t);
    BackRecord(y, t);
  }

  /** A task marked by the CPU that ran it. */
  lemma MarksBack(y: Tiny, x: Small, c: nat, t: nat, r: Task)
    requires TinyInv(y) && c < |y.f.sys.cpus| && t in y.f.sys.tasks && !IsOut(y.takes, t) && !Busy(y.takes, c)
    requires CanDo(y.f, x) && CanDo(Back(y), x) && !Stray(Back(y), x)
    requires DoSmall(y.f, x) == Fine(Change(y.f.sys, t, r, c, y.f.sys.cpus[c].(phase := Selecting)),
                                     y.f.pend + [Pending(t, c, true)])
    requires DoSmall(Back(y), x) == Fine(Change(Back(y).sys, t, r, c, Back(y).sys.cpus[c].(phase := Selecting)),
                                         y.f.pend + [Pending(t, c, true)])
    ensures var z := y.(f := DoSmall(y.f, x)); TinyInv(z) && Back(z) == DoSmall(Back(y), x)
  {
    hide FineInv, BackSys, DoSmall, CanDo, Stray, TinyInv, TakesOk, OutOf;
    BackSeen(y, c);
    BlockedOwn(y.f.pend, t, c);
    ChangeBack(y, x, t, r, c, y.f.sys.cpus[c].(phase := Selecting), y.f.pend + [Pending(t, c, true)]);
  }

  lemma BlockedOwn(pend: seq<Pending>, t: nat, c: nat)
    ensures forall d :: d != c && Blocked(pend + [Pending(t, c, true)], d) ==> Blocked(pend, d)
  {
    var more := pend + [Pending(t, c, true)];
    forall d | d != c && Blocked(more, d)
      ensures Blocked(pend, d)
    {
      var i :| 0 <= i < |more| && more[i].own && more[i].c == d;
      assert pend[i].own && pend[i].c == d;
    }
  }

  lemma PreemptBack(y: Tiny, c: nat)
    requires TinyInv(y) && CanDo(y.f, Preempts(c))
    ensures CanDo(Back(y), Preempts(c))
    ensures var z := y.(f := DoSmall(y.f, Preempts(c))); TinyInv(z) && Back(z) == DoSmall(Back(y), Preempts(c))
  {
    hide FineInv, BackSys, OutOf, TakesOk, Preempt, TinyInv;
    CurrentBack(y, c);
    match y.f.sys.cpus[c].current {
      case None =>
        IdleIs(y.f.sys, c);
        IdleIs(Back(y).sys, c);
        CpuBack(y, Preempts(c), c, y.f.sys.cpus[c].(phase := Selecting));
      case Some(t) =>
        PreemptIs(y.f.sys, c, t);
        PreemptIs(Back(y).sys, c, t);
        var r, cpu := y.f.sys.tasks[t], y.f.sys.cpus[c];
        if Gone(r) {
          ChangeBack(y, Preempts(c), t, r.(counted := false, schedCpu := NO_CPU), c,
                     cpu.(load := cpu.load - 1, phase := Selecting), y.f.pend);
        } else {
          MarksBack(y, Preempts(c), c, t, r.(state := Ready, migratable := false, queued := true));
        }
    }
  }

  lemma YieldBack(y: Tiny, c: nat)
    requires TinyInv(y) && CanDo(y.f, Yields(c))
    ensures CanDo(Back(y), Yields(c))
    ensures var z := y.(f := DoSmall(y.f, Yields(c))); TinyInv(z) && Back(z) == DoSmall(Back(y), Yields(c))
  {
    hide FineInv, BackSys, OutOf, TakesOk, Yield, TinyInv;
    CurrentBack(y, c);
    match y.f.sys.cpus[c].current {
      case None =>
        IdleIs(y.f.sys, c);
        IdleIs(Back(y).sys, c);
        CpuBack(y, Yields(c), c, y.f.sys.cpus[c].(phase := Selecting));
      case Some(t) =>
        YieldIs(y.f.sys, c, t);
        YieldIs(Back(y).sys, c, t);
        var r, cpu := y.f.sys.tasks[t], y.f.sys.cpus[c];
        if Gone(r) {
          ChangeBack(y, Yields(c), t, r.(counted := false, schedCpu := NO_CPU), c,
                     cpu.(load := cpu.load - 1, phase := Selecting), y.f.pend);
        } else if r.wakePending {
          var r1 := r.(wakePending := false, state := Ready, migratable := false, queued := true);
          assert y.f.sys.tasks[t := r.(wakePending := false)][t := r1] == y.f.sys.tasks[t := r1];
          assert Back(y).sys.tasks[t := r.(wakePending := false)][t := r1] == Back(y).sys.tasks[t := r1];
          MarksBack(y, Yields(c), c, t, r1);
        } else {
          ChangeBack(y, Yields(c), t, r.(state := Waiting, migratable := false, counted := false, schedCpu := NO_CPU),
                     c, cpu.(load := cpu.load - 1, phase := Selecting), y.f.pend);
        }
    }
  }

  lemma JoinBack(y: Tiny, i: nat)
    requires TinyInv(y) && CanDo(y.f, Joins(i))
    ensures CanDo(Back(y), Joins(i))
    ensures var z := y.(f := DoSmall(y.f, Joins(i))); TinyInv(z) && Back(z) == DoSmall(Back(y), Joins(i))
  {
    hide FineInv, BackSys, OutOf, TakesOk, TinyInv, DoSmall;
    var p := y.f.pend[i];
    BackRecord(y, p.t);
    BackSeen(y, p.c);
    JoinOk(y, i);
    JoinIs(y.f, i);
    JoinIs(Back(y), i);
    MarkedBack(y.f.sys.cpus[p.c], y.takes, p);
    BusyPhase(y, p.c);
    BlockedRest(y.f.pend, i);
    ChangeBack(y, Joins(i), p.t, Arrived(y.f.sys.tasks[p.t], if p.own then None else Some(p.c)), p.c,
               Marked(y.f.sys.cpus[p.c], p), Rest(y.f.pend, i));
  }

  lemma JoinOk(y: Tiny, i: nat)
    requires TinyInv(y) && CanDo(y.f, Joins(i))
    ensures PendOk(Back(y).sys, y.f.pend[i]) && PendOk(y.f.sys, y.f.pend[i]) && !IsOut(y.takes, y.f.pend[i].t)
  {
    hide FineInv, BackSys, OutOf, TakesOk;
    var p := y.f.pend[i];
    PendAt(Back(y), i);
    BackRecord(y, p.t);
    BackSeen(y, p.c);
    assert Waits(y.f.pend, p.t);
    if j :| 0 <= j < |y.takes| && y.takes[j].t == p.t {
      OutQueued(y, j);
    }
  }

  lemma MarkedBack(cpu: Cpu, takes: seq<Take>, p: Pending)
    ensures BackCpu(Marked(cpu, p), takes, p.c) == Marked(BackCpu(cpu, takes, p.c), p)
  {
    var q, o, one := cpu.queue, OutOf(takes, p.c), multiset{p.t};
    assert (q + one) + o == (q + o) + one;
  }

  lemma BlockedRest(pend: seq<Pending>, i: nat)
    requires i < |pend|
    ensures forall d :: Blocked(Rest(pend, i), d) ==> Blocked(pend, d)
  {
    var rest := Rest(pend, i);
    forall d | Blocked(rest, d)
      ensures Blocked(pend, d)
    {
      var j :| 0 <= j < |rest| && rest[j].own && rest[j].c == d;
      assert pend[if j < i then j else j + 1] == rest[j];
    }
  }

  lemma OtherBack(y: Tiny, step: Step)
    requires TinyInv(y) && CanMicro(y, Does(Other(step)))
    ensures CanDo(Back(y), Other(step))
    ensures var z := y.(f := DoSmall(y.f, Other(step))); TinyInv(z) && Back(z) == DoSmall(Back(y), Other(step))
  {
    hide FineInv, BackSys, OutOf, TakesOk, TinyInv, Create, PickIdle, Switch, Release, Kill;
    match step
    case DoCreate(t, b) => CreateBack(y, t, b);
    case DoPickIdle(c) => PickIdleBack(y, c);
    case DoSwitch(c) => SwitchBack(y, c);
    case DoRelease(c) => ReleaseBack(y, c);
    case DoKill(t) => KillBack(y, t);
  }

  lemma CreateBack(y: Tiny, t: nat, b: bool)
    requires TinyInv(y) && t !in y.f.sys.tasks
    ensures CanDo(Back(y), Other(DoCreate(t, b)))
    ensures var z := y.(f := y.f.(sys := Create(y.f.sys, t, b)));
            TinyInv(z) && Back(z) == Back(y).(sys := Create(Back(y).sys, t, b))
  {
    hide FineInv, BackSys, TakesOk, DoSmall, CanDo, Create;
    CreateIs(Back(y), t, b);
    SmallSim(Back(y), Other(DoCreate(t, b)));
    CreateSys(y, t, b);
    CreateTakes(y, t, b);
  }

  lemma CreateIs(f: Fine, t: nat, b: bool)
    requires t !in f.sys.tasks
    ensures CanDo(f, Other(DoCreate(t, b))) && DoSmall(f, Other(DoCreate(t, b))) == f.(sys := Create(f.sys, t, b))
  {
  }

  lemma CreateSys(y: Tiny, t: nat, b: bool)
    requires TinyInv(y) && t !in y.f.sys.tasks
    ensures BackSys(Create(y.f.sys, t, b), y.takes) == Create(BackSys(y.f.sys, y.takes), t, b)
  {
    hide FineInv, BackSys, BackCpu, TakesOk;
    if i :| 0 <= i < |y.takes| && y.takes[i].t == t {
      OutQueued(y, i);
    }
    SameSys(BackSys(Create(y.f.sys, t, b), y.takes), Create(BackSys(y.f.sys, y.takes), t, b));
  }

  lemma CreateTakes(y: Tiny, t: nat, b: bool)
    requires TakesOk(y) && t !in y.f.sys.tasks
    ensures TakesOk(y.(f := y.f.(sys := Create(y.f.sys, t, b))))
  {
    var z := y.(f := y.f.(sys := Create(y.f.sys, t, b)));
    forall i | 0 <= i < |y.takes|
      ensures TakeOk(z.f, y.takes[i])
    {
      assert TakeOk(y.f, y.takes[i]);
    }
  }

  lemma PickIdleBack(y: Tiny, c: nat)
    requires TinyInv(y) && CanMicro(y, Does(Other(DoPickIdle(c))))
    ensures CanDo(Back(y), Other(DoPickIdle(c)))
    ensures var z := y.(f := y.f.(sys := PickIdle(y.f.sys, c)));
            TinyInv(z) && Back(z) == Back(y).(sys := PickIdle(Back(y).sys, c))
  {
    hide FineInv, BackSys, OutOf, TakesOk, TinyInv;
    BackSeen(y, c);
    CpuBack(y, Other(DoPickIdle(c)), c, y.f.sys.cpus[c].(phase := Chosen(None)));
  }

  lemma SwitchBack(y: Tiny, c: nat)
    requires TinyInv(y) && CanDo(y.f, Other(DoSwitch(c)))
    ensures CanDo(Back(y), Other(DoSwitch(c)))
    ensures var z := y.(f := y.f.(sys := Switch(y.f.sys, c)));
            TinyInv(z) && Back(z) == Back(y).(sys := Switch(Back(y).sys, c))
  {
    hide FineInv, BackSys, OutOf, TakesOk, TinyInv, Account;
    CurrentBack(y, c);
    var to, from := y.f.sys.cpus[c].phase.to, y.f.sys.cpus[c].current;
    if from == to {
      CpuBack(y, Other(DoSwitch(c)), c, y.f.sys.cpus[c].(phase := Normal));
    } else if to == None {
      CpuBack(y, Other(DoSwitch(c)), c, y.f.sys.cpus[c].(current := None, phase := Leaving(from)));
    } else {
      SwitchIs(y.f.sys, c, to.value);
      SwitchIs(Back(y).sys, c, to.value);
      ChangeBack(y, Other(DoSwitch(c)), to.value, y.f.sys.tasks[to.value].(lastCpu := c, onCpu := true),
                 c, y.f.sys.cpus[c].(current := to, phase := Leaving(from)), y.f.pend);
    }
  }

  lemma ReleaseBack(y: Tiny, c: nat)
    requires TinyInv(y) && CanDo(y.f, Other(DoRelease(c)))
    ensures CanDo(Back(y), Other(DoRelease(c)))
    ensures var z := y.(f := y.f.(sys := Release(y.f.sys, c)));
            TinyInv(z) && Back(z) == Back(y).(sys := Release(Back(y).sys, c))
  {
    hide FineInv, BackSys, OutOf, TakesOk, TinyInv, Release;
    CurrentBack(y, c);
    match y.f.sys.cpus[c].phase.prev {
      case None =>
        ReleaseNone(y.f.sys, c);
        ReleaseNone(Back(y).sys, c);
        CpuBack(y, Other(DoRelease(c)), c, y.f.sys.cpus[c].(phase := Normal));
      case Some(t) =>
        BackRecord(y, t);
        ReleaseIs(y.f.sys, c, t);
        ReleaseIs(Back(y).sys, c, t);
        ChangeBack(y, Other(DoRelease(c)), t, y.f.sys.tasks[t].(onCpu := false), c,
                   y.f.sys.cpus[c].(phase := Normal), y.f.pend);
    }
  }

  lemma KillBack(y: Tiny, t: nat)
    requires TinyInv(y) && t in y.f.sys.tasks
    ensures CanDo(Back(y), Other(DoKill(t)))
    ensures var z := y.(f := y.f.(sys := Kill(y.f.sys, t)));
            TinyInv(z) && Back(z) == Back(y).(sys := Kill(Back(y).sys, t))
  {
    hide FineInv, BackSys, TakesOk, IsOut, TinyInv;
    BackRecord(y, t);
    StateBack(y, Other(DoKill(t)), t, y.f.sys.tasks[t].(state := Dead));
  }

  // ----- taking out

  lemma OutAdd(takes: seq<Take>, k: Take, v: nat)
    ensures OutOf(takes + [k], v) == OutOf(takes, v) + if k.v == v then multiset{k.t} else multiset{}
  {
    assert (takes + [k])[..|takes + [k]| - 1] == takes;
  }

  lemma TakesOutBack(y: Tiny, c: nat, v: nat, t: nat)
    requires TinyInv(y) && CanMicro(y, TakesOut(c, v, t))
    ensures var z := DoMicro(y, TakesOut(c, v, t)); TinyInv(z) && Back(z) == Back(y)
  {
    hide FineInv, BackSys, OutOf, TakesOk;
    var k, z := Take(t, c, v, false), DoMicro(y, TakesOut(c, v, t));
    QueuedNotOut(y, v, t);
    forall u | u in y.f.sys.tasks
      ensures BackTask(z.f.sys.tasks[u], IsOut(z.takes, u)) == BackTask(y.f.sys.tasks[u], IsOut(y.takes, u))
    {
      OutMore(y.takes, k, u);
    }
    forall d | 0 <= d < |y.f.sys.cpus|
      ensures BackCpu(z.f.sys.cpus[d], z.takes, d) == BackCpu(y.f.sys.cpus[d], y.takes, d)
    {
      OutAdd(y.takes, k, d);
      if d == v {
        TakenAndBack(y.f.sys.cpus[v].queue, OutOf(y.takes, v), t);
      }
    }
    SameSys(Back(z).sys, Back(y).sys);
    TakesMore(y, c, v, t);
  }

  lemma OutMore(takes: seq<Take>, k: Take, u: nat)
    ensures IsOut(takes + [k], u) <==> IsOut(takes, u) || u == k.t
  {
    if i :| 0 <= i < |takes| && takes[i].t == u {
      assert (takes + [k])[i].t == u;
    }
    assert (takes + [k])[|takes|].t == k.t;
  }

  lemma TakenAndBack(q: multiset<nat>, o: multiset<nat>, t: nat)
    requires t in q
    ensures (q - multiset{t}) + (o + multiset{t}) == q + o
  {
  }

  lemma TakesMore(y: Tiny, c: nat, v: nat, t: nat)
    requires TakesOk(y) && CanMicro(y, TakesOut(c, v, t)) && !IsOut(y.takes, t) && y.f.sys.tasks[t].queued
    ensures TakesOk(DoMicro(y, TakesOut(c, v, t)))
  {
    var z := DoMicro(y, TakesOut(c, v, t));
    forall i | 0 <= i < |z.takes|
      ensures TakeOk(z.f, z.takes[i])
    {
      if i < |y.takes| {
        assert TakeOk(y.f, y.takes[i]);
      }
    }
    forall i, j | 0 <= i < j < |z.takes|
      ensures z.takes[i].t != z.takes[j].t && z.takes[i].c != z.takes[j].c
    {
      assert y.takes[i].t == z.takes[i].t && y.takes[i].c == z.takes[i].c;
    }
  }

  lemma ClearsBack(y: Tiny, i: nat)
    requires TinyInv(y) && CanMicro(y, Clears(i))
    ensures var z := DoMicro(y, Clears(i)); TinyInv(z) && Back(z) == Back(y)
  {
    hide FineInv, BackSys, OutOf, TakesOk;
    var k, z := y.takes[i], DoMicro(y, Clears(i));
    SameOut(y.takes, i);
    assert IsOut(y.takes, k.t);
    SameSys(Back(z).sys, Back(y).sys);
    ClearsTakes(y, i);
  }

  lemma {:induction false} SameOut(takes: seq<Take>, i: nat)
    requires i < |takes|
    ensures forall u :: IsOut(takes[i := takes[i].(cleared := true)], u) <==> IsOut(takes, u)
    ensures forall v :: OutOf(takes[i := takes[i].(cleared := true)], v) == OutOf(takes, v)
  {
    var more := takes[i := takes[i].(cleared := true)];
    assert forall j :: 0 <= j < |takes| ==> more[j].t == takes[j].t;
    var n := |takes| - 1;
    if i < n {
      SameOut(takes[..n], i);
      assert more[..n] == takes[..n][i := takes[..n][i].(cleared := true)];
    } else {
      assert more[..n] == takes[..n];
    }
  }

  lemma ClearsTakes(y: Tiny, i: nat)
    requires TakesOk(y) && CanMicro(y, Clears(i))
    ensures TakesOk(DoMicro(y, Clears(i)))
  {
    var z := DoMicro(y, Clears(i));
    forall j | 0 <= j < |z.takes|
      ensures TakeOk(z.f, z.takes[j])
    {
      assert TakeOk(y.f, y.takes[j]);
      assert j != i ==> y.takes[j].t != y.takes[i].t;
    }
  }

  // ----- looking at the state

  lemma OthersLast(takes: seq<Take>, i: nat)
    requires i < |takes|
    ensures i == |takes| - 1 ==> Others(takes, i) == takes[..|takes| - 1]
    ensures i < |takes| - 1 ==>
              var r := Others(takes, i);
              r != [] && r[..|r| - 1] == Others(takes[..|takes| - 1], i) && r[|r| - 1] == takes[|takes| - 1]
  {
  }

  lemma {:induction false} OutWithout(takes: seq<Take>, i: nat, v: nat)
    requires i < |takes|
    ensures OutOf(takes, v) == OutOf(Others(takes, i), v) + if takes[i].v == v then multiset{takes[i].t} else multiset{}
  {
    OthersLast(takes, i);
    if i < |takes| - 1 {
      OutWithout(takes[..|takes| - 1], i, v);
    }
  }

  lemma IsOutWithout(takes: seq<Take>, i: nat, u: nat)
    requires i < |takes| && forall j, k :: 0 <= j < k < |takes| ==> takes[j].t != takes[k].t
    ensures IsOut(Others(takes, i), u) <==> IsOut(takes, u) && u != takes[i].t
  {
    var rest := Others(takes, i);
    if j :| 0 <= j < |rest| && rest[j].t == u {
      assert takes[if j < i then j else j + 1] == rest[j];
    }
    if j :| 0 <= j < |takes| && takes[j].t == u {
      if j != i {
        assert rest[if j < i then j else j - 1] == takes[j];
      }
    }
  }

  /** Once a task is settled it is no longer out: a change of it and of the CPU it was taken from. */
  lemma SettleSys(y: Tiny, i: nat, r: Task, cpu: Cpu, q: multiset<nat>)
    requires TakesOk(y) && i < |y.takes|
    requires q == y.f.sys.cpus[y.takes[i].v].queue + OutOf(Others(y.takes, i), y.takes[i].v)
    requires cpu.queue == y.f.sys.cpus[y.takes[i].v].queue
    ensures var k, s := y.takes[i], y.f.sys;
            BackSys(Change(s, k.t, r, k.v, cpu), Others(y.takes, i)) ==
            Change(BackSys(s, y.takes), k.t, r, k.v, cpu.(queue := q))
  {
    hide BackSys, OutOf, TakeOk;
    var k, s, rest := y.takes[i], y.f.sys, Others(y.takes, i);
    TakeAt(y, i);
    var a, b := BackSys(Change(s, k.t, r, k.v, cpu), rest), Change(BackSys(s, y.takes), k.t, r, k.v, cpu.(queue := q));
    forall u | u in s.tasks
      ensures a.tasks[u] == b.tasks[u]
    {
      IsOutWithout(y.takes, i, u);
    }
    forall d | 0 <= d < |s.cpus|
      ensures a.cpus[d] == b.cpus[d]
    {
      OutWithout(y.takes, i, d);
      assert d != k.v ==> OutOf(rest, d) + multiset{} == OutOf(rest, d);
    }
    SameSys(a, b);
  }

  lemma TakeAt(y: Tiny, i: nat)
    requires TakesOk(y) && i < |y.takes|
    ensures TakeOk(y.f, y.takes[i]) && y.takes[i].t in y.f.sys.tasks && y.takes[i].v < |y.f.sys.cpus|
    ensures y.takes[i].c < |y.f.sys.cpus|
  {
  }

  lemma PulledQueue(y: Tiny, i: nat)
    requires TakesOk(y) && i < |y.takes|
    ensures var k := y.takes[i];
            k.v < |y.f.sys.cpus| &&
            y.f.sys.cpus[k.v].queue + OutOf(Others(y.takes, i), k.v) == Back(y).sys.cpus[k.v].queue - multiset{k.t}
  {
    hide BackSys, OutOf;
    TakeAt(y, i);
    var k := y.takes[i];
    OutWithout(y.takes, i, k.v);
    var q, o, one := y.f.sys.cpus[k.v].queue, OutOf(Others(y.takes, i), k.v), multiset{k.t};
    assert (q + (o + one)) - one == q + o;
  }

  /** The other tasks that are out stay so. */
  lemma SettleTakes(y: Tiny, i: nat, s: Sys)
    requires TakesOk(y) && i < |y.takes| && |s.cpus| == |y.f.sys.cpus| && y.f.sys.tasks.Keys <= s.tasks.Keys
    requires forall u :: u in y.f.sys.tasks && u != y.takes[i].t ==> s.tasks[u] == y.f.sys.tasks[u]
    requires forall d :: 0 <= d < |s.cpus| && d != y.takes[i].c ==> s.cpus[d].phase == y.f.sys.cpus[d].phase
    ensures TakesOk(y.(f := y.f.(sys := s), takes := Others(y.takes, i)))
  {
    var rest := Others(y.takes, i);
    forall j | 0 <= j < |rest|
      ensures rest[j] == y.takes[if j < i then j else j + 1] && TakeOk(y.f.(sys := s), rest[j])
    {
      var h := if j < i then j else j + 1;
      assert TakeOk(y.f, y.takes[h]) && y.takes[h].t != y.takes[i].t && y.takes[h].c != y.takes[i].c;
    }
  }

  /** What became of a task that was taken out of a run queue. */
  function SettledAs(k: Take): Step {
    if k.v == k.c then DoPop(k.c, k.t) else DoSteal(k.c, k.v, k.t)
  }

  lemma CanSettle(y: Tiny, i: nat)
    requires TinyInv(y) && CanMicro(y, Settles(i))
    ensures CanDo(Back(y), Other(SettledAs(y.takes[i])))
  {
    hide FineInv, BackSys, OutOf, TakesOk;
    OutQueued(y, i);
    var k := y.takes[i];
    BackSeen(y, k.c);
    BackRecord(y, k.t);
  }

  lemma ChoosesIs(s: Sys, c: nat, t: nat)
    requires c < |s.cpus| && t in s.tasks && s.tasks[t].counted && s.tasks[t].schedCpu == c
    requires s.tasks[t].state != Running
    ensures var r, cpu := s.tasks[t], s.cpus[c];
            Chooses(s, c, t) == if r.state == Ready
              then Change(s, t, r.(state := Running, migratable := true), c, cpu.(phase := Chosen(Some(t))))
              else Change(s, t, r.(wakePending := false, counted := false, schedCpu := NO_CPU), c,
                  cpu.(load := cpu.load - 1))
  {
  }

  lemma PopSettles(y: Tiny, i: nat)
    requires TinyInv(y) && CanMicro(y, Settles(i)) && y.takes[i].v == y.takes[i].c
    ensures Back(DoMicro(y, Settles(i))).sys == Pop(Back(y).sys, y.takes[i].c, y.takes[i].t)
    ensures TakesOk(DoMicro(y, Settles(i)))
  {
    hide TinyInv, BackSys, OutOf, TakesOk, Chooses, Pop, Others;
    PopSys(y, i);
    PopTakes(y, i);
  }

  lemma PopTakes(y: Tiny, i: nat)
    requires TinyInv(y) && CanMicro(y, Settles(i)) && y.takes[i].v == y.takes[i].c
    ensures TakesOk(y.(f := y.f.(sys := Chooses(y.f.sys, y.takes[i].c, y.takes[i].t)), takes := Others(y.takes, i)))
  {
    hide TinyInv, BackSys, OutOf, TakesOk, Chooses, Others;
    OutQueued(y, i);
    BackIs(y);
    var k := y.takes[i];
    ChoosesIs(y.f.sys, k.c, k.t);
    SettleTakes(y, i, Chooses(y.f.sys, k.c, k.t));
  }

  lemma PopSys(y: Tiny, i: nat)
    requires TinyInv(y) && CanMicro(y, Settles(i)) && y.takes[i].v == y.takes[i].c
    ensures BackSys(Chooses(y.f.sys, y.takes[i].c, y.takes[i].t), Others(y.takes, i)) ==
            Pop(Back(y).sys, y.takes[i].c, y.takes[i].t)
  {
    hide TinyInv, FineInv, BackSys, OutOf, TakesOk, Chooses, Pop, Others, IsOut;
    OutQueued(y, i);
    BackIs(y);
    var k, s := y.takes[i], y.f.sys;
    var r, cpu := s.tasks[k.t], s.cpus[k.c];
    BackSeen(y, k.c);
    BackRecord(y, k.t);
    ChoosesIs(s, k.c, k.t);
    PopIs(Back(y).sys, k.c, k.t);
    PulledQueue(y, i);
    OutThere(y, i);
    var q := cpu.queue + OutOf(Others(y.takes, i), k.v);
    if r.state == Ready {
      SettleSys(y, i, r.(state := Running, migratable := true), cpu.(phase := Chosen(Some(k.t))), q);
    } else {
      SettleSys(y, i, r.(wakePending := false, counted := false, schedCpu := NO_CPU), cpu.(load := cpu.load - 1), q);
    }
  }

  lemma OutThere(y: Tiny, i: nat)
    requires TakesOk(y) && i < |y.takes| && y.takes[i].cleared
    ensures IsOut(y.takes, y.takes[i].t) && y.takes[i].t in y.f.sys.tasks && !y.f.sys.tasks[y.takes[i].t].queued
  {
  }

  /** The victim's part of a steal, once the task is out of its queue. */
  function Dropped(s: Sys, v: nat, t: nat): Sys
    requires v < |s.cpus| && t in s.tasks
  {
    Change(s, t, Loose(s.tasks[t]), v, s.cpus[v].(load := s.cpus[v].load - 1))
  }

  lemma TakeOnIs(s: Sys, c: nat, v: nat, t: nat)
    requires c < |s.cpus| && v < |s.cpus| && c != v && t in s.tasks && !s.tasks[t].queued && s.tasks[t].counted
    requires s.tasks[t].schedCpu == v
    ensures s.tasks[t].state == Ready ==> C.TakeOn(s, c, v, t) == TakeOver(Dropped(s, v, t), c, t)
    ensures s.tasks[t].state != Ready && s.tasks[t].state != Running ==>
              C.Reject(s, c, t) == PickIdle(Dropped(s, v, t), c)
  {
    hide C.TakeOn, C.Reject, TakeOver, PickIdle, Dropped;
    if s.tasks[t].state == Ready {
      TakenIs(s, c, v, t);
    } else if s.tasks[t].state != Running {
      RejectedIs(s, c, v, t);
    }
  }

  lemma TakenIs(s: Sys, c: nat, v: nat, t: nat)
    requires c < |s.cpus| && v < |s.cpus| && c != v && t in s.tasks && !s.tasks[t].queued && s.tasks[t].counted
    requires s.tasks[t].schedCpu == v && s.tasks[t].state == Ready
    ensures C.TakeOn(s, c, v, t) == TakeOver(Dropped(s, v, t), c, t)
  {
    var a, b := C.TakeOn(s, c, v, t), TakeOver(Dropped(s, v, t), c, t);
    assert a.tasks == b.tasks;
    assert a.cpus == b.cpus;
  }

  lemma RejectedIs(s: Sys, c: nat, v: nat, t: nat)
    requires c < |s.cpus| && v < |s.cpus| && c != v && t in s.tasks && !s.tasks[t].queued && s.tasks[t].counted
    requires s.tasks[t].schedCpu == v && s.tasks[t].state != Ready && s.tasks[t].state != Running
    ensures C.Reject(s, c, t) == PickIdle(Dropped(s, v, t), c)
  {
    var a, b := C.Reject(s, c, t), PickIdle(Dropped(s, v, t), c);
    assert a.tasks == b.tasks;
    assert a.cpus == b.cpus;
  }

  lemma StealSettles(y: Tiny, i: nat)
    requires TinyInv(y) && CanMicro(y, Settles(i)) && y.takes[i].v != y.takes[i].c
    ensures Back(DoMicro(y, Settles(i))).sys == Steal(Back(y).sys, y.takes[i].c, y.takes[i].v, y.takes[i].t)
    ensures TakesOk(DoMicro(y, Settles(i)))
  {
    hide FineInv, BackSys, OutOf, TakesOk, Steal, Others, C.TakeOn, C.Reject, Dropped, TakeOver, PickIdle;
    OutQueued(y, i);
    BackIs(y);
    var k, s := y.takes[i], y.f.sys;
    BackSeen(y, k.v);
    BackRecord(y, k.t);
    TakeOnIs(s, k.c, k.v, k.t);
    StealIs(Back(y).sys, k.c, k.v, k.t);
    DroppedBack(y, i);
    AfterDrop(y, i);
    SettleTakes(y, i, DoMicro(y, Settles(i)).f.sys);
  }

  lemma DroppedBack(y: Tiny, i: nat)
    requires TinyInv(y) && CanMicro(y, Settles(i))
    ensures BackSys(Dropped(y.f.sys, y.takes[i].v, y.takes[i].t), Others(y.takes, i)) ==
            LetGo(Back(y).sys, y.takes[i].v, y.takes[i].t)
  {
    hide FineInv, BackSys, OutOf, TakesOk, Others, LetGo;
    OutQueued(y, i);
    BackIs(y);
    var k, s := y.takes[i], y.f.sys;
    BackSeen(y, k.v);
    BackRecord(y, k.t);
    PulledQueue(y, i);
    LetGoIs(Back(y).sys, k.v, k.t);
    SettleSys(y, i, Loose(s.tasks[k.t]), s.cpus[k.v].(load := s.cpus[k.v].load - 1),
              s.cpus[k.v].queue + OutOf(Others(y.takes, i), k.v));
  }

  lemma AfterDrop(y: Tiny, i: nat)
    requires TinyInv(y) && CanMicro(y, Settles(i)) && y.takes[i].v != y.takes[i].c
    ensures var k, rest := y.takes[i], Others(y.takes, i);
            var s := Dropped(y.f.sys, k.v, k.t);
            && |s.cpus| == |y.f.sys.cpus| && k.t in s.tasks
            && BackSys(TakeOver(s, k.c, k.t), rest) == TakeOver(BackSys(s, rest), k.c, k.t)
            && BackSys(PickIdle(s, k.c), rest) == PickIdle(BackSys(s, rest), k.c)
            && Untouched(y.f.sys, TakeOver(s, k.c, k.t), k.t, k.c) && Untouched(y.f.sys, PickIdle(s, k.c), k.t, k.c)
  {
    hide FineInv, BackSys, OutOf, TakesOk, TakeOver, PickIdle, Others, Dropped, Untouched;
    BackIs(y);
    TakeAt(y, i);
    var k, rest := y.takes[i], Others(y.takes, i);
    var s := Dropped(y.f.sys, k.v, k.t);
    DistinctTakes(y);
    IsOutWithout(y.takes, i, k.t);
    DropLeaves(y.f.sys, k.c, k.v, k.t);
    TakeOverSys(s, rest, k.c, k.t);
    PickIdleSys(s, rest, k.c);
  }

  lemma DropLeaves(s: Sys, c: nat, v: nat, t: nat)
    requires c < |s.cpus| && v < |s.cpus| && t in s.tasks
    ensures var d := Dropped(s, v, t);
            && |d.cpus| == |s.cpus| && t in d.tasks
            && Untouched(s, TakeOver(d, c, t), t, c) && Untouched(s, PickIdle(d, c), t, c)
  {
  }

  lemma TakeOverSys(s: Sys, rest: seq<Take>, c: nat, t: nat)
    requires c < |s.cpus| && t in s.tasks && !IsOut(rest, t)
    ensures BackSys(TakeOver(s, c, t), rest) == TakeOver(BackSys(s, rest), c, t)
  {
    hide BackSys, OutOf;
    BackChange(s, rest, t, s.tasks[t].(state := Running, migratable := true, counted := true, schedCpu := c),
               c, s.cpus[c].(load := s.cpus[c].load + 1, phase := Chosen(Some(t))));
  }

  lemma PickIdleSys(s: Sys, rest: seq<Take>, c: nat)
    requires c < |s.cpus|
    ensures BackSys(PickIdle(s, c), rest) == PickIdle(BackSys(s, rest), c)
  {
    hide BackSys, OutOf;
    BackCpuChange(s, rest, c, s.cpus[c].(phase := Chosen(None)));
  }

  lemma DistinctTakes(y: Tiny)
    requires TakesOk(y)
    ensures forall j, k :: 0 <= j < k < |y.takes| ==> y.takes[j].t != y.takes[k].t
  {
  }

  predicate Untouched(s: Sys, s': Sys, t: nat, c: nat) {
    && |s'.cpus| == |s.cpus| && s.tasks.Keys <= s'.tasks.Keys
    && (forall u :: u in s.tasks && u != t ==> s'.tasks[u] == s.tasks[u])
    && (forall d :: 0 <= d < |s.cpus| && d != c ==> s'.cpus[d].phase == s.cpus[d].phase)
  }

  lemma SettlesBack(y: Tiny, i: nat)
    requires TinyInv(y) && CanMicro(y, Settles(i))
    ensures CanDo(Back(y), Other(SettledAs(y.takes[i])))
    ensures var z := DoMicro(y, Settles(i)); TinyInv(z) && Back(z) == DoSmall(Back(y), Other(SettledAs(y.takes[i])))
  {
    hide FineInv, BackSys, TakesOk, DoMicro, DoSmall, CanDo, CanMicro;
    SettlesKeepsPend(y, i);
    CanSettle(y, i);
    SmallSim(Back(y), Other(SettledAs(y.takes[i])));
    if y.takes[i].v == y.takes[i].c {
      PopSettles(y, i);
      PopDone(Back(y), y.takes[i].c, y.takes[i].t);
    } else {
      StealSettles(y, i);
      StealDone(Back(y), y.takes[i].c, y.takes[i].v, y.takes[i].t);
    }
  }

  lemma SettlesKeepsPend(y: Tiny, i: nat)
    requires CanMicro(y, Settles(i))
    ensures i < |y.takes| && DoMicro(y, Settles(i)).f.pend == y.f.pend
  {
  }

  lemma PopDone(f: Fine, c: nat, t: nat)
    requires CanDo(f, Other(DoPop(c, t)))
    ensures c < |f.sys.cpus| && t in f.sys.tasks && DoSmall(f, Other(DoPop(c, t))) == f.(sys := Pop(f.sys, c, t))
  {
  }

  lemma StealDone(f: Fine, c: nat, v: nat, t: nat)
    requires CanDo(f, Other(DoSteal(c, v, t)))
    ensures c < |f.sys.cpus| && v < |f.sys.cpus| && t in f.sys.tasks
    ensures DoSmall(f, Other(DoSteal(c, v, t))) == f.(sys := Steal(f.sys, c, v, t))
  {
  }

  // ----- runs

  /** The flag is set too late: since the look, the task was taken out of its queue or loaded by another CPU than the
      one it shall go to. */
  predicate Late(y: Tiny, m: Micro) {
    m.Flags? && m.i < |y.wakers| && Stray(y.f, Sets(y.wakers[m.i].t, y.wakers[m.i].c))
  }

  /** The step of `SchedSections` that a step is; taking out and clearing are none. */
  function SeenSmall(y: Tiny, m: Micro): Option<Small> {
    match m
    case Does(x) => Some(x)
    case Glances(t, _) => Some(Other(DoLook(t)))
    case Flags(i) => if i < |y.wakers| then Some(Sets(y.wakers[i].t, y.wakers[i].c)) else None
    case TakesOut(_, _, _) => None
    case Clears(_) => None
    case Settles(i) => if i < |y.takes| then Some(Other(SettledAs(y.takes[i]))) else None
  }

  lemma MicroSim(y: Tiny, m: Micro)
    requires TinyInv(y) && CanMicro(y, m) && !Late(y, m)
    ensures TinyInv(DoMicro(y, m))
    ensures SeenSmall(y, m).None? ==> Back(DoMicro(y, m)) == Back(y)
    ensures SeenSmall(y, m).Some? ==>
              var x := SeenSmall(y, m).value;
              CanDo(Back(y), x) && !Stray(Back(y), x) && Back(DoMicro(y, m)) == DoSmall(Back(y), x)
  {
    hide TinyInv, Back, DoSmall, CanDo;
    match m
    case Does(x) => DoesSim(y, x);
    case Glances(t, c) =>
      GlanceBack(y, t);
      LookIs(y.f, t);
      BackRecord(y, t);
      LookIs(Back(y), t);
      WakersApart(y.(f := DoSmall(y.f, Other(DoLook(t)))), DoMicro(y, m).wakers);
    case Flags(i) =>
      FlagBack(y, y.wakers[i].t, y.wakers[i].c);
      WakersApart(y.(f := DoSmall(y.f, Sets(y.wakers[i].t, y.wakers[i].c))), DoMicro(y, m).wakers);
    case TakesOut(c, v, t) => TakesOutBack(y, c, v, t);
    case Clears(i) => ClearsBack(y, i);
    case Settles(i) => SettlesBack(y, i);
  }

  lemma DoesSim(y: Tiny, x: Small)
    requires TinyInv(y) && CanMicro(y, Does(x))
    ensures CanDo(Back(y), x) && !Stray(Back(y), x)
    ensures var z := y.(f := DoSmall(y.f, x)); TinyInv(z) && Back(z) == DoSmall(Back(y), x)
  {
    hide TinyInv, Back, DoSmall;
    match x
    case Preempts(c) => PreemptBack(y, c);
    case Yields(c) => YieldBack(y, c);
    case Joins(i) => JoinBack(y, i);
    case Other(step) => OtherBack(y, step);
  }

  /** A run in which no flag is set too late. */
  ghost predicate MicroRun(y: Tiny, ms: seq<Micro>, z: Tiny)
    decreases |ms|
  {
    if ms == [] then z == y
    else CanMicro(y, ms[0]) && !Late(y, ms[0]) && MicroRun(DoMicro(y, ms[0]), ms[1..], z)
  }

  /** It is a run of the steps of `SchedSections`, with nothing taken out before it is settled. */
  lemma {:induction false} Refines(y: Tiny, ms: seq<Micro>, z: Tiny) returns (xs: seq<Small>)
    requires TinyInv(y) && MicroRun(y, ms, z)
    ensures TinyInv(z) && SmallRun(Back(y), xs, Back(z))
    decreases |ms|
  {
    hide TinyInv, Back, CanMicro, DoMicro, Late, CanDo, Stray, DoSmall;
    if ms == [] {
      xs := [];
    } else {
      MicroSim(y, ms[0]);
      var rest := Refines(DoMicro(y, ms[0]), ms[1..], z);
      if SeenSmall(y, ms[0]).Some? {
        xs := [SeenSmall(y, ms[0]).value] + rest;
        assert xs[1..] == rest;
      } else {
        xs := rest;
      }
    }
  }

  /** The scheduler section by section.  In every run from boot in which no flag is set too late, a task sits at most
      once in at most one run queue, counted there, and no CPU runs it meanwhile; `queued` says exactly that it sits
      in one, is on its way to one, or was taken out and is not yet cleared; two CPUs never have its context loaded,
      and a CPU that does not have it never has it in its queue; each load is the number of tasks counted there. */
  lemma Safety(n: nat, ms: seq<Micro>, y: Tiny)
    requires MicroRun(Tiny(Fine(Boot(n), []), [], []), ms, y)
    ensures forall c, t :: 0 <= c < |y.f.sys.cpus| && t in y.f.sys.cpus[c].queue ==> OnceHere(y, c, t)
    ensures forall t :: t in y.f.sys.tasks ==> (y.f.sys.tasks[t].queued <==> Somewhere(y, t))
    ensures forall c, d, t ::
              0 <= c < |y.f.sys.cpus| && 0 <= d < |y.f.sys.cpus| && Aboard(y.f.sys.cpus[c], t)
                  && Aboard(y.f.sys.cpus[d], t)
              ==> c == d
    ensures forall c :: 0 <= c < |y.f.sys.cpus| ==> y.f.sys.cpus[c].load == |CountedOn(y.f.sys.tasks, c)|
  {
    hide MicroRun, TinyInv, OnceHere, Somewhere, CountedOn;
    StartsTiny(n);
    var xs := Refines(Tiny(Fine(Boot(n), []), [], []), ms, y);
    forall c, t | 0 <= c < |y.f.sys.cpus| && t in y.f.sys.cpus[c].queue
      ensures OnceHere(y, c, t)
    {
      HereOnce(y, c, t);
    }
    forall t | t in y.f.sys.tasks
      ensures y.f.sys.tasks[t].queued <==> Somewhere(y, t)
    {
      FlagExact(y, t);
    }
    forall c, d, t | 0 <= c < |y.f.sys.cpus| && 0 <= d < |y.f.sys.cpus| && Aboard(y.f.sys.cpus[c], t)
        && Aboard(y.f.sys.cpus[d], t)
      ensures c == d
    {
      LoadedOnce(y, c, t);
      LoadedOnce(y, d, t);
    }
    forall c | 0 <= c < |y.f.sys.cpus|
      ensures y.f.sys.cpus[c].load == |CountedOn(y.f.sys.tasks, c)|
    {
      LoadBack(y, c);
    }
  }

  /** It sits there once and in no other queue, in line for that CPU, and no CPU has taken it out. */
  predicate OnceHere(y: Tiny, c: nat, t: nat)
    requires c < |y.f.sys.cpus|
  {
    SitsOnce(y.f, c, t) && !IsOut(y.takes, t)
  }

  /** In a queue, on its way to one, or just out of one. */
  predicate Somewhere(y: Tiny, t: nat) {
    || (exists c :: 0 <= c < |y.f.sys.cpus| && t in y.f.sys.cpus[c].queue)
    || Waits(y.f.pend, t) || StillFlagged(y.takes, t)
  }

  lemma HereOnce(y: Tiny, c: nat, t: nat)
    requires TinyInv(y) && c < |y.f.sys.cpus| && t in y.f.sys.cpus[c].queue
    ensures OnceHere(y, c, t)
  {
    hide FineInv, BackSys, TakesOk, OutOf;
    QueuedNotOut(y, c, t);
    BackRecord(y, t);
    BackSeen(y, c);
    QueuedOnce(Back(y), c, t);
    forall d | 0 <= d < |y.f.sys.cpus|
      ensures !Holds(y.f.sys.cpus[d], t)
    {
      BackSeen(y, d);
    }
  }

  lemma FlagExact(y: Tiny, t: nat)
    requires TinyInv(y) && t in y.f.sys.tasks
    ensures y.f.sys.tasks[t].queued <==> Somewhere(y, t)
  {
    hide FineInv, BackSys, TakesOk, OutOf;
    BackRecord(y, t);
    if IsOut(y.takes, t) {
      var i :| 0 <= i < |y.takes| && y.takes[i].t == t;
      OutFlag(y, i);
    } else {
      if y.f.sys.tasks[t].queued {
        QueuedSomewhere(Back(y), t);
        if c :| 0 <= c < |y.f.sys.cpus| && t in Back(y).sys.cpus[c].queue {
          BackSeen(y, c);
          if t in OutOf(y.takes, c) {
            OutIs(y.takes, c, t);
          }
        }
      }
      if Waits(y.f.pend, t) {
        WaitsQueued(Back(y), t);
      }
      if c :| 0 <= c < |y.f.sys.cpus| && t in y.f.sys.cpus[c].queue {
        QueuedNotOut(y, c, t);
      }
    }
  }

  lemma OutFlag(y: Tiny, i: nat)
    requires TinyInv(y) && i < |y.takes|
    ensures y.takes[i].t in y.f.sys.tasks
    ensures y.f.sys.tasks[y.takes[i].t].queued <==> Somewhere(y, y.takes[i].t)
  {
    hide FineInv, BackSys, OutOf;
    var t := y.takes[i].t;
    OutQueued(y, i);
    if c :| 0 <= c < |y.f.sys.cpus| && t in y.f.sys.cpus[c].queue {
      QueuedNotOut(y, c, t);
    }
  }

  lemma {:induction false} OutIs(takes: seq<Take>, v: nat, t: nat)
    requires t in OutOf(takes, v)
    ensures IsOut(takes, t)
  {
    var n := |takes| - 1;
    if takes[n].t == t {
      assert IsOut(takes, t);
    } else {
      OutIs(takes[..n], v, t);
      var i :| 0 <= i < n && takes[..n][i].t == t;
      assert takes[i].t == t;
    }
  }

  lemma LoadedOnce(y: Tiny, c: nat, t: nat)
    requires TinyInv(y) && c < |y.f.sys.cpus| && Aboard(y.f.sys.cpus[c], t)
    ensures t in y.f.sys.tasks && y.f.sys.tasks[t].lastCpu == c
  {
    hide FineInv, BackSys, TakesOk, OutOf;
    BackSeen(y, c);
    AboardOnce(Back(y), c, t);
    BackRecord(y, t);
  }

  lemma LoadBack(y: Tiny, c: nat)
    requires TinyInv(y) && c < |y.f.sys.cpus|
    ensures y.f.sys.cpus[c].load == |CountedOn(y.f.sys.tasks, c)|
  {
    hide FineInv, TakesOk, OutOf;
    BackSeen(y, c);
    LoadExact(Back(y), c);
    assert CountedOn(Back(y).sys.tasks, c) == CountedOn(y.f.sys.tasks, c);
  }

  lemma StartsTiny(n: nat)
    ensures TinyInv(Tiny(Fine(Boot(n), []), [], []))
  {
    hide FineInv;
    Starts(n);
    SameSys(BackSys(Boot(n), []), Boot(n));
  }

  // ----- flags that are set too late

  /** The flag is set and the task joins the queue. */
  function Joined(s: Sys, c: nat, t: nat): Sys
    requires c < |s.cpus| && t in s.tasks
  {
    Push(Account(SetTask(s, t, s.tasks[t].(queued := true)), c, t), c, t)
  }

  lemma FlagAndJoin(y: Tiny, i: nat) returns (z: Tiny, w: Tiny)
    requires CanMicro(y, Flags(i)) && Late(y, Flags(i))
    ensures z == DoMicro(y, Flags(i)) && CanMicro(z, Does(Joins(|y.f.pend|)))
    ensures w == DoMicro(z, Does(Joins(|y.f.pend|)))
    ensures w.takes == y.takes && w.f == y.f.(sys := Joined(y.f.sys, y.wakers[i].c, y.wakers[i].t))
  {
    hide Account, Push;
    z := DoMicro(y, Flags(i));
    w := DoMicro(z, Does(Joins(|y.f.pend|)));
    var p := Pending(y.wakers[i].t, y.wakers[i].c, false);
    assert z.f.pend == y.f.pend + [p] && z.f.pend[|y.f.pend|] == p;
    assert z.f.pend[..|y.f.pend|] + z.f.pend[|y.f.pend| + 1..] == y.f.pend;
  }

  lemma JoinedIs(s: Sys, c: nat, t: nat)
    requires c < |s.cpus| && t in s.tasks
    ensures var j := Joined(s, c, t);
            && |j.cpus| == |s.cpus| && t in j.cpus[c].queue && t in j.tasks && j.tasks[t].counted
            && j.tasks[t].state == s.tasks[t].state && j.tasks[t].onCpu == s.tasks[t].onCpu
            && j.tasks[t].lastCpu == s.tasks[t].lastCpu
            && forall d :: 0 <= d < |s.cpus| ==>
                 j.cpus[d].phase == s.cpus[d].phase && j.cpus[d].current == s.cpus[d].current
  {
  }

  /** The task was not taken out: a CPU holds it, or another one than `c` has its context. */
  lemma LateHeld(y: Tiny, t: nat, c: nat)
    requires TinyInv(y) && CanDo(y.f, Sets(t, c)) && Stray(y.f, Sets(t, c)) && !IsOut(y.takes, t)
    ensures !InLine(Joined(y.f.sys, c, t), c, t)
  {
    hide FineInv, BackSys, OutOf, TakesOk, Joined, Abs;
    BackRecord(y, t);
    JoinedIs(y.f.sys, c, t);
    Settled(Back(y), t);
    TaskAtAbs(Back(y), t);
    var r := y.f.sys.tasks[t];
    if r.counted {
      BackSeen(y, r.schedCpu);
      assert Holds(Joined(y.f.sys, c, t).cpus[r.schedCpu], t);
    }
  }

  /** It was: the CPU that took it out will run it, or count it no more. */
  lemma LateSettles(y: Tiny, w: Tiny, j: nat, c: nat)
    requires TinyInv(y) && j < |y.takes| && y.takes[j].cleared && c < |y.f.sys.cpus| && y.takes[j].t in y.f.sys.tasks
    requires w.takes == y.takes && w.f == y.f.(sys := Joined(y.f.sys, c, y.takes[j].t))
    ensures CanMicro(w, Settles(j))
    ensures var u, t := DoMicro(w, Settles(j)), y.takes[j].t;
            |u.f.sys.cpus| == |y.f.sys.cpus| && t in u.f.sys.cpus[c].queue && !InLine(u.f.sys, c, t)
  {
    hide FineInv, BackSys, OutOf, TakesOk, Joined, TinyInv, Others;
    OutQueued(y, j);
    var k := y.takes[j];
    JoinedIs(y.f.sys, c, k.t);
    ChoosesEnds(w.f.sys, k.c, k.t, c);
    StealEnds(w.f.sys, k.c, k.v, k.t, c);
    var u := DoMicro(w, Settles(j));
    assert y.f.sys.tasks[k.t].state == Ready ==> Holds(u.f.sys.cpus[k.c], k.t);
  }

  lemma ChoosesEnds(s: Sys, c: nat, t: nat, d: nat)
    requires c < |s.cpus| && d < |s.cpus| && t in s.tasks && t in s.cpus[d].queue && s.tasks[t].state != Running
    ensures var u := Chooses(s, c, t);
            && |u.cpus| == |s.cpus| && t in u.cpus[d].queue && t in u.tasks
            && if s.tasks[t].state == Ready then u.cpus[c].phase == Chosen(Some(t)) else !u.tasks[t].counted
  {
  }

  lemma StealEnds(s: Sys, c: nat, v: nat, t: nat, d: nat)
    requires c < |s.cpus| && v < |s.cpus| && d < |s.cpus|
    requires t in s.tasks && t in s.cpus[d].queue && s.tasks[t].state != Running
    ensures s.tasks[t].state == Ready ==>
              var u := C.TakeOn(s, c, v, t);
              |u.cpus| == |s.cpus| && t in u.cpus[d].queue && u.cpus[c].phase == Chosen(Some(t))
    ensures s.tasks[t].state != Ready ==>
              var u := C.Reject(s, c, t);
              |u.cpus| == |s.cpus| && t in u.cpus[d].queue && t in u.tasks && !u.tasks[t].counted
  {
  }

  /** A flag that is set too late always breaks it: once the task has joined the queue, and the CPU that took it out
      has settled if there is one, the task is in that queue and not in line there. */
  lemma LateBreaks(y: Tiny, i: nat) returns (z: Tiny, w: Tiny, rest: seq<Micro>, u: Tiny)
    requires TinyInv(y) && CanMicro(y, Flags(i)) && Late(y, Flags(i))
    ensures z == DoMicro(y, Flags(i)) && CanMicro(z, Does(Joins(|y.f.pend|)))
    ensures w == DoMicro(z, Does(Joins(|y.f.pend|))) && MicroRun(w, rest, u)
    ensures var k := y.wakers[i];
            k.c < |u.f.sys.cpus| && k.t in u.f.sys.cpus[k.c].queue && !SitsOnce(u.f, k.c, k.t)
  {
    hide FineInv, BackSys, OutOf, TinyInv, Joined, InLine, DoMicro, MicroRun;
    var t, c := y.wakers[i].t, y.wakers[i].c;
    z, w := FlagAndJoin(y, i);
    if j :| 0 <= j < |y.takes| && y.takes[j].t == t {
      OutQueued(y, j);
      LateSettles(y, w, j, c);
      rest, u := [Settles(j)], DoMicro(w, Settles(j));
      NoMoves(u);
      assert rest[1..] == [];
      OneMove(rest, w, u, u);
    } else {
      LateHeld(y, t, c);
      JoinedIs(y.f.sys, c, t);
      rest, u := [], w;
      NoMoves(u);
    }
  }

  /** So a flag may be set exactly when it is not too late. */
  lemma FlagIff(y: Tiny, i: nat)
    requires TinyInv(y) && CanMicro(y, Flags(i))
    ensures TinyInv(DoMicro(y, Flags(i))) <==> !Late(y, Flags(i))
  {
    hide TinyInv, DoMicro, MicroRun, SitsOnce, IsOut, Stray, CanDo;
    if Late(y, Flags(i)) {
      var z, w, rest, u := LateBreaks(y, i);
      if TinyInv(z) {
        MicroSim(z, Does(Joins(|y.f.pend|)));
        var xs := Refines(w, rest, u);
        HereOnce(u, y.wakers[i].c, y.wakers[i].t);
      }
    } else {
      MicroSim(y, Flags(i));
    }
  }

  // ----- two such runs

  /** Two CPUs and one task.  It is woken for CPU 1; a second wake, for CPU 0, sees it ready; CPU 1 takes it out and
      will run it. */
  function Stage(k: nat): Tiny {
    var idle := Cpu(None, Normal, 0, multiset{});
    var woken := FRESH.(queued := true, counted := true, schedCpu := 1);
    var out := Cpu(None, Selecting, 1, multiset{});
    match k
    case 0 => Tiny(Fine(Boot(2), []), [], [])
    case 1 => Tiny(Fine(Scene(0), []), [], [])
    case 2 => Tiny(Fine(Scene(0), []), [], [Waker(0, 1)])
    case 3 => Tiny(Fine(Sys(map[0 := FRESH.(queued := true)], [idle, idle]), [Pending(0, 1, false)]), [], [])
    case 4 => Tiny(Fine(Scene(1), []), [], [])
    case 5 => Tiny(Fine(Scene(2), []), [], [])
    case 6 => Tiny(Fine(Scene(2), []), [], [Waker(0, 0)])
    case 7 => Tiny(Fine(Sys(map[0 := woken], [idle, out]), []), [Take(0, 1, 1, false)], [Waker(0, 0)])
    case 8 => Tiny(Fine(Sys(map[0 := woken.(queued := false)], [idle, out]), []), [Take(0, 1, 1, true)],
                   [Waker(0, 0)])
    case _ => Tiny(Fine(Scene(3), []), [], [Waker(0, 0)])
  }

  ghost predicate Moves(y: Tiny, m: Micro, z: Tiny) {
    CanMicro(y, m) && !Late(y, m) && DoMicro(y, m) == z
  }

  lemma StageCreates()
    ensures Moves(Stage(0), Does(Other(DoCreate(0, false))), Stage(1))
  {
    SceneBegins();
  }

  lemma StageWakes()
    ensures Moves(Stage(1), Glances(0, 1), Stage(2)) && Moves(Stage(2), Flags(0), Stage(3))
  {
    SameSys(SetTask(Scene(0), 0, FRESH.(queued := true)), Stage(3).f.sys);
  }

  lemma StageJoins()
    ensures Moves(Stage(3), Does(Joins(0)), Stage(4))
  {
    var s := Stage(3).f.sys;
    SameSys(Push(Account(s, 1, 0), 1, 0), Scene(1));
  }

  lemma StagePreempts()
    ensures Moves(Stage(4), Does(Preempts(1)), Stage(5)) && Moves(Stage(5), Glances(0, 0), Stage(6))
  {
    ScenePreempts();
  }

  lemma StageTakes()
    ensures Moves(Stage(6), TakesOut(1, 1, 0), Stage(7))
  {
    assert multiset{0} - multiset{0} == multiset{};
    SameSys(Pull(Scene(2), 1, 0), Stage(7).f.sys);
  }

  lemma StageClears()
    ensures Moves(Stage(7), Clears(0), Stage(8))
  {
    var s := Stage(7).f.sys;
    SameSys(SetTask(s, 0, s.tasks[0].(queued := false)), Stage(8).f.sys);
  }

  lemma StageSettles()
    ensures Moves(Stage(8), Settles(0), Stage(9))
  {
    SameSys(Chooses(Stage(8).f.sys, 1, 0), Scene(3));
  }

  /** The flag of the second wake is too late both while CPU 1 has yet to look at the state, and after it has. */
  lemma WindowReached() returns (ms: seq<Micro>)
    ensures MicroRun(Stage(0), ms, Stage(8)) && CanMicro(Stage(8), Flags(0)) && Late(Stage(8), Flags(0))
    ensures MicroRun(Stage(0), ms + [Settles(0)], Stage(9)) && CanMicro(Stage(9), Flags(0)) && Late(Stage(9), Flags(0))
  {
    hide MicroRun, CanMicro, Late;
    ms := [Does(Other(DoCreate(0, false))), Glances(0, 1), Flags(0), Does(Joins(0)), Does(Preempts(1)), Glances(0, 0),
           TakesOut(1, 1, 0), Clears(0)];
    StageRun(ms + [Settles(0)], 9);
    StageRun(ms, 8);
    StageLate();
  }

  lemma StageLate()
    ensures CanMicro(Stage(8), Flags(0)) && Late(Stage(8), Flags(0))
    ensures CanMicro(Stage(9), Flags(0)) && Late(Stage(9), Flags(0))
  {
  }

  lemma StageRun(ms: seq<Micro>, k: nat)
    requires 8 <= k <= 9
    requires ms == [Does(Other(DoCreate(0, false))), Glances(0, 1), Flags(0), Does(Joins(0)), Does(Preempts(1)),
                    Glances(0, 0), TakesOut(1, 1, 0), Clears(0), Settles(0)][..k]
    ensures MicroRun(Stage(0), ms, Stage(k))
  {
    hide Stage, MicroRun, Moves;
    StageCreates();
    StageWakes();
    StageJoins();
    StagePreempts();
    StageTakes();
    StageClears();
    StageSettles();
    NoMoves(Stage(k));
    assert ms[k..] == [] && ms[0..] == ms;
    if k == 9 {
      OneMove(ms[8..], Stage(8), Stage(9), Stage(k));
    }
    OneMove(ms[7..], Stage(7), Stage(8), Stage(k));
    OneMove(ms[6..], Stage(6), Stage(7), Stage(k));
    OneMove(ms[5..], Stage(5), Stage(6), Stage(k));
    OneMove(ms[4..], Stage(4), Stage(5), Stage(k));
    OneMove(ms[3..], Stage(3), Stage(4), Stage(k));
    OneMove(ms[2..], Stage(2), Stage(3), Stage(k));
    OneMove(ms[1..], Stage(1), Stage(2), Stage(k));
    OneMove(ms[0..], Stage(0), Stage(1), Stage(k));
  }

  /** What follows once the flag is set after all: the task joins the queue of CPU 0, CPU 1 runs it and puts it aside,
      where it does not queue it again, and CPU 0 takes it out and runs it. */
  function Sequel(k: nat): Tiny {
    var r := FRESH.(state := Running, queued := true, counted := true, schedCpu := 1);
    var run := r.(lastCpu := 1, onCpu := true);
    var aside := run.(state := Ready, migratable := false);
    var idle, chosen := Cpu(None, Normal, 0, multiset{0}), Cpu(None, Chosen(Some(0)), 1, multiset{});
    var picks, left := Cpu(None, Selecting, 0, multiset{}), Cpu(Some(0), Selecting, 1, multiset{});
    match k
    case 0 => Tiny(Fine(Sys(map[0 := r], [idle.(queue := multiset{}), chosen]), [Pending(0, 0, false)]), [], [])
    case 1 => Tiny(Fine(Sys(map[0 := r], [idle, chosen]), []), [], [])
    case 2 => Tiny(Fine(Sys(map[0 := run], [idle, left.(phase := Leaving(None))]), []), [], [])
    case 3 => Tiny(Fine(Sys(map[0 := run], [idle, left.(phase := Normal)]), []), [], [])
    case 4 => Tiny(Fine(Sys(map[0 := aside], [idle, left]), []), [], [])
    case 5 => Tiny(Fine(Sys(map[0 := aside], [picks.(queue := multiset{0}), left]), []), [], [])
    case 6 => Tiny(Fine(Sys(map[0 := aside], [picks, left]), []), [Take(0, 0, 0, false)], [])
    case 7 => Tiny(Fine(Sys(map[0 := aside.(queued := false)], [picks, left]), []), [Take(0, 0, 0, true)], [])
    case 8 => Tiny(Fine(Sys(map[0 := run.(queued := false)], [picks.(phase := Chosen(Some(0))), left]), []), [], [])
    case _ => Tiny(Fine(Sys(map[0 := run.(queued := false, lastCpu := 0, schedCpu := 0)],
                            [picks.(current := Some(0), phase := Leaving(None)), left]), []), [], [])
  }

  lemma SequelFlags()
    ensures CanMicro(Stage(9), Flags(0)) && DoMicro(Stage(9), Flags(0)) == Sequel(0)
  {
    var s := Scene(3);
    SameSys(SetTask(s, 0, s.tasks[0].(queued := true)), Sequel(0).f.sys);
  }

  lemma SequelJoins()
    ensures Moves(Sequel(0), Does(Joins(0)), Sequel(1))
  {
    SameSys(Push(Account(Sequel(0).f.sys, 0, 0), 0, 0), Sequel(1).f.sys);
  }

  lemma SequelSwitches()
    ensures Moves(Sequel(1), Does(Other(DoSwitch(1))), Sequel(2))
  {
    SameSys(Switch(Sequel(1).f.sys, 1), Sequel(2).f.sys);
  }

  lemma SequelReleases()
    ensures Moves(Sequel(2), Does(Other(DoRelease(1))), Sequel(3))
  {
    SameSys(Release(Sequel(2).f.sys, 1), Sequel(3).f.sys);
  }

  lemma SequelPreempts()
    ensures Moves(Sequel(3), Does(Preempts(1)), Sequel(4))
  {
    SameSys(Marks(Sequel(3).f, 1, 0).sys, Sequel(4).f.sys);
  }

  lemma SequelSelects()
    ensures Moves(Sequel(4), Does(Preempts(0)), Sequel(5))
  {
    SameSys(Preempt(Sequel(4).f.sys, 0), Sequel(5).f.sys);
  }

  lemma SequelTakes()
    ensures Moves(Sequel(5), TakesOut(0, 0, 0), Sequel(6))
  {
    assert multiset{0} - multiset{0} == multiset{};
    SameSys(Pull(Sequel(5).f.sys, 0, 0), Sequel(6).f.sys);
  }

  lemma SequelClears()
    ensures Moves(Sequel(6), Clears(0), Sequel(7))
  {
    var s := Sequel(6).f.sys;
    SameSys(SetTask(s, 0, s.tasks[0].(queued := false)), Sequel(7).f.sys);
  }

  lemma SequelSettles()
    ensures Moves(Sequel(7), Settles(0), Sequel(8))
  {
    SameSys(Chooses(Sequel(7).f.sys, 0, 0), Sequel(8).f.sys);
  }

  lemma SequelEnds()
    ensures Moves(Sequel(8), Does(Other(DoSwitch(0))), Sequel(9))
  {
    SameSys(Switch(Sequel(8).f.sys, 0), Sequel(9).f.sys);
  }

  /** A wake whose look and flag lie on either side of a whole selection: from there, with no other flag set too
      late, two CPUs come to have the context of the task loaded. */
  lemma Straddle() returns (ms: seq<Micro>, y: Tiny, rest: seq<Micro>, z: Tiny)
    ensures MicroRun(Tiny(Fine(Boot(2), []), [], []), ms, y) && CanMicro(y, Flags(0)) && Late(y, Flags(0))
    ensures y.takes == [] && MicroRun(DoMicro(y, Flags(0)), rest, z)
    ensures |z.f.sys.cpus| == 2 && Aboard(z.f.sys.cpus[0], 0) && Aboard(z.f.sys.cpus[1], 0)
  {
    hide MicroRun, CanMicro, Late, DoMicro;
    var some := WindowReached();
    ms, y := some + [Settles(0)], Stage(9);
    rest := [Does(Joins(0)), Does(Other(DoSwitch(1))), Does(Other(DoRelease(1))), Does(Preempts(1)), Does(Preempts(0)),
             TakesOut(0, 0, 0), Clears(0), Settles(0), Does(Other(DoSwitch(0)))];
    z := Sequel(9);
    SequelFlags();
    SequelRun(rest);
  }

  lemma SequelRun(ms: seq<Micro>)
    requires ms == [Does(Joins(0)), Does(Other(DoSwitch(1))), Does(Other(DoRelease(1))), Does(Preempts(1)),
                    Does(Preempts(0)), TakesOut(0, 0, 0), Clears(0), Settles(0), Does(Other(DoSwitch(0)))]
    ensures MicroRun(Sequel(0), ms, Sequel(9))
  {
    hide Sequel, MicroRun, Moves;
    SequelJoins();
    SequelSwitches();
    SequelReleases();
    SequelPreempts();
    SequelSelects();
    SequelTakes();
    SequelClears();
    SequelSettles();
    SequelEnds();
    NoMoves(Sequel(9));
    assert ms[9..] == [] && ms[0..] == ms;
    OneMove(ms[8..], Sequel(8), Sequel(9), Sequel(9));
    OneMove(ms[7..], Sequel(7), Sequel(8), Sequel(9));
    OneMove(ms[6..], Sequel(6), Sequel(7), Sequel(9));
    OneMove(ms[5..], Sequel(5), Sequel(6), Sequel(9));
    OneMove(ms[4..], Sequel(4), Sequel(5), Sequel(9));
    OneMove(ms[3..], Sequel(3), Sequel(4), Sequel(9));
    OneMove(ms[2..], Sequel(2), Sequel(3), Sequel(9));
    OneMove(ms[1..], Sequel(1), Sequel(2), Sequel(9));
    OneMove(ms[0..], Sequel(0), Sequel(1), Sequel(9));
  }

  lemma NoMoves(y: Tiny)
    ensures MicroRun(y, [], y)
  {
  }

  lemma OneMove(ms: seq<Micro>, y: Tiny, z: Tiny, w: Tiny)
    requires ms != [] && Moves(y, ms[0], z) && MicroRun(z, ms[1..], w)
    ensures MicroRun(y, ms, w)
  {
  }
}
