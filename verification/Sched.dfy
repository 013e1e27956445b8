/**
  The scheduler as a machine whose steps are the critical sections of `kernel/src/sched/mod.rs`: waking a
  task, putting the running one aside, popping or stealing the next one, switching to it, and releasing the
  previous one.  Steps of all CPUs interleave freely.
  */
module Sched {
  import opened Common

  datatype TaskState = Running | Ready | Waiting | Dying | Dead

  const NO_CPU: int := -1

  datatype Task = Task(state: TaskState, queued: bool, wakePending: bool, onCpu: bool, lastCpu: int,
                       schedCpu: int, counted: bool, migratable: bool, bound: bool)

  /** Where a CPU stands in `do_reschedule`.  `None` stands for the idle task. */
  datatype Phase =
    | Normal
    | Selecting
    | Chosen(to: Option<nat>)
    | Leaving(prev: Option<nat>)

  datatype Cpu = Cpu(current: Option<nat>, phase: Phase, load: int, queue: multiset<nat>)

  datatype Sys = Sys(tasks: map<nat, Task>, cpus: seq<Cpu>)

  // ----- elementary updates

  function SetTask(s: Sys, t: nat, r: Task): Sys {
    s.(tasks := s.tasks[t := r])
  }

  function SetCpu(s: Sys, c: nat, r: Cpu): Sys
    requires c < |s.cpus|
  {
    s.(cpus := s.cpus[c := r])
  }

  function AddLoad(s: Sys, c: int, d: int): Sys {
    if 0 <= c < |s.cpus| then SetCpu(s, c, s.cpus[c].(load := s.cpus[c].load + d)) else s
  }

  function Push(s: Sys, c: nat, t: nat): Sys
    requires c < |s.cpus|
  {
    SetCpu(s, c, s.cpus[c].(queue := s.cpus[c].queue + multiset{t}))
  }

  function Pull(s: Sys, c: nat, t: nat): Sys
    requires c < |s.cpus|
  {
    SetCpu(s, c, s.cpus[c].(queue := s.cpus[c].queue - multiset{t}))
  }

  /** `account_load`: counts the task on `c` unless it is counted already. */
  function Account(s: Sys, c: nat, t: nat): Sys
    requires c < |s.cpus| && t in s.tasks
  {
    if s.tasks[t].counted then s
    else AddLoad(SetTask(s, t, s.tasks[t].(counted := true, schedCpu := c)), c, 1)
  }

  /** `unaccount_load`: takes the task off the load of the CPU it is counted on. */
  function Unaccount(s: Sys, t: nat): Sys
    requires t in s.tasks
  {
    if !s.tasks[t].counted then s
    else AddLoad(SetTask(s, t, s.tasks[t].(counted := false, schedCpu := NO_CPU)), s.tasks[t].schedCpu, -1)
  }

  /** `transfer_load`. */
  function Transfer(s: Sys, from: nat, to: nat, t: nat): Sys
    requires from < |s.cpus| && to < |s.cpus| && t in s.tasks
  {
    if from == to then SetTask(s, t, s.tasks[t].(schedCpu := to))
    else if s.tasks[t].counted then
      SetTask(AddLoad(AddLoad(s, from, -1), to, 1), t, s.tasks[t].(schedCpu := to))
    else Account(s, to, t)
  }

  predicate Gone(r: Task) {
    r.state == Dead || r.state == Dying
  }

  // ----- the steps

  /** `wake_target`: a task whose context is still on a CPU goes back to that CPU. */
  function WakeTarget(s: Sys, t: nat, preferred: nat): nat
    requires t in s.tasks
  {
    if s.tasks[t].onCpu && 0 <= s.tasks[t].lastCpu < |s.cpus| then s.tasks[t].lastCpu else preferred
  }

  /** `add_task` on CPU `c`. */
  function AddTask(s: Sys, c: nat, t: nat): Sys
    requires c < |s.cpus| && t in s.tasks
  {
    var r := s.tasks[t];
    if Gone(r) then s
    else if r.state == Running then SetTask(s, t, r.(wakePending := true))
    else if r.queued then SetTask(s, t, r.(state := Ready))
    else
      var s1 := SetTask(s, t, r.(state := Ready, queued := true));
      Push(Account(s1, c, t), c, t)
  }

  /** The first section of `add_task`, on the state of the task. */
  function Look(s: Sys, t: nat): Sys
    requires t in s.tasks
  {
    SetTask(s, t, Looked(s.tasks[t]))
  }

  function Looked(r: Task): Task {
    if r.state == Running then r.(wakePending := true) else if r.state == Waiting then r.(state := Ready) else r
  }

  /** The rest of it, for a task that was found ready or waiting: the flag is set, and if it was not set before the
      task joins the queue. */
  function Add(s: Sys, c: nat, t: nat): Sys
    requires c < |s.cpus| && t in s.tasks
  {
    var r := s.tasks[t];
    if r.queued then s else Push(Account(SetTask(s, t, r.(queued := true)), c, t), c, t)
  }

  /** One after the other they are `add_task`. */
  lemma AddTaskParts(s: Sys, c: nat, t: nat)
    requires c < |s.cpus| && t in s.tasks
    ensures AddTask(s, c, t) ==
            if s.tasks[t].state == Ready || s.tasks[t].state == Waiting then Add(Look(s, t), c, t) else Look(s, t)
  {
    var r := s.tasks[t];
    assert s.tasks[t := r] == s.tasks;
    assert s.tasks[t := r.(state := Ready)][t := r.(state := Ready, queued := true)]
        == s.tasks[t := r.(state := Ready, queued := true)];
  }

  /** The task may join the queue of `c`: it is counted nowhere, and no other CPU has its context. */
  predicate MayJoin(r: Task, c: int) {
    !r.counted && (r.onCpu ==> r.lastCpu == c)
  }

  /** `wake_task`, with the CPU that `choose_target_cpu` prefers left open. */
  function Wake(s: Sys, t: nat, preferred: nat): Sys
    requires preferred < |s.cpus| && t in s.tasks
  {
    AddTask(s, WakeTarget(s, t, preferred), t)
  }

  /** Back into the queue of the CPU it runs on, moving its load there if need be: the end of
      `reschedule` and of an interrupted `do_yield`. */
  function Requeue(s: Sys, c: nat, t: nat): Sys
    requires c < |s.cpus| && t in s.tasks
  {
    var r := s.tasks[t];
    var s1 := SetTask(s, t, r.(state := Ready, migratable := false, queued := true));
    if r.queued then s1
    else
      var owner := r.schedCpu;
      var s2 := if owner == c then s1
                else if 0 <= owner < |s.cpus| then Transfer(s1, owner, c, t)
                else Account(s1, c, t);
      Push(s2, c, t)
  }

  /** `finish_requeue_current`: the end of that, once the task is marked as queued. */
  function Requeued(s: Sys, c: nat, t: nat): Sys
    requires c < |s.cpus| && t in s.tasks
  {
    var owner := s.tasks[t].schedCpu;
    var s2 := if owner == c then s
              else if 0 <= owner < |s.cpus| then Transfer(s, owner, c, t)
              else Account(s, c, t);
    Push(s2, c, t)
  }

  function ToSelecting(s: Sys, c: nat): Sys
    requires c < |s.cpus|
  {
    SetCpu(s, c, s.cpus[c].(phase := Selecting))
  }

  /** `reschedule`: the running task is put back into the queue. */
  function Preempt(s: Sys, c: nat): Sys
    requires c < |s.cpus| && s.cpus[c].phase == Normal
    requires s.cpus[c].current.Some? ==> s.cpus[c].current.value in s.tasks
  {
    match s.cpus[c].current
    case None => ToSelecting(s, c)
    case Some(t) => ToSelecting(if Gone(s.tasks[t]) then Unaccount(s, t) else Requeue(s, c, t), c)
  }

  /** `do_yield`: the running task goes to sleep, unless a wake came in while it ran. */
  function Yield(s: Sys, c: nat): Sys
    requires c < |s.cpus| && s.cpus[c].phase == Normal
    requires s.cpus[c].current.Some? ==> s.cpus[c].current.value in s.tasks
  {
    match s.cpus[c].current
    case None => ToSelecting(s, c)
    case Some(t) =>
      var r := s.tasks[t];
      ToSelecting(
        if Gone(r) then Unaccount(s, t)
        else if r.wakePending then Requeue(SetTask(s, t, r.(wakePending := false)), c, t)
        else Unaccount(SetTask(s, t, r.(state := Waiting, migratable := false)), t),
        c)
  }

  /** One turn of the loop in `next`: `t` was popped from the CPU's own queue. */
  function Pop(s: Sys, c: nat, t: nat): Sys
    requires c < |s.cpus| && t in s.tasks
  {
    var r := s.tasks[t].(queued := false);
    var s1 := Pull(s, c, t);
    if r.state == Ready then
      SetCpu(SetTask(s1, t, r.(state := Running, migratable := true)), c, s1.cpus[c].(phase := Chosen(Some(t))))
    else if r.state == Running then SetTask(s1, t, r)
    else Unaccount(SetTask(s1, t, r.(wakePending := false)), t)
  }

  /** `try_steal` took `t` from the queue of `victim`. */
  function Steal(s: Sys, c: nat, victim: nat, t: nat): Sys
    requires c < |s.cpus| && victim < |s.cpus| && t in s.tasks
  {
    var r := s.tasks[t].(queued := false);
    var s1 := Pull(s, victim, t);
    if r.state == Ready then
      var s2 := Transfer(SetTask(s1, t, r.(state := Running, migratable := true)), victim, c, t);
      SetCpu(s2, c, s2.cpus[c].(phase := Chosen(Some(t))))
    else
      var s2 := if r.state == Running then SetTask(s1, t, r)
          else Unaccount(SetTask(s1, t, r.(wakePending := false)), t);
      SetCpu(s2, c, s2.cpus[c].(phase := Chosen(None)))
  }

  /** Nothing to run and nothing to steal. */
  function PickIdle(s: Sys, c: nat): Sys
    requires c < |s.cpus|
  {
    SetCpu(s, c, s.cpus[c].(phase := Chosen(None)))
  }

  /** The rest of `do_reschedule` up to the context switch. */
  function Switch(s: Sys, c: nat): Sys
    requires c < |s.cpus| && s.cpus[c].phase.Chosen?
    requires s.cpus[c].phase.to.Some? ==> s.cpus[c].phase.to.value in s.tasks
  {
    var to := s.cpus[c].phase.to;
    var from := s.cpus[c].current;
    if from == to then SetCpu(s, c, s.cpus[c].(phase := Normal))
    else
      var s1 := match to {
        case None => s
        case Some(t) =>
          var s0 := Account(SetTask(s, t, s.tasks[t].(lastCpu := c, schedCpu := c)), c, t);
          SetTask(s0, t, s0.tasks[t].(onCpu := true))
      };
      SetCpu(s1, c, s1.cpus[c].(current := to, phase := Leaving(from)))
  }

  /** `post_switch`, on the new task's stack: the previous context is released. */
  function Release(s: Sys, c: nat): Sys
    requires c < |s.cpus| && s.cpus[c].phase.Leaving?
    requires s.cpus[c].phase.prev.Some? ==> s.cpus[c].phase.prev.value in s.tasks
  {
    var s1 := match s.cpus[c].phase.prev {
      case None => s
      case Some(t) => SetTask(s, t, s.tasks[t].(onCpu := false))
    };
    SetCpu(s1, c, s1.cpus[c].(phase := Normal))
  }

  /** Another thread of the process, or the task itself, marks it dead. */
  function Kill(s: Sys, t: nat): Sys
    requires t in s.tasks
  {
    SetTask(s, t, s.tasks[t].(state := Dead))
  }

  const FRESH: Task := Task(Ready, false, false, false, NO_CPU, NO_CPU, false, true, false)

  function Create(s: Sys, t: nat, bound: bool): Sys {
    SetTask(s, t, FRESH.(bound := bound))
  }

  // ----- the invariant

  ghost function CountedOn(tasks: map<nat, Task>, c: int): set<nat> {
    set t | t in tasks && tasks[t].counted && tasks[t].schedCpu == c
  }

  /** A CPU has the context of `t` loaded. */
  predicate Aboard(cpu: Cpu, t: nat) {
    cpu.current == Some(t) || cpu.phase == Leaving(Some(t))
  }

  /** A CPU runs `t` or has committed to run it. */
  predicate Holds(cpu: Cpu, t: nat) {
    || (cpu.current == Some(t) && (cpu.phase == Normal || cpu.phase.Leaving?))
    || cpu.phase == Chosen(Some(t))
  }

  /** What must hold of one task, given the CPUs. */
  predicate TaskOk(cpus: seq<Cpu>, t: nat, r: Task) {
    // the flags agree: counted means assigned, queued means in the queue of the assigned CPU
    && (r.counted <==> r.schedCpu != NO_CPU)
    && (r.counted ==> 0 <= r.schedCpu < |cpus|)
    && (r.queued ==> r.counted && t in cpus[r.schedCpu].queue)
    && (r.queued ==> r.state != Running)
    // a task that is counted and in no queue is held by the CPU it is assigned to
    && (r.counted && !r.queued ==> r.state != Ready && r.state != Waiting && Holds(cpus[r.schedCpu], t))
    && (r.state == Running ==> r.counted)
    // a loaded context belongs to one CPU, and the task is assigned nowhere else
    && (r.onCpu ==> 0 <= r.lastCpu < |cpus| && Aboard(cpus[r.lastCpu], t))
    && (r.onCpu && r.counted ==> r.schedCpu == r.lastCpu)
    && (r.onCpu && (r.state == Waiting || r.state == Ready) ==> !r.migratable)
  }

  /** What must hold of one CPU, given the tasks. */
  predicate CpuOk(tasks: map<nat, Task>, c: nat, cpu: Cpu) {
    && (forall t :: t in cpu.queue ==> t in tasks && tasks[t].queued && tasks[t].schedCpu == c && cpu.queue[t] == 1)
    && (cpu.current.Some? ==> cpu.current.value in tasks
                              && tasks[cpu.current.value].onCpu && tasks[cpu.current.value].lastCpu == c)
    && (cpu.phase.Leaving? && cpu.phase.prev.Some? ==>
          && cpu.phase.prev.value in tasks && cpu.phase.prev != cpu.current
          && tasks[cpu.phase.prev.value].onCpu && tasks[cpu.phase.prev.value].lastCpu == c)
    && (cpu.current.Some? && (cpu.phase == Normal || cpu.phase.Leaving?) ==> Engaged(tasks, c, cpu.current.value))
    && (cpu.phase.Chosen? && cpu.phase.to.Some? ==>
          && Engaged(tasks, c, cpu.phase.to.value)
          && (tasks[cpu.phase.to.value].onCpu ==> cpu.current == cpu.phase.to))
  }

  /** Taken out of the queues by CPU `c` and counted there. */
  predicate Engaged(tasks: map<nat, Task>, c: nat, t: nat) {
    && t in tasks && !tasks[t].queued && tasks[t].counted && tasks[t].schedCpu == c
    && tasks[t].state != Ready && tasks[t].state != Waiting
  }

  ghost predicate Inv(s: Sys) {
    && (forall t :: t in s.tasks ==> TaskOk(s.cpus, t, s.tasks[t]))
    && (forall c :: 0 <= c < |s.cpus| ==> CpuOk(s.tasks, c, s.cpus[c]))
    && (forall c :: 0 <= c < |s.cpus| ==> s.cpus[c].load == |CountedOn(s.tasks, c)|)
  }

  // ----- every step keeps it

  function Counts(r: Task, c: int): nat {
    if r.counted && r.schedCpu == c then 1 else 0
  }

  lemma CountedAt(tasks: map<nat, Task>, t: nat, r: Task, c: int, u: nat)
    ensures u in CountedOn(tasks[t := r], c) <==> if u == t then Counts(r, c) == 1 else u in CountedOn(tasks, c)
    ensures t in tasks ==> (t in CountedOn(tasks, c) <==> Counts(tasks[t], c) == 1)
    ensures t !in tasks ==> t !in CountedOn(tasks, c)
  {
  }

  lemma CountSet(tasks: map<nat, Task>, t: nat, r: Task, c: int)
    requires t in tasks
    ensures |CountedOn(tasks[t := r], c)| == |CountedOn(tasks, c)| - Counts(tasks[t], c) + Counts(r, c)
  {
    hide CountedOn;
    var a, b := CountedOn(tasks, c), CountedOn(tasks[t := r], c);
    forall u
      ensures u in b <==> if u == t then Counts(r, c) == 1 else u in a
    {
      CountedAt(tasks, t, r, c, u);
    }
    CountedAt(tasks, t, r, c, t);
    var rest := a - {t};
    assert b - {t} == rest;
    assert a == if t in a then rest + {t} else rest;
    assert b == if t in b then rest + {t} else rest;
  }

  /** Task `t` concerns no CPU but `c`. */
  predicate Owns(r: Task, c: nat) {
    (r.counted ==> r.schedCpu == c) && (r.onCpu ==> r.lastCpu == c)
  }

  predicate Uninvolved(cpu: Cpu, t: nat) {
    && t !in cpu.queue && cpu.current != Some(t)
    && cpu.phase != Leaving(Some(t)) && cpu.phase != Chosen(Some(t))
  }

  lemma OthersUninvolved(s: Sys, t: nat, c: nat, d: nat)
    requires Inv(s) && t in s.tasks && c < |s.cpus| && d < |s.cpus| && d != c && Owns(s.tasks[t], c)
    ensures Uninvolved(s.cpus[d], t)
  {
    assert CpuOk(s.tasks, d, s.cpus[d]);
  }

  /** A CPU looks the same to task `u` before and after. */
  predicate SameFor(cpu: Cpu, cpu': Cpu, u: nat) {
    && (u in cpu.queue <==> u in cpu'.queue)
    && (Aboard(cpu, u) <==> Aboard(cpu', u))
    && (Holds(cpu, u) <==> Holds(cpu', u))
  }

  /** `s'` differs from `s` in the records of one task and one CPU only. */
  ghost predicate OneChange(s: Sys, s': Sys, t: nat, c: nat) {
    && t in s.tasks && t in s'.tasks && c < |s.cpus| == |s'.cpus|
    && s'.tasks == s.tasks[t := s'.tasks[t]]
    && s'.cpus == s.cpus[c := s'.cpus[c]]
  }

  /** A step on one task and one CPU keeps the invariant when it keeps it for these two, when no other
      task sees the CPU change, and when the load moves with the task. */
  lemma Local(s: Sys, s': Sys, t: nat, c: nat)
    requires Inv(s) && OneChange(s, s', t, c) && Owns(s.tasks[t], c) && Owns(s'.tasks[t], c)
    requires TaskOk(s'.cpus, t, s'.tasks[t]) && CpuOk(s'.tasks, c, s'.cpus[c])
    requires forall u :: u in s.tasks && u != t ==> SameFor(s.cpus[c], s'.cpus[c], u)
    requires s'.cpus[c].load == s.cpus[c].load - Counts(s.tasks[t], c) + Counts(s'.tasks[t], c)
    ensures Inv(s')
  {
    hide TaskOk, CpuOk, Owns, CountedOn;
    forall u | u in s'.tasks
      ensures TaskOk(s'.cpus, u, s'.tasks[u])
    {
      if u != t { TaskUnmoved(s, s', u, c); }
    }
    forall d | 0 <= d < |s'.cpus|
      ensures CpuOk(s'.tasks, d, s'.cpus[d])
    {
      if d != c { CpuUnmoved(s, s', t, c, d); }
    }
    forall d | 0 <= d < |s'.cpus|
      ensures s'.cpus[d].load == |CountedOn(s'.tasks, d)|
    {
      LoadMoved(s, s', t, c, d);
    }
  }

  lemma TaskUnmoved(s: Sys, s': Sys, u: nat, c: nat)
    requires u in s.tasks && TaskOk(s.cpus, u, s.tasks[u]) && c < |s.cpus| == |s'.cpus|
    requires s'.cpus == s.cpus[c := s'.cpus[c]] && SameFor(s.cpus[c], s'.cpus[c], u)
    ensures TaskOk(s'.cpus, u, s.tasks[u])
  {
  }

  lemma CpuUnmoved(s: Sys, s': Sys, t: nat, c: nat, d: nat)
    requires Inv(s) && OneChange(s, s', t, c) && Owns(s.tasks[t], c) && d < |s.cpus| && d != c
    ensures CpuOk(s'.tasks, d, s'.cpus[d])
  {
    OthersUninvolved(s, t, c, d);
    assert CpuOk(s.tasks, d, s.cpus[d]);
  }

  lemma LoadMoved(s: Sys, s': Sys, t: nat, c: nat, d: nat)
    requires Inv(s) && OneChange(s, s', t, c) && Owns(s.tasks[t], c) && Owns(s'.tasks[t], c) && d < |s.cpus|
    requires s'.cpus[c].load == s.cpus[c].load - Counts(s.tasks[t], c) + Counts(s'.tasks[t], c)
    ensures s'.cpus[d].load == |CountedOn(s'.tasks, d)|
  {
    CountSet(s.tasks, t, s'.tasks[t], d);
  }

  /** A step that changes the phase of a CPU and no task. */
  lemma CpuOnly(s: Sys, s': Sys, c: nat)
    requires Inv(s) && c < |s.cpus| == |s'.cpus| && s'.tasks == s.tasks && s'.cpus == s.cpus[c := s'.cpus[c]]
    requires CpuOk(s.tasks, c, s'.cpus[c]) && s'.cpus[c].load == s.cpus[c].load
    requires forall u :: u in s.tasks ==> SameFor(s.cpus[c], s'.cpus[c], u)
    ensures Inv(s')
  {
    hide TaskOk, CpuOk, CountedOn;
    forall u | u in s'.tasks
      ensures TaskOk(s'.cpus, u, s'.tasks[u])
    {
      TaskUnmoved(s, s', u, c);
    }
  }

  /** A change written out: one task record, one CPU record. */
  function Change(s: Sys, t: nat, r: Task, c: nat, cpu: Cpu): Sys
    requires c < |s.cpus|
  {
    Sys(s.tasks[t := r], s.cpus[c := cpu])
  }

  lemma EnqueueIs(s: Sys, c: nat, t: nat)
    requires c < |s.cpus| && t in s.tasks && !s.tasks[t].queued && !s.tasks[t].counted
    requires s.tasks[t].state == Ready || s.tasks[t].state == Waiting
    ensures AddTask(s, c, t)
         == Change(s, t, s.tasks[t].(state := Ready, queued := true, counted := true, schedCpu := c),
                   c, s.cpus[c].(load := s.cpus[c].load + 1, queue := s.cpus[c].queue + multiset{t}))
  {
  }

  lemma EnqueueKeeps(s: Sys, c: nat, t: nat)
    requires Inv(s) && c < |s.cpus| && t in s.tasks
    requires s.tasks[t].onCpu ==> s.tasks[t].lastCpu == c
    requires !s.tasks[t].queued && (s.tasks[t].state == Ready || s.tasks[t].state == Waiting)
    ensures Inv(AddTask(s, c, t))
  {
    hide Inv, AddTask;
    At(s, t, c);
    EnqueueIs(s, c, t);
    Local(s, AddTask(s, c, t), t, c);
  }

  lemma AddIs(s: Sys, c: nat, t: nat)
    requires c < |s.cpus| && t in s.tasks && !s.tasks[t].queued && !s.tasks[t].counted
    ensures Add(s, c, t)
         == Change(s, t, s.tasks[t].(queued := true, counted := true, schedCpu := c),
                   c, s.cpus[c].(load := s.cpus[c].load + 1, queue := s.cpus[c].queue + multiset{t}))
  {
  }

  lemma AddKeeps(s: Sys, c: nat, t: nat)
    requires Inv(s) && c < |s.cpus| && t in s.tasks && (s.tasks[t].queued || MayJoin(s.tasks[t], c))
    ensures Inv(Add(s, c, t))
  {
    hide Inv, Add;
    if s.tasks[t].queued {
      AddNothing(s, c, t);
    } else {
      At(s, t, c);
      AddIs(s, c, t);
      Local(s, Add(s, c, t), t, c);
    }
  }

  lemma AddNothing(s: Sys, c: nat, t: nat)
    requires c < |s.cpus| && t in s.tasks && s.tasks[t].queued
    ensures Add(s, c, t) == s
  {
  }

  lemma LookKeeps(s: Sys, t: nat)
    requires Inv(s) && t in s.tasks
    ensures Inv(Look(s, t))
  {
    hide Inv;
    MarkKeeps(s, t, Looked(s.tasks[t]));
  }

  lemma At(s: Sys, t: nat, c: nat)
    requires Inv(s) && t in s.tasks && c < |s.cpus|
    ensures TaskOk(s.cpus, t, s.tasks[t]) && CpuOk(s.tasks, c, s.cpus[c])
  {
  }

  /** Setting `wakePending`, or marking a task dead or a waiting one ready, disturbs nothing. */
  lemma MarkKeeps(s: Sys, t: nat, r: Task)
    requires Inv(s) && t in s.tasks
    requires r == s.tasks[t].(wakePending := r.wakePending, state := r.state)
    requires r.state == s.tasks[t].state || r.state == Dead || (s.tasks[t].state == Waiting && r.state == Ready)
    ensures Inv(SetTask(s, t, r))
  {
    hide CountedOn;
    var s' := SetTask(s, t, r);
    forall d | 0 <= d < |s.cpus|
      ensures CpuOk(s'.tasks, d, s.cpus[d]) && CountedOn(s'.tasks, d) == CountedOn(s.tasks, d)
    {
      MarkCpu(s, t, r, d);
    }
  }

  lemma MarkCpu(s: Sys, t: nat, r: Task, d: nat)
    requires Inv(s) && t in s.tasks && d < |s.cpus|
    requires r == s.tasks[t].(wakePending := r.wakePending, state := r.state)
    requires r.state == s.tasks[t].state || r.state == Dead || (s.tasks[t].state == Waiting && r.state == Ready)
    ensures CpuOk(s.tasks[t := r], d, s.cpus[d]) && CountedOn(s.tasks[t := r], d) == CountedOn(s.tasks, d)
  {
    hide Inv;
    CpuAt(s, d);
    MarkCpuOk(s.tasks, t, r, d, s.cpus[d]);
  }

  lemma MarkCpuOk(tasks: map<nat, Task>, t: nat, r: Task, d: nat, cpu: Cpu)
    requires t in tasks && CpuOk(tasks, d, cpu)
    requires r == tasks[t].(wakePending := r.wakePending, state := r.state)
    requires r.state == tasks[t].state || r.state == Dead || (tasks[t].state == Waiting && r.state == Ready)
    ensures CpuOk(tasks[t := r], d, cpu)
  {
  }

  lemma WakeKeeps(s: Sys, t: nat, preferred: nat)
    requires Inv(s) && preferred < |s.cpus| && t in s.tasks
    ensures Inv(Wake(s, t, preferred))
  {
    hide Inv;
    var c := WakeTarget(s, t, preferred);
    At(s, t, c);
    var r := s.tasks[t];
    if r.state == Running {
      MarkKeeps(s, t, r.(wakePending := true));
    } else if !Gone(r) && r.queued {
      MarkKeeps(s, t, r.(state := Ready));
    } else if !Gone(r) {
      EnqueueKeeps(s, c, t);
    }
  }

  lemma PreemptIs(s: Sys, c: nat, t: nat)
    requires c < |s.cpus| && s.cpus[c].phase == Normal && s.cpus[c].current == Some(t) && Engaged(s.tasks, c, t)
    ensures var r, cpu := s.tasks[t], s.cpus[c];
            Preempt(s, c) == if Gone(r)
              then Change(s, t, r.(counted := false, schedCpu := NO_CPU), c,
                  cpu.(load := cpu.load - 1, phase := Selecting))
              else Change(s, t, r.(state := Ready, migratable := false, queued := true),
                          c, cpu.(queue := cpu.queue + multiset{t}, phase := Selecting))
  {
  }

  lemma PreemptTaskKeeps(s: Sys, c: nat, t: nat)
    requires Inv(s) && c < |s.cpus| && s.cpus[c].phase == Normal && s.cpus[c].current == Some(t)
    ensures t in s.tasks && Inv(Preempt(s, c))
  {
    hide Inv, Preempt;
    CpuAt(s, c);
    At(s, t, c);
    PreemptIs(s, c, t);
    Local(s, Preempt(s, c), t, c);
  }

  lemma PreemptKeeps(s: Sys, c: nat)
    requires Inv(s) && c < |s.cpus| && s.cpus[c].phase == Normal
    ensures s.cpus[c].current.Some? ==> s.cpus[c].current.value in s.tasks
    ensures Inv(Preempt(s, c))
  {
    hide Inv, Preempt;
    match s.cpus[c].current {
      case None =>
        CpuAt(s, c);
        IdleIs(s, c);
        CpuOnly(s, Preempt(s, c), c);
      case Some(t) =>
        PreemptTaskKeeps(s, c, t);
    }
  }

  lemma CpuAt(s: Sys, c: nat)
    requires Inv(s) && c < |s.cpus|
    ensures CpuOk(s.tasks, c, s.cpus[c])
  {
  }

  lemma IdleIs(s: Sys, c: nat)
    requires c < |s.cpus| && s.cpus[c].phase == Normal && s.cpus[c].current == None
    ensures Preempt(s, c) == Yield(s, c) == s.(cpus := s.cpus[c := s.cpus[c].(phase := Selecting)])
  {
  }

  lemma YieldIs(s: Sys, c: nat, t: nat)
    requires c < |s.cpus| && s.cpus[c].phase == Normal && s.cpus[c].current == Some(t) && Engaged(s.tasks, c, t)
    ensures var r, cpu := s.tasks[t], s.cpus[c];
            Yield(s, c) == if Gone(r)
              then Change(s, t, r.(counted := false, schedCpu := NO_CPU), c,
                  cpu.(load := cpu.load - 1, phase := Selecting))
              else if r.wakePending
              then Change(s, t, r.(wakePending := false, state := Ready, migratable := false, queued := true),
                          c, cpu.(queue := cpu.queue + multiset{t}, phase := Selecting))
              else Change(s, t, r.(state := Waiting, migratable := false, counted := false, schedCpu := NO_CPU),
                          c, cpu.(load := cpu.load - 1, phase := Selecting))
  {
  }

  lemma YieldTaskKeeps(s: Sys, c: nat, t: nat)
    requires Inv(s) && c < |s.cpus| && s.cpus[c].phase == Normal && s.cpus[c].current == Some(t)
    ensures t in s.tasks && Inv(Yield(s, c))
  {
    hide Inv, Yield;
    CpuAt(s, c);
    At(s, t, c);
    YieldIs(s, c, t);
    Local(s, Yield(s, c), t, c);
  }

  lemma YieldKeeps(s: Sys, c: nat)
    requires Inv(s) && c < |s.cpus| && s.cpus[c].phase == Normal
    ensures s.cpus[c].current.Some? ==> s.cpus[c].current.value in s.tasks
    ensures Inv(Yield(s, c))
  {
    hide Inv, Yield;
    match s.cpus[c].current {
      case None =>
        CpuAt(s, c);
        IdleIs(s, c);
        CpuOnly(s, Yield(s, c), c);
      case Some(t) =>
        YieldTaskKeeps(s, c, t);
    }
  }

  lemma PopIs(s: Sys, c: nat, t: nat)
    requires c < |s.cpus| && t in s.tasks && s.tasks[t].counted && s.tasks[t].schedCpu == c
    requires s.tasks[t].state != Running
    ensures var r, cpu := s.tasks[t], s.cpus[c];
            Pop(s, c, t) == if r.state == Ready
              then Change(s, t, r.(queued := false, state := Running, migratable := true),
                          c, cpu.(queue := cpu.queue - multiset{t}, phase := Chosen(Some(t))))
              else Change(s, t, r.(queued := false, wakePending := false, counted := false, schedCpu := NO_CPU),
                          c, cpu.(queue := cpu.queue - multiset{t}, load := cpu.load - 1))
  {
  }

  lemma PopKeeps(s: Sys, c: nat, t: nat)
    requires Inv(s) && c < |s.cpus| && s.cpus[c].phase == Selecting && t in s.cpus[c].queue
    ensures t in s.tasks && Inv(Pop(s, c, t))
  {
    hide Inv, Pop;
    CpuAt(s, c);
    At(s, t, c);
    PopIs(s, c, t);
    Local(s, Pop(s, c, t), t, c);
  }

  lemma PickIdleKeeps(s: Sys, c: nat)
    requires Inv(s) && c < |s.cpus| && s.cpus[c].phase == Selecting
    ensures Inv(PickIdle(s, c))
  {
    hide Inv;
    CpuAt(s, c);
    CpuOnly(s, PickIdle(s, c), c);
  }

  lemma SwitchIs(s: Sys, c: nat, t: nat)
    requires c < |s.cpus| && s.cpus[c].phase == Chosen(Some(t)) && s.cpus[c].current != Some(t)
              && Engaged(s.tasks, c, t)
    ensures Switch(s, c) == Change(s, t, s.tasks[t].(lastCpu := c, onCpu := true),
                                   c, s.cpus[c].(current := Some(t), phase := Leaving(s.cpus[c].current)))
  {
  }

  lemma SwitchKeeps(s: Sys, c: nat)
    requires Inv(s) && c < |s.cpus| && s.cpus[c].phase.Chosen?
    ensures s.cpus[c].phase.to.Some? ==> s.cpus[c].phase.to.value in s.tasks
    ensures Inv(Switch(s, c))
  {
    hide Inv;
    CpuAt(s, c);
    if s.cpus[c].phase.to.None? || s.cpus[c].phase.to == s.cpus[c].current {
      CpuOnly(s, Switch(s, c), c);
    } else {
      SwitchTaskKeeps(s, c, s.cpus[c].phase.to.value);
    }
  }

  lemma SwitchTaskKeeps(s: Sys, c: nat, t: nat)
    requires Inv(s) && c < |s.cpus| && s.cpus[c].phase == Chosen(Some(t)) && s.cpus[c].current != Some(t)
    ensures t in s.tasks && Inv(Switch(s, c))
  {
    hide Inv, Switch;
    CpuAt(s, c);
    At(s, t, c);
    SwitchIs(s, c, t);
    Local(s, Switch(s, c), t, c);
  }

  lemma ReleaseKeeps(s: Sys, c: nat)
    requires Inv(s) && c < |s.cpus| && s.cpus[c].phase.Leaving?
    ensures s.cpus[c].phase.prev.Some? ==> s.cpus[c].phase.prev.value in s.tasks
    ensures Inv(Release(s, c))
  {
    hide Inv;
    CpuAt(s, c);
    match s.cpus[c].phase.prev {
      case None => CpuOnly(s, Release(s, c), c);
      case Some(t) =>
        At(s, t, c);
        assert Release(s, c) == Change(s, t, s.tasks[t].(onCpu := false), c, s.cpus[c].(phase := Normal));
        Local(s, Release(s, c), t, c);
    }
  }

  /** Stealing, seen as the victim letting go and the thief taking over. */
  function LetGo(s: Sys, v: nat, t: nat): Sys
    requires v < |s.cpus| && t in s.tasks
  {
    Change(s, t, s.tasks[t].(queued := false, counted := false, schedCpu := NO_CPU,
                             wakePending := s.tasks[t].wakePending && s.tasks[t].state == Ready),
           v, s.cpus[v].(queue := s.cpus[v].queue - multiset{t}, load := s.cpus[v].load - 1))
  }

  lemma LetGoKeeps(s: Sys, v: nat, t: nat)
    requires Inv(s) && v < |s.cpus| && t in s.cpus[v].queue && t in s.tasks
    ensures Inv(LetGo(s, v, t))
  {
    hide Inv;
    CpuAt(s, v);
    At(s, t, v);
    Local(s, LetGo(s, v, t), t, v);
  }

  function TakeOver(s: Sys, c: nat, t: nat): Sys
    requires c < |s.cpus| && t in s.tasks
  {
    Change(s, t, s.tasks[t].(state := Running, migratable := true, counted := true, schedCpu := c),
           c, s.cpus[c].(load := s.cpus[c].load + 1, phase := Chosen(Some(t))))
  }

  lemma TakeOverKeeps(s: Sys, c: nat, t: nat)
    requires Inv(s) && c < |s.cpus| && s.cpus[c].phase == Selecting && t in s.tasks
    requires !s.tasks[t].onCpu && !s.tasks[t].counted && s.tasks[t].state == Ready
    ensures Inv(TakeOver(s, c, t))
  {
    hide Inv;
    CpuAt(s, c);
    At(s, t, c);
    Local(s, TakeOver(s, c, t), t, c);
  }

  lemma StealIs(s: Sys, c: nat, v: nat, t: nat)
    requires c < |s.cpus| && v < |s.cpus| && c != v && t in s.tasks && s.tasks[t].counted && s.tasks[t].schedCpu == v
    requires s.tasks[t].state != Running
    ensures Steal(s, c, v, t) == if s.tasks[t].state == Ready then TakeOver(LetGo(s, v, t), c, t)
                                 else PickIdle(LetGo(s, v, t), c)
  {
  }

  /** What may be stolen: a task in the queue of another CPU that is free to move. */
  lemma StealKeeps(s: Sys, c: nat, v: nat, t: nat)
    requires Inv(s) && c < |s.cpus| && v < |s.cpus| && c != v && s.cpus[c].phase == Selecting
    requires t in s.cpus[v].queue && t in s.tasks && s.tasks[t].migratable && !s.tasks[t].bound
    ensures Inv(Steal(s, c, v, t))
  {
    hide Inv, Steal;
    CpuAt(s, v);
    At(s, t, v);
    StealIs(s, c, v, t);
    LetGoKeeps(s, v, t);
    if s.tasks[t].state == Ready {
      TakeOverKeeps(LetGo(s, v, t), c, t);
    } else {
      PickIdleKeeps(LetGo(s, v, t), c);
    }
  }

  lemma CreateCpu(s: Sys, t: nat, bound: bool, c: nat)
    requires Inv(s) && t !in s.tasks && c < |s.cpus|
    ensures CpuOk(Create(s, t, bound).tasks, c, s.cpus[c])
    ensures CountedOn(Create(s, t, bound).tasks, c) == CountedOn(s.tasks, c)
  {
    hide Inv, TaskOk;
    CpuAt(s, c);
  }

  lemma CreateKeeps(s: Sys, t: nat, bound: bool)
    requires Inv(s) && t !in s.tasks
    ensures Inv(Create(s, t, bound))
  {
    hide CpuOk, CountedOn;
    forall c | 0 <= c < |s.cpus|
      ensures CpuOk(Create(s, t, bound).tasks, c, s.cpus[c])
      ensures CountedOn(Create(s, t, bound).tasks, c) == CountedOn(s.tasks, c)
    {
      CreateCpu(s, t, bound, c);
    }
  }

  // ----- runs

  datatype Step =
    | DoCreate(task: nat, bound: bool)
    | DoWake(task: nat, preferred: nat)
    | DoPreempt(cpu: nat)
    | DoYield(cpu: nat)
    | DoPop(cpu: nat, task: nat)
    | DoSteal(cpu: nat, victim: nat, task: nat)
    | DoPickIdle(cpu: nat)
    | DoSwitch(cpu: nat)
    | DoRelease(cpu: nat)
    | DoKill(task: nat)
    | DoLook(task: nat)
    | DoAdd(task: nat, cpu: nat)

  /** When a step can be taken.  A CPU takes the steps of `do_reschedule` in order; which task a queue
      gives out, and when a CPU preempts, yields, steals or idles, is left open.  A CPU that found its queue
      empty steals or idles although a task may have come in since.  The second half of `add_task` is a step only
      where it does no harm; `SchedSections` says what it does elsewhere. */
  predicate Enabled(s: Sys, step: Step) {
    match step
    case DoCreate(t, _) => t !in s.tasks
    case DoWake(t, c) => t in s.tasks && c < |s.cpus|
    case DoPreempt(c) => c < |s.cpus| && s.cpus[c].phase == Normal && CurrentKnown(s, c)
    case DoYield(c) => c < |s.cpus| && s.cpus[c].phase == Normal && CurrentKnown(s, c)
    case DoPop(c, t) => c < |s.cpus| && s.cpus[c].phase == Selecting && t in s.cpus[c].queue && t in s.tasks
    case DoSteal(c, v, t) =>
      && c < |s.cpus| && v < |s.cpus| && c != v && s.cpus[c].phase == Selecting
      && t in s.cpus[v].queue && t in s.tasks && s.tasks[t].migratable && !s.tasks[t].bound
    case DoPickIdle(c) => c < |s.cpus| && s.cpus[c].phase == Selecting
    case DoSwitch(c) => c < |s.cpus| && s.cpus[c].phase.Chosen?
        && (s.cpus[c].phase.to.Some? ==> s.cpus[c].phase.to.value in s.tasks)
    case DoRelease(c) => c < |s.cpus| && s.cpus[c].phase.Leaving?
        && (s.cpus[c].phase.prev.Some? ==> s.cpus[c].phase.prev.value in s.tasks)
    case DoKill(t) => t in s.tasks
    case DoLook(t) => t in s.tasks
    case DoAdd(t, c) => t in s.tasks && c < |s.cpus| && (s.tasks[t].queued || MayJoin(s.tasks[t], c))
  }

  predicate CurrentKnown(s: Sys, c: nat)
    requires c < |s.cpus|
  {
    s.cpus[c].current.Some? ==> s.cpus[c].current.value in s.tasks
  }

  function Do(s: Sys, step: Step): Sys
    requires Enabled(s, step)
  {
    match step
    case DoCreate(t, b) => Create(s, t, b)
    case DoWake(t, c) => Wake(s, t, c)
    case DoPreempt(c) => Preempt(s, c)
    case DoYield(c) => Yield(s, c)
    case DoPop(c, t) => Pop(s, c, t)
    case DoSteal(c, v, t) => Steal(s, c, v, t)
    case DoPickIdle(c) => PickIdle(s, c)
    case DoSwitch(c) => Switch(s, c)
    case DoRelease(c) => Release(s, c)
    case DoKill(t) => Kill(s, t)
    case DoLook(t) => Look(s, t)
    case DoAdd(t, c) => Add(s, c, t)
  }

  lemma StepKeeps(s: Sys, step: Step)
    requires Inv(s) && Enabled(s, step)
    ensures Inv(Do(s, step))
  {
    hide Inv, Create, Wake, Preempt, Yield, Pop, Steal, PickIdle, Switch, Release, Look, Add;
    match step
    case DoCreate(t, b) => CreateKeeps(s, t, b);
    case DoWake(t, c) => WakeKeeps(s, t, c);
    case DoPreempt(c) => PreemptKeeps(s, c);
    case DoYield(c) => YieldKeeps(s, c);
    case DoPop(c, t) => PopKeeps(s, c, t);
    case DoSteal(c, v, t) => StealKeeps(s, c, v, t);
    case DoPickIdle(c) => PickIdleKeeps(s, c);
    case DoSwitch(c) => SwitchKeeps(s, c);
    case DoRelease(c) => ReleaseKeeps(s, c);
    case DoKill(t) => MarkKeeps(s, t, s.tasks[t].(state := Dead));
    case DoLook(t) => LookKeeps(s, t);
    case DoAdd(t, c) => AddKeeps(s, c, t);
  }

  /** The debug assertions of `account_load` and `unaccount_load` hold wherever a step reaches them: a task
      is taken off the load of the CPU that takes it off, which is then above zero, and put on a load only
      when it was on none. */
  lemma AssertionsHold(s: Sys, step: Step)
    requires Inv(s) && Enabled(s, step)
    ensures step.DoWake? && Enters(s.tasks[step.task]) ==>
              !s.tasks[step.task].counted && s.tasks[step.task].schedCpu == NO_CPU
    ensures step.DoAdd? && !s.tasks[step.task].queued ==> s.tasks[step.task].schedCpu == NO_CPU
    ensures (step.DoPreempt? || step.DoYield?) && s.cpus[step.cpu].current.Some? ==>
              CountedHere(s, step.cpu, s.cpus[step.cpu].current.value)
    ensures step.DoPop? ==> CountedHere(s, step.cpu, step.task)
    ensures step.DoSteal? ==> CountedHere(s, step.victim, step.task)
    ensures step.DoSwitch? && s.cpus[step.cpu].phase.to.Some? ==>
              CountedHere(s, step.cpu, s.cpus[step.cpu].phase.to.value)
  {
    forall c, t | 0 <= c < |s.cpus| && t in s.tasks && s.tasks[t].counted && s.tasks[t].schedCpu == c
      ensures CountedHere(s, c, t)
    {
      assert t in CountedOn(s.tasks, c);
    }
  }

  /** A wake puts the task into a run queue. */
  predicate Enters(r: Task) {
    !r.queued && (r.state == Ready || r.state == Waiting)
  }

  /** It keeps the invariant exactly when it does not go to another CPU than the one that has the context. */
  lemma AddTaskIff(s: Sys, c: nat, t: nat)
    requires Inv(s) && c < |s.cpus| && t in s.tasks
    ensures Inv(AddTask(s, c, t)) <==> (Enters(s.tasks[t]) && s.tasks[t].onCpu ==> s.tasks[t].lastCpu == c)
  {
    hide Inv;
    var r := s.tasks[t];
    if Enters(r) {
      At(s, t, c);
      if r.onCpu && r.lastCpu != c {
        EnqueueIs(s, c, t);
        if Inv(AddTask(s, c, t)) {
          At(AddTask(s, c, t), t, c);
        }
      } else {
        EnqueueKeeps(s, c, t);
      }
    } else if !Gone(r) && r.state == Running {
      MarkKeeps(s, t, r.(wakePending := true));
    } else if !Gone(r) {
      MarkKeeps(s, t, r.(state := Ready));
    }
  }

  ghost predicate CountedHere(s: Sys, c: nat, t: nat) {
    && t in s.tasks && s.tasks[t].counted && s.tasks[t].schedCpu == c
    && c < |s.cpus| && s.cpus[c].load > 0
  }

  /** A run is a sequence of steps, each enabled where it is taken. */
  ghost predicate IsRun(s: Sys, steps: seq<Step>, s': Sys)
    decreases |steps|
  {
    if steps == [] then s' == s
    else Enabled(s, steps[0]) && IsRun(Do(s, steps[0]), steps[1..], s')
  }

  lemma {:induction false} RunKeeps(s: Sys, steps: seq<Step>, s': Sys)
    requires Inv(s) && IsRun(s, steps, s')
    ensures Inv(s')
    decreases |steps|
  {
    if steps != [] {
      StepKeeps(s, steps[0]);
      RunKeeps(Do(s, steps[0]), steps[1..], s');
    }
  }

  /** Boot: every CPU idle, no task. */
  function Boot(n: nat): Sys {
    Sys(map[], seq(n, i => Cpu(None, Normal, 0, multiset{})))
  }

  lemma BootOk(n: nat)
    ensures Inv(Boot(n))
  {
    forall c | 0 <= c < n
      ensures CountedOn(Boot(n).tasks, c) == {}
    {
    }
  }

  /** What every interleaving guarantees.  A task sits at most once in at most one run queue and `queued`
      says exactly that; while its context is loaded it is queued on that CPU only; two CPUs never have it
      loaded; each load counter is the number of tasks counted there, so it never falls below zero. */
  lemma Safety(n: nat, steps: seq<Step>, s: Sys)
    requires IsRun(Boot(n), steps, s)
    ensures forall c, t :: 0 <= c < |s.cpus| && t in s.cpus[c].queue ==>
              s.cpus[c].queue[t] == 1 && t in s.tasks && s.tasks[t].queued
    ensures forall c, d, t ::
              0 <= c < |s.cpus| && 0 <= d < |s.cpus| && t in s.cpus[c].queue && t in s.cpus[d].queue
              ==> c == d
    ensures forall t :: t in s.tasks && s.tasks[t].queued ==> exists c :: 0 <= c < |s.cpus| && t in s.cpus[c].queue
    ensures forall c, t :: 0 <= c < |s.cpus| && t in s.cpus[c].queue && s.tasks[t].onCpu ==> s.tasks[t].lastCpu == c
    ensures forall c, d, t ::
              0 <= c < |s.cpus| && 0 <= d < |s.cpus| && Aboard(s.cpus[c], t) && Aboard(s.cpus[d], t)
              ==> c == d
    ensures forall c :: 0 <= c < |s.cpus| ==> s.cpus[c].load == |CountedOn(s.tasks, c)| >= 0
  {
    BootOk(n);
    RunKeeps(Boot(n), steps, s);
    SafetyOf(s);
  }

  /** A task that waits for its turn and may move has no wake pending: it has yet to run. */
  ghost predicate NoneStirred(s: Sys) {
    forall t :: t in s.tasks && (s.tasks[t].state == Ready || s.tasks[t].state == Waiting) && s.tasks[t].migratable ==>
      !s.tasks[t].wakePending
  }

  lemma StirKeeps(s: Sys, step: Step)
    requires Inv(s) && NoneStirred(s) && Enabled(s, step)
    ensures NoneStirred(Do(s, step))
  {
    hide Inv, Wake, Preempt, Yield, Pop, Steal, Switch, Look, Add;
    match step
    case DoWake(t, c) => StirWake(s, t, c);
    case DoPreempt(c) => StirLeave(s, c);
    case DoYield(c) => StirLeave(s, c);
    case DoPop(c, t) => StirPop(s, c, t);
    case DoSteal(c, v, t) => StirSteal(s, c, v, t);
    case DoSwitch(c) => StirSwitch(s, c);
    case DoLook(t) => StirAdd(s, t, 0);
    case DoAdd(t, c) => StirAdd(s, t, c);
    case _ =>
  }

  lemma StirWake(s: Sys, t: nat, c: nat)
    requires NoneStirred(s) && t in s.tasks && c < |s.cpus|
    ensures NoneStirred(Wake(s, t, c))
  {
  }

  lemma StirAdd(s: Sys, t: nat, c: nat)
    requires NoneStirred(s) && t in s.tasks
    ensures NoneStirred(Look(s, t)) && (c < |s.cpus| ==> NoneStirred(Add(s, c, t)))
  {
  }

  lemma StirLeave(s: Sys, c: nat)
    requires Inv(s) && NoneStirred(s) && Enabled(s, DoPreempt(c))
    ensures NoneStirred(Preempt(s, c)) && NoneStirred(Yield(s, c))
  {
    hide Inv, Preempt, Yield;
    CpuAt(s, c);
    if s.cpus[c].current.None? {
      IdleIs(s, c);
    } else {
      PreemptIs(s, c, s.cpus[c].current.value);
      YieldIs(s, c, s.cpus[c].current.value);
    }
  }

  lemma StirPop(s: Sys, c: nat, t: nat)
    requires Inv(s) && NoneStirred(s) && Enabled(s, DoPop(c, t))
    ensures NoneStirred(Pop(s, c, t))
  {
    hide Inv, Pop;
    CpuAt(s, c);
    At(s, t, c);
    PopIs(s, c, t);
  }

  lemma StirSteal(s: Sys, c: nat, v: nat, t: nat)
    requires Inv(s) && NoneStirred(s) && Enabled(s, DoSteal(c, v, t))
    ensures NoneStirred(Steal(s, c, v, t))
  {
    hide Inv, Steal;
    CpuAt(s, v);
    At(s, t, v);
    StealIs(s, c, v, t);
  }

  lemma StirSwitch(s: Sys, c: nat)
    requires NoneStirred(s) && Enabled(s, DoSwitch(c))
    ensures NoneStirred(Switch(s, c))
  {
  }

  /** In every run from boot, a steal finds no wake to carry over or to lose. */
  lemma {:induction false} StealsUnstirred(n: nat, steps: seq<Step>, s: Sys, c: nat, v: nat, t: nat)
    requires IsRun(Boot(n), steps, s) && Enabled(s, DoSteal(c, v, t)) && s.tasks[t].state == Ready
    ensures !s.tasks[t].wakePending
  {
    BootOk(n);
    StirRun(Boot(n), steps, s);
  }

  lemma {:induction false} StirRun(s: Sys, steps: seq<Step>, s': Sys)
    requires Inv(s) && NoneStirred(s) && IsRun(s, steps, s')
    ensures NoneStirred(s')
    decreases |steps|
  {
    hide Inv, NoneStirred, Do, Enabled;
    if steps != [] {
      StepKeeps(s, steps[0]);
      StirKeeps(s, steps[0]);
      StirRun(Do(s, steps[0]), steps[1..], s');
    }
  }

  lemma SafetyOf(s: Sys)
    requires Inv(s)
    ensures forall c, t :: 0 <= c < |s.cpus| && t in s.cpus[c].queue ==>
              s.cpus[c].queue[t] == 1 && t in s.tasks && s.tasks[t].queued
    ensures forall c, d, t ::
              0 <= c < |s.cpus| && 0 <= d < |s.cpus| && t in s.cpus[c].queue && t in s.cpus[d].queue
              ==> c == d
    ensures forall t :: t in s.tasks && s.tasks[t].queued ==> exists c :: 0 <= c < |s.cpus| && t in s.cpus[c].queue
    ensures forall c, t :: 0 <= c < |s.cpus| && t in s.cpus[c].queue && s.tasks[t].onCpu ==> s.tasks[t].lastCpu == c
    ensures forall c, d, t ::
              0 <= c < |s.cpus| && 0 <= d < |s.cpus| && Aboard(s.cpus[c], t) && Aboard(s.cpus[d], t)
              ==> c == d
    ensures forall c :: 0 <= c < |s.cpus| ==> s.cpus[c].load == |CountedOn(s.tasks, c)| >= 0
  {
  }
}
