/**
  Waiting for an event: registering a guard, testing `woken`, going to sleep in `do_yield`, and the wake
  that sets `woken` and calls `wake_task`.  The steps run on top of the scheduler machine and interleave
  with all of its steps.  The call is one step, or two: the look at the state of the task, and the rest.
  */
module Events {
  import opened Common
  import opened Sched

  /** Where a task with a live guard stands: before `wait`, past its test of `woken`, or inside `do_yield`. */
  datatype Place = Guarded | Checked | Asleep

  /** `waking`: an event has set `woken` and its call of `wake_task` has yet to end; `seen`: the call has found the
      task ready or waiting and has yet to set its flag. */
  datatype Waiter = Waiter(place: Place, event: nat, woken: bool, waking: bool, seen: bool)

  datatype World = World(sys: Sys, waits: map<nat, Waiter>, lists: map<nat, seq<nat>>)

  datatype EStep =
    | Register(cpu: nat, event: nat)
    | Test(cpu: nat)
    | Drop(cpu: nat)
    | Fire(event: nat)
    | Call(task: nat, preferred: nat)
    | Sees(task: nat)
    | Flags(task: nat, cpu: nat)
    | Machine(step: Step)

  /** CPU `c` executes the task `t`. */
  predicate Executes(s: Sys, c: nat, t: nat) {
    c < |s.cpus| && s.cpus[c].phase == Normal && s.cpus[c].current == Some(t) && t in s.tasks
  }

  predicate Executing(s: Sys, c: nat) {
    c < |s.cpus| && s.cpus[c].current.Some? && Executes(s, c, s.cpus[c].current.value)
  }

  predicate EEnabled(w: World, step: EStep) {
    match step
    case Register(c, e) => Executing(w.sys, c) && w.sys.cpus[c].current.value !in w.waits
    case Test(c) => Executing(w.sys, c) && At(w, w.sys.cpus[c].current.value, Guarded)
    case Drop(c) =>
      && Executing(w.sys, c) && At(w, w.sys.cpus[c].current.value, Guarded)
      && !w.waits[w.sys.cpus[c].current.value].waking
    case Fire(e) => e in w.lists && w.lists[e] != [] && w.lists[e][0] in w.waits
    case Call(t, c) => Called(w, t) && c < |w.sys.cpus|
    case Sees(t) => Called(w, t)
    case Flags(t, c) => t in w.waits && w.waits[t].seen && Enabled(w.sys, DoAdd(t, c))
    case Machine(m) => Enabled(w.sys, m)
  }

  /** An event is to call `wake_task` on the task. */
  predicate Called(w: World, t: nat) {
    t in w.waits && w.waits[t].waking && !w.waits[t].seen && t in w.sys.tasks
  }

  predicate At(w: World, t: nat, place: Place) {
    t in w.waits && w.waits[t].place == place
  }

  function List(w: World, e: nat): seq<nat> {
    if e in w.lists then w.lists[e] else []
  }

  function Move(w: World, t: nat, place: Place): World
    requires t in w.waits
  {
    w.(waits := w.waits[t := w.waits[t].(place := place)])
  }

  function Without(l: seq<nat>, t: nat): seq<nat> {
    if l == [] then [] else if l[0] == t then l[1..] else [l[0]] + Without(l[1..], t)
  }

  /** A task that went to sleep in `wait` continues once its CPU executes it again. */
  function Resume(w: World, c: nat): World {
    if Executing(w.sys, c) && At(w, w.sys.cpus[c].current.value, Asleep)
    then Move(w, w.sys.cpus[c].current.value, Guarded)
    else w
  }

  function EDo(w: World, step: EStep): World
    requires EEnabled(w, step)
  {
    match step
    case Register(c, e) =>
      var t := w.sys.cpus[c].current.value;
      w.(waits := w.waits[t := Waiter(Guarded, e, false, false, false)], lists := w.lists[e := List(w, e) + [t]])
    case Test(c) =>
      var t := w.sys.cpus[c].current.value;
      if w.waits[t].woken then w else Move(w, t, Checked)
    case Drop(c) =>
      var t := w.sys.cpus[c].current.value;
      var e := w.waits[t].event;
      w.(waits := w.waits - {t}, lists := w.lists[e := Without(List(w, e), t)])
    case Fire(e) =>
      var t := w.lists[e][0];
      w.(waits := w.waits[t := w.waits[t].(woken := true, waking := true, seen := false)],
         lists := w.lists[e := w.lists[e][1..]])
    case Call(t, c) =>
      w.(sys := Wake(w.sys, t, c), waits := w.waits[t := w.waits[t].(waking := false)])
    case Sees(t) =>
      w.(sys := Look(w.sys, t),
         waits := w.waits[t := if GoesOn(w.sys.tasks[t]) then w.waits[t].(seen := true)
                               else w.waits[t].(waking := false)])
    case Flags(t, c) =>
      w.(sys := Add(w.sys, c, t), waits := w.waits[t := w.waits[t].(waking := false, seen := false)])
    case Machine(m) =>
      var w1 := w.(sys := Do(w.sys, m));
      match m {
        case DoYield(c) =>
          if w.sys.cpus[c].current.Some? && At(w, w.sys.cpus[c].current.value, Checked)
          then Move(w1, w.sys.cpus[c].current.value, Asleep) else w1
        case DoSwitch(c) => Resume(w1, c)
        case DoRelease(c) => Resume(w1, c)
        case _ => w1
      }
  }

  /** The step preempts a task between its test of `woken` and the lock in `do_yield`. */
  predicate Intrudes(w: World, step: EStep) {
    && step.Machine? && step.step.DoPreempt? && step.step.cpu < |w.sys.cpus|
    && w.sys.cpus[step.step.cpu].current.Some? && At(w, w.sys.cpus[step.step.cpu].current.value, Checked)
  }

  /** A wake goes on past its look at the state. */
  predicate GoesOn(r: Task) {
    r.state == Ready || r.state == Waiting
  }

  /** Left where nothing will run it: waiting, or ready and in no queue. */
  predicate Idle(r: Task) {
    r.state == Waiting || (r.state == Ready && !r.queued)
  }

  /** Asleep for good: the event has fired and finished its wake, yet nothing will run the task. */
  predicate Lost(w: World, t: nat) {
    && At(w, t, Asleep) && w.waits[t].woken && !w.waits[t].waking
    && t in w.sys.tasks && Idle(w.sys.tasks[t])
  }

  // ----- the invariant

  predicate WaiterOk(s: Sys, t: nat, k: Waiter) {
    && t in s.tasks
    && (k.waking ==> k.woken) && (k.seen ==> k.waking)
    && (k.place == Checked ==>
          && s.tasks[t].onCpu && 0 <= s.tasks[t].lastCpu && Executes(s, s.tasks[t].lastCpu, t)
          && !k.seen && (k.woken && !k.waking ==> s.tasks[t].wakePending || Gone(s.tasks[t])))
    && (k.place == Asleep ==>
          && (k.woken && !k.waking ==> !Idle(s.tasks[t])) && (k.seen ==> s.tasks[t].state != Waiting)
          && (s.tasks[t].onCpu && 0 <= s.tasks[t].lastCpu ==> !Executes(s, s.tasks[t].lastCpu, t)))
  }

  /** The list of an event holds exactly its waiters that have not been woken, each once. */
  ghost predicate ListsOk(waits: map<nat, Waiter>, lists: map<nat, seq<nat>>) {
    && (forall e, i :: e in lists && 0 <= i < |lists[e]| ==>
          lists[e][i] in waits && waits[lists[e][i]].event == e && !waits[lists[e][i]].woken)
    && (forall e, i, j :: e in lists && 0 <= i < j < |lists[e]| ==> lists[e][i] != lists[e][j])
    && (forall t :: t in waits && !waits[t].woken ==> waits[t].event in lists && t in lists[waits[t].event])
  }

  ghost predicate EInv(w: World) {
    && Inv(w.sys)
    && (forall t :: t in w.waits ==> WaiterOk(w.sys, t, w.waits[t]))
    && ListsOk(w.waits, w.lists)
  }

  // ----- what a machine step does to a waiter

  /** The one task that a CPU step takes out of `Executes`, or brings back to it. */
  predicate Special(s: Sys, m: Step, t: nat, place: Place)
    requires Enabled(s, m)
  {
    match m
    case DoPreempt(c) => s.cpus[c].current == Some(t) && place == Checked
    case DoYield(c) => s.cpus[c].current == Some(t) && place == Checked
    case DoSwitch(c) => Executes(Do(s, m), c, t) && place == Asleep
    case DoRelease(c) => Executes(Do(s, m), c, t) && place == Asleep
    case _ => false
  }

  predicate Runs(cpu: Cpu, t: nat) {
    cpu.phase == Normal && cpu.current == Some(t)
  }

  /** A change that neither starts nor stops the execution of `t`, nor puts it to sleep, nor takes a
      pending wake from it, leaves its waiter in order. */
  lemma WaiterStays(s: Sys, u: nat, r: Task, c: nat, cpu: Cpu, t: nat, k: Waiter)
    requires WaiterOk(s, t, k) && c < |s.cpus| && u in s.tasks && (Runs(s.cpus[c], t) <==> Runs(cpu, t))
    requires u == t ==> r.onCpu == s.tasks[t].onCpu && r.lastCpu == s.tasks[t].lastCpu
    requires u == t && r.state == Waiting ==> s.tasks[t].state == Waiting
    requires u == t && Idle(r) ==> Idle(s.tasks[t])
    requires u == t && k.place == Checked && (s.tasks[t].wakePending || Gone(s.tasks[t])) ==> r.wakePending || Gone(r)
    ensures WaiterOk(Change(s, u, r, c, cpu), t, k)
  {
  }

  /** The call of `wake_task` completes the wake. */
  lemma WaiterWoken(s: Sys, t: nat, preferred: nat, k: Waiter)
    requires Inv(s) && preferred < |s.cpus| && WaiterOk(s, t, k) && !k.seen
    ensures WaiterOk(Wake(s, t, preferred), t, k.(waking := false))
  {
    hide Inv, TaskOk;
    WaiterWake(s, t, preferred, t, k);
    WakeState(s, t, preferred);
    if k.place == Checked {
      CpuAt(s, s.tasks[t].lastCpu);
    }
  }

  lemma WakeState(s: Sys, t: nat, preferred: nat)
    requires Inv(s) && t in s.tasks && preferred < |s.cpus|
    ensures t in Wake(s, t, preferred).tasks && !Idle(Wake(s, t, preferred).tasks[t])
    ensures s.tasks[t].state == Running ==> Wake(s, t, preferred).tasks[t].wakePending
    ensures Gone(s.tasks[t]) ==> Gone(Wake(s, t, preferred).tasks[t])
  {
  }

  lemma WaiterWake(s: Sys, u: nat, preferred: nat, t: nat, k: Waiter)
    requires Inv(s) && u in s.tasks && preferred < |s.cpus| && WaiterOk(s, t, k)
    ensures WaiterOk(Wake(s, u, preferred), t, k)
  {
    hide Inv, WaiterOk;
    var c := WakeTarget(s, u, preferred);
    Sched.At(s, u, c);
    var r := s.tasks[u];
    if Gone(r) {
    } else if r.state == Running {
      SameCpu(s, u, r.(wakePending := true), c);
      WaiterStays(s, u, r.(wakePending := true), c, s.cpus[c], t, k);
    } else if r.queued {
      SameCpu(s, u, r.(state := Ready), c);
      WaiterStays(s, u, r.(state := Ready), c, s.cpus[c], t, k);
    } else {
      EnqueueIs(s, c, u);
      WaiterStays(s, u, r.(state := Ready, queued := true, counted := true, schedCpu := c),
                  c, s.cpus[c].(load := s.cpus[c].load + 1, queue := s.cpus[c].queue + multiset{u}), t, k);
    }
  }

  lemma SameCpu(s: Sys, u: nat, r: Task, c: nat)
    requires c < |s.cpus|
    ensures SetTask(s, u, r) == Change(s, u, r, c, s.cpus[c])
  {
  }

  lemma WaiterMachine(s: Sys, m: Step, t: nat, k: Waiter)
    requires Inv(s) && Enabled(s, m) && WaiterOk(s, t, k) && !Special(s, m, t, k.place)
    ensures WaiterOk(Do(s, m), t, k)
  {
    hide Inv, WaiterOk, Create, Wake, Preempt, Yield, Pop, Steal, Switch, Release, Look, Add;
    match m
    case DoCreate(u, b) => WaiterCreate(s, u, b, t, k);
    case DoWake(u, c) => WaiterWake(s, u, c, t, k);
    case DoPreempt(c) => WaiterPreempt(s, c, t, k);
    case DoYield(c) => WaiterYield(s, c, t, k);
    case DoPop(c, u) => WaiterPop(s, c, u, t, k);
    case DoSteal(c, v, u) => WaiterSteal(s, c, v, u, t, k);
    case DoPickIdle(c) => WaiterIdle(s, c, s.cpus[c].(phase := Chosen(None)), t, k);
    case DoSwitch(c) => WaiterSwitch(s, c, t, k);
    case DoRelease(c) => WaiterRelease(s, c, t, k);
    case DoKill(u) => WaiterKill(s, u, t, k);
    case DoLook(u) => WaiterLook(s, u, t, k);
    case DoAdd(u, c) => WaiterAdd(s, u, c, t, k);
  }

  lemma WaiterLook(s: Sys, u: nat, t: nat, k: Waiter)
    requires u in s.tasks && WaiterOk(s, t, k)
    ensures WaiterOk(Look(s, u), t, k)
  {
  }

  lemma WaiterAdd(s: Sys, u: nat, c: nat, t: nat, k: Waiter)
    requires Inv(s) && Enabled(s, DoAdd(u, c)) && WaiterOk(s, t, k)
    ensures WaiterOk(Add(s, c, u), t, k)
  {
    hide Inv, WaiterOk, Add;
    var r := s.tasks[u];
    if r.queued {
      AddNothing(s, c, u);
    } else {
      AddIs(s, c, u);
      WaiterStays(s, u, r.(queued := true, counted := true, schedCpu := c),
                  c, s.cpus[c].(load := s.cpus[c].load + 1, queue := s.cpus[c].queue + multiset{u}), t, k);
    }
  }

  /** The call has looked at the state of the task. */
  lemma WaiterSeen(s: Sys, t: nat, k: Waiter)
    requires Inv(s) && WaiterOk(s, t, k) && k.waking && !k.seen
    ensures WaiterOk(Look(s, t), t, if GoesOn(s.tasks[t]) then k.(seen := true) else k.(waking := false))
  {
    hide Inv;
    if k.place == Checked {
      CpuAt(s, s.tasks[t].lastCpu);
    }
  }

  /** It has set the flag. */
  lemma WaiterFlagged(s: Sys, t: nat, c: nat, k: Waiter)
    requires Inv(s) && Enabled(s, DoAdd(t, c)) && WaiterOk(s, t, k) && k.seen
    ensures WaiterOk(Add(s, c, t), t, k.(waking := false, seen := false))
  {
    hide Inv, Add;
    WaiterAdd(s, t, c, t, k);
    if s.tasks[t].queued {
      AddNothing(s, c, t);
    } else {
      AddIs(s, c, t);
    }
  }

  lemma WaiterCreate(s: Sys, u: nat, b: bool, t: nat, k: Waiter)
    requires u !in s.tasks && WaiterOk(s, t, k)
    ensures WaiterOk(Create(s, u, b), t, k)
  {
  }

  lemma WaiterKill(s: Sys, u: nat, t: nat, k: Waiter)
    requires u in s.tasks && WaiterOk(s, t, k)
    ensures WaiterOk(Kill(s, u), t, k)
  {
  }

  /** A CPU changes its phase and no task. */
  lemma WaiterIdle(s: Sys, c: nat, cpu: Cpu, t: nat, k: Waiter)
    requires WaiterOk(s, t, k) && c < |s.cpus| && (Runs(s.cpus[c], t) <==> Runs(cpu, t))
    ensures WaiterOk(SetCpu(s, c, cpu), t, k)
  {
  }

  /** A sleeping task is not executing, and an executing one is engaged. */
  lemma Placed(s: Sys, c: nat, t: nat, k: Waiter)
    requires Inv(s) && WaiterOk(s, t, k) && c < |s.cpus|
    ensures Runs(s.cpus[c], t) ==> k.place != Asleep && Engaged(s.tasks, c, t)
    ensures k.place == Checked && s.cpus[c].current == Some(t) ==> Runs(s.cpus[c], t)
    ensures k.place == Checked ==> !s.tasks[t].queued
    ensures k.place == Checked ==> s.cpus[c].phase != Leaving(Some(t)) && s.cpus[c].phase != Chosen(Some(t))
  {
    CpuAt(s, c);
    if k.place == Checked {
      CpuAt(s, s.tasks[t].lastCpu);
    }
  }

  lemma WaiterGuarded(s: Sys, s': Sys, t: nat, k: Waiter)
    requires WaiterOk(s, t, k) && t in s'.tasks && k.place == Guarded
    ensures WaiterOk(s', t, k)
  {
  }

  lemma WaiterPreempt(s: Sys, c: nat, t: nat, k: Waiter)
    requires Inv(s) && Enabled(s, DoPreempt(c)) && WaiterOk(s, t, k) && !Special(s, DoPreempt(c), t, k.place)
    ensures WaiterOk(Preempt(s, c), t, k)
  {
    hide Inv, WaiterOk, Preempt;
    CpuAt(s, c);
    Placed(s, c, t, k);
    if s.cpus[c].current.None? {
      IdleIs(s, c);
      WaiterIdle(s, c, s.cpus[c].(phase := Selecting), t, k);
    } else {
      var u := s.cpus[c].current.value;
      PreemptIs(s, c, u);
      if u == t {
        WaiterGuarded(s, Preempt(s, c), t, k);
      } else {
        WaiterStays(s, u, Preempt(s, c).tasks[u], c, Preempt(s, c).cpus[c], t, k);
      }
    }
  }

  lemma WaiterYield(s: Sys, c: nat, t: nat, k: Waiter)
    requires Inv(s) && Enabled(s, DoYield(c)) && WaiterOk(s, t, k) && !Special(s, DoYield(c), t, k.place)
    ensures WaiterOk(Yield(s, c), t, k)
  {
    hide Inv, WaiterOk, Yield;
    CpuAt(s, c);
    Placed(s, c, t, k);
    if s.cpus[c].current.None? {
      IdleIs(s, c);
      WaiterIdle(s, c, s.cpus[c].(phase := Selecting), t, k);
    } else {
      var u := s.cpus[c].current.value;
      YieldIs(s, c, u);
      if u == t {
        WaiterGuarded(s, Yield(s, c), t, k);
      } else {
        WaiterStays(s, u, Yield(s, c).tasks[u], c, Yield(s, c).cpus[c], t, k);
      }
    }
  }

  lemma WaiterPop(s: Sys, c: nat, u: nat, t: nat, k: Waiter)
    requires Inv(s) && Enabled(s, DoPop(c, u)) && WaiterOk(s, t, k)
    ensures WaiterOk(Pop(s, c, u), t, k)
  {
    hide Inv, WaiterOk, Pop;
    CpuAt(s, c);
    Sched.At(s, u, c);
    Placed(s, c, t, k);
    PopIs(s, c, u);
    if u == t && k.place == Guarded {
      WaiterGuarded(s, Pop(s, c, u), t, k);
    } else {
      WaiterStays(s, u, Pop(s, c, u).tasks[u], c, Pop(s, c, u).cpus[c], t, k);
    }
  }

  lemma WaiterSteal(s: Sys, c: nat, v: nat, u: nat, t: nat, k: Waiter)
    requires Inv(s) && Enabled(s, DoSteal(c, v, u)) && WaiterOk(s, t, k)
    ensures WaiterOk(Steal(s, c, v, u), t, k)
  {
    hide Inv, WaiterOk, Steal;
    CpuAt(s, v);
    Sched.At(s, u, v);
    Placed(s, v, t, k);
    Placed(s, c, t, k);
    StealIs(s, c, v, u);
    var s1 := LetGo(s, v, u);
    if u == t && k.place == Guarded {
      WaiterGuarded(s, Steal(s, c, v, u), t, k);
    } else if u == t && s.tasks[u].state == Ready {
      WaiterStolen(s, Steal(s, c, v, u), t, k);
    } else {
      WaiterStays(s, u, s1.tasks[u], v, s1.cpus[v], t, k);
      if s.tasks[u].state == Ready {
        WaiterStays(s1, u, TakeOver(s1, c, u).tasks[u], c, TakeOver(s1, c, u).cpus[c], t, k);
      } else {
        WaiterIdle(s1, c, s1.cpus[c].(phase := Chosen(None)), t, k);
      }
    }
  }

  lemma WaiterStolen(s: Sys, s': Sys, t: nat, k: Waiter)
    requires WaiterOk(s, t, k) && k.place == Asleep && t in s'.tasks && s'.tasks[t].state == Running
    requires !s'.tasks[t].onCpu
    ensures WaiterOk(s', t, k)
  {
  }

  lemma WaiterSwitch(s: Sys, c: nat, t: nat, k: Waiter)
    requires Inv(s) && Enabled(s, DoSwitch(c)) && WaiterOk(s, t, k) && !Special(s, DoSwitch(c), t, k.place)
    ensures WaiterOk(Switch(s, c), t, k)
  {
    hide Inv;
    CpuAt(s, c);
    Placed(s, c, t, k);
    var to := s.cpus[c].phase.to;
    if to.Some? && to != s.cpus[c].current {
      SwitchIs(s, c, to.value);
    }
  }

  lemma WaiterRelease(s: Sys, c: nat, t: nat, k: Waiter)
    requires Inv(s) && Enabled(s, DoRelease(c)) && WaiterOk(s, t, k) && !Special(s, DoRelease(c), t, k.place)
    ensures WaiterOk(Release(s, c), t, k)
  {
    hide Inv;
    CpuAt(s, c);
    Placed(s, c, t, k);
  }

  /** The yield that puts the waiting task to sleep. */
  lemma WaiterSleeps(s: Sys, c: nat, t: nat, k: Waiter)
    requires Inv(s) && Enabled(s, DoYield(c)) && WaiterOk(s, t, k) && s.cpus[c].current == Some(t) && k.place == Checked
    ensures WaiterOk(Yield(s, c), t, k.(place := Asleep))
  {
    hide Inv, Yield;
    CpuAt(s, c);
    Placed(s, c, t, k);
    YieldIs(s, c, t);
  }

  // ----- the lists of the events

  lemma {:induction false} WithoutHas(l: seq<nat>, t: nat, u: nat)
    requires forall i, j :: 0 <= i < j < |l| ==> l[i] != l[j]
    ensures u in Without(l, t) <==> u in l && u != t
  {
    if l != [] {
      assert l == [l[0]] + l[1..];
      if l[0] != t {
        WithoutHas(l[1..], t, u);
      }
    }
  }

  lemma {:induction false} WithoutApart(l: seq<nat>, t: nat, i: nat, j: nat)
    requires forall i, j :: 0 <= i < j < |l| ==> l[i] != l[j]
    requires i < j < |Without(l, t)|
    ensures Without(l, t)[i] != Without(l, t)[j]
  {
    assert l == [l[0]] + l[1..];
    if l[0] != t {
      var r := Without(l[1..], t);
      if i > 0 {
        WithoutApart(l[1..], t, i - 1, j - 1);
      } else {
        WithoutHas(l[1..], t, r[j - 1]);
      }
    }
  }

  lemma WithoutIs(l: seq<nat>, t: nat)
    requires forall i, j :: 0 <= i < j < |l| ==> l[i] != l[j]
    ensures forall u :: u in Without(l, t) <==> u in l && u != t
    ensures forall i, j :: 0 <= i < j < |Without(l, t)| ==> Without(l, t)[i] != Without(l, t)[j]
  {
    hide Without;
    forall u: nat
      ensures u in Without(l, t) <==> u in l && u != t
    {
      WithoutHas(l, t, u);
    }
    forall i: nat, j: nat | i < j < |Without(l, t)|
      ensures Without(l, t)[i] != Without(l, t)[j]
    {
      WithoutApart(l, t, i, j);
    }
  }

  lemma ListsRegister(w: World, t: nat, e: nat)
    requires ListsOk(w.waits, w.lists) && t !in w.waits
    ensures ListsOk(w.waits[t := Waiter(Guarded, e, false, false, false)], w.lists[e := List(w, e) + [t]])
  {
  }

  lemma ListsDrop(w: World, t: nat)
    requires ListsOk(w.waits, w.lists) && t in w.waits
    ensures ListsOk(w.waits - {t}, w.lists[w.waits[t].event := Without(List(w, w.waits[t].event), t)])
  {
    WithoutIs(List(w, w.waits[t].event), t);
    var e := w.waits[t].event;
    var l := Without(List(w, e), t);
    forall i | 0 <= i < |l|
      ensures l[i] in w.waits && l[i] != t && w.waits[l[i]].event == e && !w.waits[l[i]].woken
    {
      assert l[i] in l;
    }
  }

  lemma ListsFire(w: World, e: nat)
    requires ListsOk(w.waits, w.lists) && EEnabled(w, Fire(e))
    ensures ListsOk(EDo(w, Fire(e)).waits, EDo(w, Fire(e)).lists)
  {
    var l := w.lists[e];
    assert l == [l[0]] + l[1..];
  }

  lemma ListsMove(waits: map<nat, Waiter>, lists: map<nat, seq<nat>>, t: nat, k: Waiter)
    requires ListsOk(waits, lists) && t in waits && k.event == waits[t].event && k.woken == waits[t].woken
    ensures ListsOk(waits[t := k], lists)
  {
  }

  // ----- every step that does not intrude keeps the invariant

  lemma LocalKeeps(w: World, step: EStep)
    requires EInv(w) && EEnabled(w, step) && (step.Register? || step.Test? || step.Drop? || step.Fire?)
    ensures EInv(EDo(w, step))
  {
    hide Inv, ListsOk;
    match step
    case Register(c, e) => ListsRegister(w, w.sys.cpus[c].current.value, e);
    case Test(c) =>
      var t := w.sys.cpus[c].current.value;
      Loaded(w.sys, c, t);
      ListsMove(w.waits, w.lists, t, w.waits[t].(place := Checked));
    case Drop(c) => ListsDrop(w, w.sys.cpus[c].current.value);
    case Fire(e) => ListsFire(w, e);
  }

  lemma Loaded(s: Sys, c: nat, t: nat)
    requires Inv(s) && Executes(s, c, t)
    ensures s.tasks[t].onCpu && s.tasks[t].lastCpu == c
  {
    CpuAt(s, c);
  }

  lemma CallKeeps(w: World, t: nat, c: nat)
    requires EInv(w) && EEnabled(w, Call(t, c))
    ensures EInv(EDo(w, Call(t, c)))
  {
    hide Inv, ListsOk, Wake, WaiterOk;
    var w' := EDo(w, Call(t, c));
    WakeKeeps(w.sys, t, c);
    ListsMove(w.waits, w.lists, t, w.waits[t].(waking := false));
    forall u | u in w'.waits
      ensures WaiterOk(w'.sys, u, w'.waits[u])
    {
      if u == t {
        WaiterWoken(w.sys, t, c, w.waits[t]);
      } else {
        WaiterWake(w.sys, t, c, u, w.waits[u]);
      }
    }
  }

  lemma SeesKeeps(w: World, t: nat)
    requires EInv(w) && EEnabled(w, Sees(t))
    ensures EInv(EDo(w, Sees(t)))
  {
    hide Inv, ListsOk, Look, WaiterOk;
    var w' := EDo(w, Sees(t));
    LookKeeps(w.sys, t);
    ListsMove(w.waits, w.lists, t, w'.waits[t]);
    forall u | u in w'.waits
      ensures WaiterOk(w'.sys, u, w'.waits[u])
    {
      if u == t {
        WaiterSeen(w.sys, t, w.waits[t]);
      } else {
        WaiterLook(w.sys, t, u, w.waits[u]);
      }
    }
  }

  lemma FlagsKeeps(w: World, t: nat, c: nat)
    requires EInv(w) && EEnabled(w, Flags(t, c))
    ensures EInv(EDo(w, Flags(t, c)))
  {
    hide Inv, ListsOk, Add, WaiterOk;
    var w' := EDo(w, Flags(t, c));
    AddKeeps(w.sys, c, t);
    ListsMove(w.waits, w.lists, t, w'.waits[t]);
    forall u | u in w'.waits
      ensures WaiterOk(w'.sys, u, w'.waits[u])
    {
      if u == t {
        WaiterFlagged(w.sys, t, c, w.waits[t]);
      } else {
        WaiterAdd(w.sys, t, c, u, w.waits[u]);
      }
    }
  }

  /** The task whose place a machine step moves, if any. */
  function Moved(w: World, m: Step): Option<nat>
    requires Enabled(w.sys, m)
  {
    match m
    case DoYield(c) =>
      if w.sys.cpus[c].current.Some? && At(w, w.sys.cpus[c].current.value, Checked) then w.sys.cpus[c].current else None
    case DoSwitch(c) => Woken(w.(sys := Do(w.sys, m)), c)
    case DoRelease(c) => Woken(w.(sys := Do(w.sys, m)), c)
    case _ => None
  }

  function Woken(w: World, c: nat): Option<nat> {
    if Executing(w.sys, c) && At(w, w.sys.cpus[c].current.value, Asleep) then w.sys.cpus[c].current else None
  }

  function PlaceAfter(m: Step): Place {
    if m.DoYield? then Asleep else Guarded
  }

  lemma MachineIs(w: World, m: Step)
    requires EEnabled(w, Machine(m))
    ensures Moved(w, m).Some? ==> Moved(w, m).value in w.waits
    ensures EDo(w, Machine(m)) ==
            var w1 := w.(sys := Do(w.sys, m));
            if Moved(w, m).Some? then Move(w1, Moved(w, m).value, PlaceAfter(m)) else w1
  {
    hide Do;
  }

  lemma MachineWaiter(w: World, m: Step, u: nat)
    requires Inv(w.sys) && EEnabled(w, Machine(m)) && !Intrudes(w, Machine(m))
    requires u in w.waits && WaiterOk(w.sys, u, w.waits[u])
    ensures WaiterOk(Do(w.sys, m), u,
                     if Moved(w, m) == Some(u) then w.waits[u].(place := PlaceAfter(m)) else w.waits[u])
  {
    hide Inv, ListsOk, WaiterOk, Do;
    var k := w.waits[u];
    if Moved(w, m) == Some(u) {
      if m.DoYield? {
        DoYieldIs(w.sys, m.cpu);
        WaiterSleeps(w.sys, m.cpu, u, k);
      } else {
        WaiterRises(w.sys, m, u, k);
      }
    } else {
      WaiterMachine(w.sys, m, u, k);
    }
  }

  lemma DoYieldIs(s: Sys, c: nat)
    requires Enabled(s, DoYield(c))
    ensures Do(s, DoYield(c)) == Yield(s, c)
  {
  }

  lemma WaiterRises(s: Sys, m: Step, u: nat, k: Waiter)
    requires Enabled(s, m) && WaiterOk(s, u, k) && (m.DoSwitch? || m.DoRelease?)
    ensures WaiterOk(Do(s, m), u, k.(place := Guarded))
  {
  }

  lemma MachineKeeps(w: World, m: Step)
    requires EInv(w) && EEnabled(w, Machine(m)) && !Intrudes(w, Machine(m))
    ensures EInv(EDo(w, Machine(m)))
  {
    hide Inv, ListsOk, WaiterOk, Do, EDo, Moved, PlaceAfter, Intrudes;
    StepKeeps(w.sys, m);
    MachineIs(w, m);
    var w' := EDo(w, Machine(m));
    if Moved(w, m).Some? {
      var t := Moved(w, m).value;
      ListsMove(w.waits, w.lists, t, w.waits[t].(place := PlaceAfter(m)));
    }
    forall u | u in w'.waits
      ensures WaiterOk(w'.sys, u, w'.waits[u])
    {
      MachineWaiter(w, m, u);
    }
  }

  lemma EStepKeeps(w: World, step: EStep)
    requires EInv(w) && EEnabled(w, step) && !Intrudes(w, step)
    ensures EInv(EDo(w, step))
  {
    hide EInv, EDo;
    match step
    case Machine(m) => MachineKeeps(w, m);
    case Call(t, c) => CallKeeps(w, t, c);
    case Sees(t) => SeesKeeps(w, t);
    case Flags(t, c) => FlagsKeeps(w, t, c);
    case _ => LocalKeeps(w, step);
  }

  // ----- runs

  ghost predicate IsERun(w: World, steps: seq<EStep>, w': World)
    decreases |steps|
  {
    if steps == [] then w' == w
    else EEnabled(w, steps[0]) && IsERun(EDo(w, steps[0]), steps[1..], w')
  }

  /** No task is preempted between its test of `woken` and going to sleep. */
  ghost predicate Calm(w: World, steps: seq<EStep>)
    decreases |steps|
  {
    steps == [] || (EEnabled(w, steps[0]) && !Intrudes(w, steps[0]) && Calm(EDo(w, steps[0]), steps[1..]))
  }

  lemma {:induction false} CalmKeeps(w: World, steps: seq<EStep>, w': World)
    requires EInv(w) && IsERun(w, steps, w') && Calm(w, steps)
    ensures EInv(w')
    decreases |steps|
  {
    if steps != [] {
      EStepKeeps(w, steps[0]);
      CalmKeeps(EDo(w, steps[0]), steps[1..], w');
    }
  }

  function EBoot(n: nat): World {
    World(Boot(n), map[], map[])
  }

  /** No lost wake-up.  In every run from boot without an intruding preemption, a task whose event has fired
      and finished its wake is not left waiting, nor ready outside the queues, and the waiter list of an event
      holds exactly the guarded tasks that it has not woken yet. */
  lemma NoLostWake(n: nat, steps: seq<EStep>, w: World)
    requires IsERun(EBoot(n), steps, w) && Calm(EBoot(n), steps)
    ensures forall t :: !Lost(w, t)
    ensures forall t, e :: t in List(w, e) <==> t in w.waits && w.waits[t].event == e && !w.waits[t].woken
  {
    EBootOk(n);
    CalmKeeps(EBoot(n), steps, w);
    forall t, e
      ensures t in List(w, e) <==> t in w.waits && w.waits[t].event == e && !w.waits[t].woken
    {
      if t in List(w, e) {
        var i :| 0 <= i < |w.lists[e]| && w.lists[e][i] == t;
      }
    }
  }

  /** One turn of `wake_n`: the first waiter of the list gets its flag and its wake. */
  function FireOne(w: World, e: nat, preferred: nat): World
    requires EEnabled(w, Fire(e)) && w.lists[e][0] in w.sys.tasks && preferred < |w.sys.cpus|
  {
    EDo(EDo(w, Fire(e)), Call(w.lists[e][0], preferred))
  }

  lemma FireOneKeeps(w: World, e: nat, preferred: nat)
    requires EInv(w) && List(w, e) != [] && preferred < |w.sys.cpus|
    ensures EEnabled(w, Fire(e)) && w.lists[e][0] in w.sys.tasks
    ensures EEnabled(EDo(w, Fire(e)), Call(w.lists[e][0], preferred))
    ensures EInv(FireOne(w, e, preferred))
  {
    hide Inv, Wake;
    EStepKeeps(w, Fire(e));
    EStepKeeps(EDo(w, Fire(e)), Call(w.lists[e][0], preferred));
  }

  lemma FireOneIs(w: World, e: nat, preferred: nat)
    requires EEnabled(w, Fire(e)) && w.lists[e][0] in w.sys.tasks && preferred < |w.sys.cpus|
    ensures var w2 := FireOne(w, e, preferred);
            && List(w2, e) == w.lists[e][1..] && |w2.sys.cpus| == |w.sys.cpus|
            && w2.waits == w.waits[w.lists[e][0] :=
                                   w.waits[w.lists[e][0]].(woken := true, waking := false, seen := false)]
  {
  }

  /** `wake_n`: the first waiters of the list, up to `count`, get their flags and their wakes in turn, and no
      other waiter is touched.  It is a run of the machine.  `wake_all` is the case of a count that covers the
      whole list. */
  method WakeN(w: World, e: nat, count: nat, preferred: nat) returns (w': World, woke: nat, ghost steps: seq<EStep>)
    requires EInv(w) && preferred < |w.sys.cpus|
    ensures IsERun(w, steps, w') && Calm(w, steps) && EInv(w')
    ensures woke == if count < |List(w, e)| then count else |List(w, e)|
    ensures List(w', e) == List(w, e)[woke..]
    ensures w'.waits == WokenUp(w.waits, List(w, e)[..woke])
  {
    hide EInv, EDo, EEnabled, FireOne, IsERun, Calm, WokenUp;
    w', woke, steps := w, 0, [];
    RunOfNone(w);
    NobodyUp(w.waits, List(w, e)[..0]);
    while woke < count && List(w', e) != []
      invariant IsERun(w, steps, w') && Calm(w, steps) && EInv(w') && |w'.sys.cpus| == |w.sys.cpus|
      invariant woke <= count && woke <= |List(w, e)| && List(w', e) == List(w, e)[woke..]
      invariant w'.waits == WokenUp(w.waits, List(w, e)[..woke])
      decreases |List(w', e)|
    {
      var t := w'.lists[e][0];
      FireOneKeeps(w', e, preferred);
      FireOneIs(w', e, preferred);
      HeadApart(w', e);
      AppendTwo(w, steps, w', e, t, preferred);
      OneMoreUp(w.waits, List(w, e), woke, w'.waits);
      steps := steps + [Fire(e), Call(t, preferred)];
      w' := FireOne(w', e, preferred);
      woke := woke + 1;
    }
  }

  /** The waiters after those of the list are woken. */
  function WokenUp(waits: map<nat, Waiter>, l: seq<nat>): map<nat, Waiter> {
    map t | t in waits :: if t in l then waits[t].(woken := true, waking := false, seen := false) else waits[t]
  }

  lemma NobodyUp(waits: map<nat, Waiter>, l: seq<nat>)
    requires l == []
    ensures WokenUp(waits, l) == waits
  {
  }

  lemma OneMoreUp(waits: map<nat, Waiter>, l: seq<nat>, k: nat, now: map<nat, Waiter>)
    requires k < |l| && l[k] in now && now == WokenUp(waits, l[..k])
    ensures now[l[k] := now[l[k]].(woken := true, waking := false, seen := false)] == WokenUp(waits, l[..k + 1])
  {
    assert l[..k + 1] == l[..k] + [l[k]];
  }

  /** Two more steps at the end of a run. */
  lemma {:induction false} AppendTwo(w: World, steps: seq<EStep>, mid: World, e: nat, t: nat, preferred: nat)
    requires IsERun(w, steps, mid) && Calm(w, steps)
    requires EEnabled(mid, Fire(e)) && t == mid.lists[e][0] && t in mid.sys.tasks && preferred < |mid.sys.cpus|
    requires EEnabled(EDo(mid, Fire(e)), Call(t, preferred))
    ensures IsERun(w, steps + [Fire(e), Call(t, preferred)], FireOne(mid, e, preferred))
    ensures Calm(w, steps + [Fire(e), Call(t, preferred)])
    decreases |steps|
  {
    hide EDo, EEnabled, FireOne;
    var two := [Fire(e), Call(t, preferred)];
    if steps == [] {
      RunOfNone(FireOne(mid, e, preferred));
      RunOfTwo(mid, e, t, preferred, [], FireOne(mid, e, preferred));
      assert steps + two == two + [];
    } else {
      AppendTwo(EDo(w, steps[0]), steps[1..], mid, e, t, preferred);
      assert (steps + two)[1..] == steps[1..] + two;
    }
  }

  lemma RunOfNone(w: World)
    ensures IsERun(w, [], w) && Calm(w, [])
  {
  }

  lemma RunOfTwo(w: World, e: nat, t: nat, preferred: nat, rest: seq<EStep>, w': World)
    requires EEnabled(w, Fire(e)) && t == w.lists[e][0] && t in w.sys.tasks && preferred < |w.sys.cpus|
    requires EEnabled(EDo(w, Fire(e)), Call(t, preferred))
    requires IsERun(FireOne(w, e, preferred), rest, w') && Calm(FireOne(w, e, preferred), rest)
    ensures IsERun(w, [Fire(e), Call(t, preferred)] + rest, w') && Calm(w, [Fire(e), Call(t, preferred)] + rest)
  {
    hide EDo;
    var steps := [Fire(e), Call(t, preferred)] + rest;
    assert steps[1..] == [Call(t, preferred)] + rest;
    assert steps[1..][1..] == rest;
  }

  lemma HeadApart(w: World, e: nat)
    requires EInv(w) && e in w.lists && w.lists[e] != []
    ensures w.lists[e][0] !in w.lists[e][1..] && w.lists[e][0] in w.waits
  {
  }

  // ----- who has waited longest

  /** The last registration of a task: which step of the run it was, and with which event. */
  datatype Arrival = Arrival(step: nat, event: nat)

  ghost function Noted(w: World, step: EStep, k: nat, past: map<nat, Arrival>): map<nat, Arrival>
    requires EEnabled(w, step)
  {
    if step.Register? then past[w.sys.cpus[step.cpu].current.value := Arrival(k, step.event)] else past
  }

  /** The last registrations after a run whose first step has number `k`. */
  ghost function Arrivals(w: World, steps: seq<EStep>, k: nat, past: map<nat, Arrival>): map<nat, Arrival>
    decreases |steps|
  {
    if steps == [] || !EEnabled(w, steps[0]) then past
    else Arrivals(EDo(w, steps[0]), steps[1..], k + 1, Noted(w, steps[0], k, past))
  }

  /** The tasks of the list registered with event `e` one after the other, from step `lo` on and before step `hi`. */
  predicate Lined(l: seq<nat>, past: map<nat, Arrival>, e: nat, lo: nat, hi: nat) {
    l == [] || (&& l[0] in past && past[l[0]].event == e && lo <= past[l[0]].step < hi
                && Lined(l[1..], past, e, past[l[0]].step + 1, hi))
  }

  /** Every list is in the order in which its tasks registered. */
  ghost predicate InOrder(lists: map<nat, seq<nat>>, past: map<nat, Arrival>, k: nat) {
    forall e :: e in lists ==> Lined(lists[e], past, e, 0, k)
  }

  lemma {:induction false} LinedWider(l: seq<nat>, past: map<nat, Arrival>, e: nat, lo: nat, hi: nat, lo': nat,
                                      hi': nat)
    requires Lined(l, past, e, lo, hi) && lo' <= lo && hi <= hi'
    ensures Lined(l, past, e, lo', hi')
  {
    if l != [] {
      LinedWider(l[1..], past, e, past[l[0]].step + 1, hi, past[l[0]].step + 1, hi');
    }
  }

  lemma {:induction false} LinedWithout(l: seq<nat>, t: nat, past: map<nat, Arrival>, e: nat, lo: nat, hi: nat)
    requires Lined(l, past, e, lo, hi)
    ensures Lined(Without(l, t), past, e, lo, hi)
  {
    if l != [] {
      if l[0] == t {
        LinedWider(l[1..], past, e, past[l[0]].step + 1, hi, lo, hi);
      } else {
        LinedWithout(l[1..], t, past, e, past[l[0]].step + 1, hi);
        assert Without(l, t) == [l[0]] + Without(l[1..], t);
        assert Without(l, t)[1..] == Without(l[1..], t);
      }
    }
  }

  /** One more at the end, who was in no list before. */
  lemma {:induction false} LinedMore(l: seq<nat>, t: nat, past: map<nat, Arrival>, e: nat, lo: nat, k: nat)
    requires Lined(l, past, e, lo, k) && t !in l && lo <= k
    ensures Lined(l + [t], past[t := Arrival(k, e)], e, lo, k + 1)
  {
    if l != [] {
      LinedMore(l[1..], t, past, e, past[l[0]].step + 1, k);
      assert (l + [t])[1..] == l[1..] + [t];
    }
  }

  lemma {:induction false} LinedElse(l: seq<nat>, t: nat, a: Arrival, past: map<nat, Arrival>, e: nat, lo: nat, k: nat)
    requires Lined(l, past, e, lo, k) && t !in l
    ensures Lined(l, past[t := a], e, lo, k + 1)
  {
    if l != [] {
      LinedElse(l[1..], t, a, past, e, past[l[0]].step + 1, k);
    }
  }

  lemma {:induction false} LinedAt(l: seq<nat>, past: map<nat, Arrival>, e: nat, lo: nat, hi: nat, i: nat, j: nat)
    requires Lined(l, past, e, lo, hi) && i < |l| && j < |l|
    ensures l[i] in past && past[l[i]].event == e && lo <= past[l[i]].step < hi
    ensures i < j ==> l[j] in past && past[l[i]].step < past[l[j]].step
  {
    if i > 0 {
      LinedAt(l[1..], past, e, past[l[0]].step + 1, hi, i - 1, if j > 0 then j - 1 else 0);
    } else if j > 0 {
      LinedAt(l[1..], past, e, past[l[0]].step + 1, hi, j - 1, j - 1);
    }
  }

  /** The lists stay what they are in every run, calm or not. */
  lemma ListsAlways(w: World, step: EStep)
    requires ListsOk(w.waits, w.lists) && EEnabled(w, step)
    ensures ListsOk(EDo(w, step).waits, EDo(w, step).lists)
  {
    hide ListsOk, Enabled, Do, Wake, Look, Add;
    match step
    case Register(c, e) => ListsRegister(w, w.sys.cpus[c].current.value, e);
    case Test(c) =>
      var t := w.sys.cpus[c].current.value;
      ListsMove(w.waits, w.lists, t, w.waits[t].(place := Checked));
    case Drop(c) => ListsDrop(w, w.sys.cpus[c].current.value);
    case Fire(e) => ListsFire(w, e);
    case Call(t, c) => ListsMove(w.waits, w.lists, t, w.waits[t].(waking := false));
    case Sees(t) => ListsMove(w.waits, w.lists, t, EDo(w, step).waits[t]);
    case Flags(t, c) => ListsMove(w.waits, w.lists, t, w.waits[t].(waking := false, seen := false));
    case Machine(m) =>
      MachineIs(w, m);
      if Moved(w, m).Some? {
        var t := Moved(w, m).value;
        ListsMove(w.waits, w.lists, t, w.waits[t].(place := PlaceAfter(m)));
      }
  }

  lemma OrderRegister(w: World, c: nat, e: nat, past: map<nat, Arrival>, k: nat)
    requires ListsOk(w.waits, w.lists) && InOrder(w.lists, past, k) && EEnabled(w, Register(c, e))
    ensures InOrder(EDo(w, Register(c, e)).lists, Noted(w, Register(c, e), k, past), k + 1)
  {
    hide Lined;
    var t, lists := w.sys.cpus[c].current.value, EDo(w, Register(c, e)).lists;
    forall d | d in lists
      ensures Lined(lists[d], past[t := Arrival(k, e)], d, 0, k + 1)
    {
      NotListed(w, d, t);
      if d == e {
        LinedNone(past, e, k);
        LinedMore(List(w, e), t, past, e, 0, k);
      } else {
        LinedElse(w.lists[d], t, Arrival(k, e), past, d, 0, k);
      }
    }
  }

  lemma NotListed(w: World, d: nat, t: nat)
    requires ListsOk(w.waits, w.lists) && t !in w.waits
    ensures t !in List(w, d)
  {
  }

  lemma LinedNone(past: map<nat, Arrival>, e: nat, k: nat)
    ensures Lined([], past, e, 0, k)
  {
  }

  lemma OrderDrop(w: World, t: nat, past: map<nat, Arrival>, k: nat)
    requires InOrder(w.lists, past, k) && t in w.waits
    ensures InOrder(w.lists[w.waits[t].event := Without(List(w, w.waits[t].event), t)], past, k + 1)
  {
    hide Lined, Without;
    var e := w.waits[t].event;
    LinedNone(past, e, k);
    LinedWithout(List(w, e), t, past, e, 0, k);
    var lists := w.lists[e := Without(List(w, e), t)];
    forall d | d in lists
      ensures Lined(lists[d], past, d, 0, k + 1)
    {
      LinedWider(lists[d], past, d, 0, k, 0, k + 1);
    }
  }

  lemma OrderSame(lists: map<nat, seq<nat>>, past: map<nat, Arrival>, k: nat)
    requires InOrder(lists, past, k)
    ensures InOrder(lists, past, k + 1)
  {
    hide Lined;
    forall d | d in lists
      ensures Lined(lists[d], past, d, 0, k + 1)
    {
      LinedWider(lists[d], past, d, 0, k, 0, k + 1);
    }
  }

  lemma OrderFire(w: World, e: nat, past: map<nat, Arrival>, k: nat)
    requires InOrder(w.lists, past, k) && e in w.lists && w.lists[e] != []
    ensures InOrder(w.lists[e := w.lists[e][1..]], past, k + 1)
  {
    LinedWider(w.lists[e][1..], past, e, past[w.lists[e][0]].step + 1, k, 0, k + 1);
    OrderSame(w.lists, past, k);
  }

  lemma OrderKeeps(w: World, step: EStep, past: map<nat, Arrival>, k: nat)
    requires ListsOk(w.waits, w.lists) && InOrder(w.lists, past, k) && EEnabled(w, step)
    ensures InOrder(EDo(w, step).lists, Noted(w, step, k, past), k + 1)
  {
    hide ListsOk, Enabled, Do, Wake, Look, Add, Lined, Without, InOrder;
    OrderSame(w.lists, past, k);
    match step
    case Register(c, e) => OrderRegister(w, c, e, past, k);
    case Drop(c) =>
      var t := w.sys.cpus[c].current.value;
      OrderDrop(w, t, past, k);
    case Fire(e) => OrderFire(w, e, past, k);
    case Machine(m) => MachineIs(w, m);
    case _ =>
  }

  lemma {:induction false} OrderAlways(w: World, steps: seq<EStep>, w': World, past: map<nat, Arrival>, k: nat)
    requires ListsOk(w.waits, w.lists) && InOrder(w.lists, past, k) && IsERun(w, steps, w')
    ensures InOrder(w'.lists, Arrivals(w, steps, k, past), k + |steps|)
    decreases |steps|
  {
    hide ListsOk, InOrder, EDo, EEnabled, Noted;
    if steps != [] {
      ListsAlways(w, steps[0]);
      OrderKeeps(w, steps[0], past, k);
      OrderAlways(EDo(w, steps[0]), steps[1..], w', Noted(w, steps[0], k, past), k + 1);
    }
  }

  /** First come, first woken.  In every run from boot, of two tasks that wait for an event and have not been woken,
      the one that registered first stands before the other.  `WakeN` wakes from the front, so it wakes those
      that have waited longest. */
  lemma FirstCome(n: nat, steps: seq<EStep>, w: World, e: nat, i: nat, j: nat)
    requires IsERun(EBoot(n), steps, w) && i < |List(w, e)| && j < |List(w, e)| && i != j
    ensures var past, a, b := Arrivals(EBoot(n), steps, 0, map[]), List(w, e)[i], List(w, e)[j];
            && a in past && b in past && past[a].event == past[b].event == e
            && (i < j <==> past[a].step < past[b].step)
  {
    hide Lined;
    OrderAlways(EBoot(n), steps, w, map[], 0);
    var past := Arrivals(EBoot(n), steps, 0, map[]);
    LinedAt(List(w, e), past, e, 0, |steps|, i, j);
    LinedAt(List(w, e), past, e, 0, |steps|, j, i);
  }

  // ----- what an intruding preemption does

  /** The event has yet to wake `t`, and will wake it first. */
  predicate First(w: World, e: nat, t: nat) {
    e in w.lists && w.lists[e] != [] && w.lists[e][0] == t
  }

  /** Preempted past its test: back in the queue of the CPU that still has its context. */
  predicate SetAside(w: World, c: nat, t: nat) {
    && c < |w.sys.cpus| && w.sys.cpus[c].phase == Selecting && w.sys.cpus[c].current == Some(t)
    && t in w.sys.cpus[c].queue && t in w.sys.tasks && At(w, t, Checked)
    && w.sys.tasks[t].state == Ready && w.sys.tasks[t].queued && !w.sys.tasks[t].wakePending
  }

  lemma Preempted(w: World, c: nat, t: nat)
    requires EInv(w) && Executes(w.sys, c, t) && w.sys.tasks[t].state == Running && !w.sys.tasks[t].wakePending
              && At(w, t, Checked)
    ensures EEnabled(w, Machine(DoPreempt(c))) && SetAside(EDo(w, Machine(DoPreempt(c))), c, t)
    ensures EDo(w, Machine(DoPreempt(c))).waits == w.waits && EDo(w, Machine(DoPreempt(c))).lists == w.lists
  {
    hide Inv, ListsOk, WaiterOk, Preempt;
    CpuAt(w.sys, c);
    Loaded(w.sys, c, t);
    PreemptIs(w.sys, c, t);
  }

  /** The wake of a task that is ready and queued changes nothing in the scheduler. */
  lemma Absorbed(w: World, c: nat, t: nat, e: nat)
    requires SetAside(w, c, t) && First(w, e, t)
    ensures EEnabled(w, Fire(e)) && EEnabled(EDo(w, Fire(e)), Call(t, c))
    ensures FireOne(w, e, c).sys == w.sys && SetAside(FireOne(w, e, c), c, t)
    ensures FireOne(w, e, c).waits[t].woken && !FireOne(w, e, c).waits[t].waking
  {
    assert w.sys.tasks[t := w.sys.tasks[t]] == w.sys.tasks;
  }

  /** Chosen again, the task goes on where it was. */
  lemma ResumesAgain(w: World, c: nat, t: nat)
    requires SetAside(w, c, t)
    ensures EEnabled(w, Machine(DoPop(c, t)))
    ensures var w1 := EDo(w, Machine(DoPop(c, t)));
            EEnabled(w1, Machine(DoSwitch(c))) &&
            var w2 := EDo(w1, Machine(DoSwitch(c)));
            && w2.waits == w.waits && Executes(w2.sys, c, t) && !w2.sys.tasks[t].wakePending
                && w2.sys.tasks[t].state == Running
  {
    hide Account, Unaccount, Requeue;
    var w1 := EDo(w, Machine(DoPop(c, t)));
    assert w1.waits == w.waits;
    var w2 := EDo(w1, Machine(DoSwitch(c)));
    assert w2.waits == w.waits && w2.sys.tasks == w1.sys.tasks;
  }

  /** And it sleeps. */
  lemma SleepsAfterAll(w: World, c: nat, t: nat)
    requires Executes(w.sys, c, t) && !w.sys.tasks[t].wakePending && w.sys.tasks[t].state == Running
    requires At(w, t, Checked) && w.waits[t].woken && !w.waits[t].waking
    ensures EEnabled(w, Machine(DoYield(c))) && Lost(EDo(w, Machine(DoYield(c))), t)
  {
    hide Account, Unaccount, Requeue;
    UnaccountKeeps(SetTask(w.sys, t, w.sys.tasks[t].(state := Waiting, migratable := false)), t);
  }

  lemma AsideChecked(w: World, c: nat, t: nat)
    requires SetAside(w, c, t)
    ensures At(w, t, Checked)
  {
  }

  lemma UnaccountKeeps(s: Sys, t: nat)
    requires t in s.tasks
    ensures t in Unaccount(s, t).tasks && Unaccount(s, t).tasks[t].state == s.tasks[t].state
    ensures |Unaccount(s, t).cpus| == |s.cpus|
  {
  }

  /** Whenever a task is preempted after it found its flag unset, its wake can be lost: the event fires
      while the task is ready and queued, the wake is absorbed, and the task goes to sleep after all. */
  lemma IntrusionLoses(w: World, c: nat, t: nat) returns (steps: seq<EStep>, w': World)
    requires EInv(w) && Executes(w.sys, c, t) && w.sys.tasks[t].state == Running && !w.sys.tasks[t].wakePending
    requires At(w, t, Checked) && First(w, w.waits[t].event, t)
    ensures steps != [] && EEnabled(w, steps[0]) && Intrudes(w, steps[0])
    ensures IsERun(w, steps, w') && Lost(w', t)
  {
    hide EInv, EDo, EEnabled, SetAside, Lost;
    var e := w.waits[t].event;
    Preempted(w, c, t);
    var w1 := EDo(w, Machine(DoPreempt(c)));
    Absorbed(w1, c, t, e);
    var w2 := EDo(w1, Fire(e));
    var w3 := EDo(w2, Call(t, c));
    ResumesAgain(w3, c, t);
    var w4 := EDo(w3, Machine(DoPop(c, t)));
    var w5 := EDo(w4, Machine(DoSwitch(c)));
    AsideChecked(w3, c, t);
    SleepsAfterAll(w5, c, t);
    w' := EDo(w5, Machine(DoYield(c)));
    var s5 := [Machine(DoYield(c))];
    var s4 := [Machine(DoSwitch(c))] + s5;
    var s3 := [Machine(DoPop(c, t))] + s4;
    var s2 := [Call(t, c)] + s3;
    var s1 := [Fire(e)] + s2;
    steps := [Machine(DoPreempt(c))] + s1;
    Prepend(w5, Machine(DoYield(c)), [], w');
    Prepend(w4, Machine(DoSwitch(c)), s5, w');
    Prepend(w3, Machine(DoPop(c, t)), s4, w');
    Prepend(w2, Call(t, c), s3, w');
    Prepend(w1, Fire(e), s2, w');
    Prepend(w, Machine(DoPreempt(c)), s1, w');
  }

  lemma Prepend(w: World, step: EStep, rest: seq<EStep>, w': World)
    requires EEnabled(w, step) && IsERun(EDo(w, step), rest, w')
    ensures IsERun(w, [step] + rest, w')
  {
    assert ([step] + rest)[1..] == rest;
  }

  const RAN: Task := Task(Running, false, false, true, 0, 0, true, true, false)

  const WOKEN: Task := FRESH.(queued := true, counted := true, schedCpu := 0)

  /** One CPU and one task, and no guard. */
  function Solo(task: Task, cpu: Cpu): World {
    World(Sys(map[0 := task], [cpu]), map[], map[])
  }

  /** From boot until the task runs. */
  lemma SoloStarts()
    ensures EEnabled(EBoot(1), Machine(DoCreate(0, false)))
    ensures EDo(EBoot(1), Machine(DoCreate(0, false))) == Solo(FRESH, Cpu(None, Normal, 0, multiset{}))
    ensures EDo(Solo(FRESH, Cpu(None, Normal, 0, multiset{})), Machine(DoWake(0, 0)))
         == Solo(WOKEN, Cpu(None, Normal, 1, multiset{0}))
    ensures EDo(Solo(WOKEN, Cpu(None, Normal, 1, multiset{0})), Machine(DoPreempt(0)))
         == Solo(WOKEN, Cpu(None, Selecting, 1, multiset{0}))
  {
    assert Boot(1).cpus == [Cpu(None, Normal, 0, multiset{})];
    assert map[0 := FRESH][0 := WOKEN] == map[0 := WOKEN];
    var s := Sys(map[0 := FRESH], [Cpu(None, Normal, 0, multiset{})]);
    var s1 := SetTask(s, 0, FRESH.(queued := true));
    assert Account(s1, 0, 0) == Sys(map[0 := WOKEN], [Cpu(None, Normal, 1, multiset{})]);
    assert multiset{} + multiset{0} == multiset{0};
  }

  const PICKED: Task := RAN.(onCpu := false, lastCpu := NO_CPU)

  lemma SoloPicked()
    ensures EEnabled(Solo(WOKEN, Cpu(None, Selecting, 1, multiset{0})), Machine(DoPop(0, 0)))
    ensures EDo(Solo(WOKEN, Cpu(None, Selecting, 1, multiset{0})), Machine(DoPop(0, 0)))
         == Solo(PICKED, Cpu(None, Chosen(Some(0)), 1, multiset{}))
  {
    assert multiset{0} - multiset{0} == multiset{};
  }

  lemma SoloSwitched()
    ensures EEnabled(Solo(PICKED, Cpu(None, Chosen(Some(0)), 1, multiset{})), Machine(DoSwitch(0)))
    ensures EDo(Solo(PICKED, Cpu(None, Chosen(Some(0)), 1, multiset{})), Machine(DoSwitch(0)))
         == Solo(RAN, Cpu(Some(0), Leaving(None), 1, multiset{}))
  {
  }

  lemma SoloReleased()
    ensures EEnabled(Solo(RAN, Cpu(Some(0), Leaving(None), 1, multiset{})), Machine(DoRelease(0)))
    ensures EDo(Solo(RAN, Cpu(Some(0), Leaving(None), 1, multiset{})), Machine(DoRelease(0)))
         == Solo(RAN, Cpu(Some(0), Normal, 1, multiset{}))
  {
  }

  /** The task has registered with an event and found its flag unset. */
  function Tested(): World {
    World(Sys(map[0 := RAN], [Cpu(Some(0), Normal, 1, multiset{})]), map[0 := Waiter(Checked, 0, false, false, false)],
        map[0 := [0]])
  }

  lemma SoloTests()
    ensures var w := Solo(RAN, Cpu(Some(0), Normal, 1, multiset{}));
            EEnabled(w, Register(0, 0)) && EEnabled(EDo(w, Register(0, 0)), Test(0))
            && EDo(EDo(w, Register(0, 0)), Test(0)) == Tested()
  {
    assert List(Solo(RAN, Cpu(Some(0), Normal, 1, multiset{})), 0) + [0] == [0];
  }

  lemma PrependCalm(w: World, step: EStep, rest: seq<EStep>, w': World)
    requires EEnabled(w, step) && IsERun(EDo(w, step), rest, w') && Calm(EDo(w, step), rest) && !Intrudes(w, step)
    ensures IsERun(w, [step] + rest, w') && Calm(w, [step] + rest)
  {
    assert ([step] + rest)[1..] == rest;
  }

  lemma TestedReached() returns (steps: seq<EStep>)
    ensures IsERun(EBoot(1), steps, Tested()) && Calm(EBoot(1), steps)
  {
    hide EDo, IsERun, Calm;
    SoloStarts(); SoloPicked(); SoloSwitched(); SoloReleased(); SoloTests();
    var idle := Cpu(None, Normal, 1, multiset{0});
    var run := Solo(RAN, Cpu(Some(0), Normal, 1, multiset{}));
    RunOfNone(Tested());
    PrependCalm(EDo(run, Register(0, 0)), Test(0), [], Tested());
    steps := [Test(0)] + [];
    PrependCalm(run, Register(0, 0), steps, Tested());
    steps := [Register(0, 0)] + steps;
    PrependCalm(Solo(RAN, Cpu(Some(0), Leaving(None), 1, multiset{})), Machine(DoRelease(0)), steps, Tested());
    steps := [Machine(DoRelease(0))] + steps;
    PrependCalm(Solo(PICKED, Cpu(None, Chosen(Some(0)), 1, multiset{})), Machine(DoSwitch(0)), steps, Tested());
    steps := [Machine(DoSwitch(0))] + steps;
    PrependCalm(Solo(WOKEN, idle.(phase := Selecting)), Machine(DoPop(0, 0)), steps, Tested());
    steps := [Machine(DoPop(0, 0))] + steps;
    PrependCalm(Solo(WOKEN, idle), Machine(DoPreempt(0)), steps, Tested());
    steps := [Machine(DoPreempt(0))] + steps;
    PrependCalm(Solo(FRESH, Cpu(None, Normal, 0, multiset{})), Machine(DoWake(0, 0)), steps, Tested());
    steps := [Machine(DoWake(0, 0))] + steps;
    PrependCalm(EBoot(1), Machine(DoCreate(0, false)), steps, Tested());
    steps := [Machine(DoCreate(0, false))] + steps;
  }

  lemma {:induction false} Join(w: World, first: seq<EStep>, mid: World, second: seq<EStep>, w': World)
    requires IsERun(w, first, mid) && IsERun(mid, second, w')
    ensures IsERun(w, first + second, w')
    decreases |first|
  {
    hide EDo, EEnabled;
    if first == [] {
      assert first + second == second;
    } else {
      Join(EDo(w, first[0]), first[1..], mid, second, w');
      assert (first + second)[1..] == first[1..] + second;
    }
  }

  /** Without the calm condition the promise fails: a run from boot on one CPU that loses a wake. */
  lemma LostWake() returns (steps: seq<EStep>, w: World)
    ensures IsERun(EBoot(1), steps, w) && Lost(w, 0)
  {
    hide EDo, EInv, IsERun, Calm, Lost;
    var first := TestedReached();
    EBootOk(1);
    CalmKeeps(EBoot(1), first, Tested());
    var rest;
    rest, w := IntrusionLoses(Tested(), 0, 0);
    Join(EBoot(1), first, Tested(), rest, w);
    steps := first + rest;
  }

  lemma EBootOk(n: nat)
    ensures EInv(EBoot(n))
  {
    BootOk(n);
  }
}
