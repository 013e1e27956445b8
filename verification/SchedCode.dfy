/**
  The code of `kernel/src/sched/mod.rs` as methods that change tasks, CPUs and run queues in place.  Every
  method is proved to make a step, or a run, of the scheduler machine, so its invariant holds throughout.  The
  machine sees of a run queue only which tasks are in it.
  */
module SchedCode {
  import opened Common
  import opened Sched
  import O = RunOrder
  import R = RunQueue

  const STEAL_THRESHOLD: nat := 2

  /** What a CPU has besides its run queue. */
  datatype CpuState = CpuState(current: Option<nat>, phase: Phase, load: int)

  function View(cpus: seq<CpuState>, held: seq<multiset<nat>>): (v: seq<Cpu>)
    requires |cpus| == |held|
    ensures |v| == |cpus|
    ensures forall i :: 0 <= i < |v| ==> v[i] == Cpu(cpus[i].current, cpus[i].phase, cpus[i].load, held[i])
  {
    seq(|cpus|, i requires 0 <= i < |cpus| => Cpu(cpus[i].current, cpus[i].phase, cpus[i].load, held[i]))
  }

  lemma ViewCpu(cpus: seq<CpuState>, held: seq<multiset<nat>>, c: nat, x: CpuState)
    requires |cpus| == |held| && c < |cpus|
    ensures View(cpus[c := x], held) == View(cpus, held)[c := Cpu(x.current, x.phase, x.load, held[c])]
  {
  }

  lemma ViewQueue(cpus: seq<CpuState>, held: seq<multiset<nat>>, c: nat, q: multiset<nat>)
    requires |cpus| == |held| && c < |cpus|
    ensures View(cpus, held[c := q]) == View(cpus, held)[c := View(cpus, held)[c].(queue := q)]
  {
  }

  class System {
    var tasks: map<nat, Task>
    var cpus: seq<CpuState>
    const queues: seq<R.RunQueue>

    ghost predicate Valid()
      reads this`cpus, queues
    {
      && |queues| == |cpus| && (forall i :: 0 <= i < |queues| ==> queues[i].Valid())
      && forall i, j :: 0 <= i < j < |queues| ==> queues[i] != queues[j]
    }

    /** The tasks in the run queues. */
    ghost function Held(): (h: seq<multiset<nat>>)
      reads queues
      ensures |h| == |queues| && forall i :: 0 <= i < |h| ==> h[i] == queues[i].Contents()
    {
      seq(|queues|, i requires 0 <= i < |queues| reads queues => queues[i].Contents())
    }

    /** The state of the machine. */
    ghost function S(): Sys
      reads this`tasks, this`cpus, queues
      requires |queues| == |cpus|
    {
      Sys(tasks, View(cpus, Held()))
    }

    constructor (n: nat)
      ensures Valid() && S() == Boot(n) && Inv(S())
    {
      hide Inv, R.RunqOk, O.Holds, O.Names, O.Placed;
      var qs: seq<R.RunQueue> := [];
      for i := 0 to n
        invariant |qs| == i && fresh(qs)
        invariant forall j :: 0 <= j < i ==> qs[j].Valid() && qs[j].Contents() == multiset{}
        invariant forall j, k :: 0 <= j < k < i ==> qs[j] != qs[k]
      {
        var q := new R.RunQueue();
        qs := qs + [q];
      }
      tasks, cpus, queues := map[], seq(n, i => CpuState(None, Normal, 0)), qs;
      new;
      assert S() == Boot(n);
      BootOk(n);
    }

    method SetCpu(c: nat, x: CpuState)
      requires Valid() && c < |cpus|
      modifies this`cpus
      ensures Valid() && cpus == old(cpus)[c := x] && Held() == old(Held())
      ensures S() == Sched.SetCpu(old(S()), c, Cpu(x.current, x.phase, x.load, old(S()).cpus[c].queue))
    {
      ViewCpu(cpus, Held(), c, x);
      cpus := cpus[c := x];
    }

    /** What the machine sees of a CPU. */
    lemma Seen(c: nat)
      requires Valid() && c < |cpus|
      ensures |S().cpus| == |cpus|
      ensures S().cpus[c] == Cpu(cpus[c].current, cpus[c].phase, cpus[c].load, queues[c].Contents())
    {
    }

    method AddLoad(c: nat, d: int)
      requires Valid() && c < |cpus|
      modifies this`cpus
      ensures Valid() && S() == Sched.AddLoad(old(S()), c, d) && |cpus| == |old(cpus)|
    {
      hide Valid, View;
      Sizes();
      Seen(c);
      SetCpu(c, cpus[c].(load := cpus[c].load + d));
    }

    method AccountLoad(c: nat, t: nat)
      requires Valid() && c < |cpus| && t in tasks
      modifies this`tasks, this`cpus
      ensures Valid() && S() == Account(old(S()), c, t) && |cpus| == |old(cpus)| && tasks.Keys == old(tasks.Keys)
    {
      hide Valid, View, Sched.AddLoad;
      Sizes();
      if !tasks[t].counted {
        tasks := tasks[t := tasks[t].(counted := true, schedCpu := c)];
        AddLoad(c, 1);
      }
    }

    lemma Sizes()
      requires Valid()
      ensures |queues| == |cpus| == |S().cpus|
    {
    }

    method UnaccountLoad(t: nat)
      requires Valid() && t in tasks
      modifies this`tasks, this`cpus
      ensures Valid() && S() == Unaccount(old(S()), t) && |cpus| == |old(cpus)| && tasks.Keys == old(tasks.Keys)
    {
      hide Valid, View;
      Sizes();
      if tasks[t].counted {
        var owner := tasks[t].schedCpu;
        tasks := tasks[t := tasks[t].(counted := false, schedCpu := NO_CPU)];
        if 0 <= owner < |cpus| {
          AddLoad(owner, -1);
        }
      }
    }

    method TransferLoad(from: nat, to: nat, t: nat)
      requires Valid() && from < |cpus| && to < |cpus| && t in tasks
      modifies this`tasks, this`cpus
      ensures Valid() && S() == Transfer(old(S()), from, to, t) && |cpus| == |old(cpus)|
                && tasks.Keys == old(tasks.Keys)
    {
      hide Valid, View, Account, Sched.AddLoad;
      Sizes();
      if from == to {
        tasks := tasks[t := tasks[t].(schedCpu := to)];
      } else if tasks[t].counted {
        AddLoad(from, -1);
        AddLoad(to, 1);
        tasks := tasks[t := tasks[t].(schedCpu := to)];
      } else {
        AccountLoad(to, t);
      }
    }

    /** `enqueue`: the task goes into the run queue of the CPU, by its class. */
    method Enqueue(c: nat, t: nat, kind: O.Class)
      requires Valid() && c < |cpus|
      modifies queues[c]
      ensures Valid() && S() == Push(old(S()), c, t)
    {
      hide R.RunqOk, O.Holds, O.Names, O.Placed;
      queues[c].Push(t, kind);
      assert Held() == old(Held())[c := old(Held())[c] + multiset{t}];
      ViewQueue(cpus, old(Held()), c, old(Held())[c] + multiset{t});
    }

    /** `pop_next` on the run queue of the CPU. */
    method PopQueue(c: nat) returns (t: Option<nat>)
      requires Valid() && c < |cpus|
      modifies queues[c]
      ensures Valid()
      ensures t == None <==> old(S()).cpus[c].queue == multiset{}
      ensures t == None ==> S() == old(S())
      ensures t.Some? ==> t.value in old(S()).cpus[c].queue && S() == Pull(old(S()), c, t.value)
    {
      hide R.RunqOk, O.Holds, O.Names, O.Popped, O.Placed;
      t := queues[c].PopNext();
      if t.Some? {
        assert Held() == old(Held())[c := old(Held())[c] - multiset{t.value}];
        ViewQueue(cpus, old(Held()), c, old(Held())[c] - multiset{t.value});
      } else {
        assert Held() == old(Held());
      }
    }

    /** `take_stealable` on the run queue of the CPU: a task that may move, if there is one. */
    method StealQueue(c: nat) returns (t: Option<nat>)
      requires Valid() && c < |cpus|
      modifies queues[c]
      ensures Valid()
      ensures t == None <==> forall x :: x in old(S()).cpus[c].queue ==> x !in Movable(tasks)
      ensures t == None ==> S() == old(S())
      ensures t.Some? ==>
                t.value in Movable(tasks) && t.value in old(S()).cpus[c].queue && S() == Pull(old(S()), c, t.value)
    {
      hide Movable, R.RunqOk, O.Holds, O.Names, O.CameOut, O.Placed;
      t := queues[c].TakeStealable(Movable(tasks));
      if t.Some? {
        assert Held() == old(Held())[c := old(Held())[c] - multiset{t.value}];
        ViewQueue(cpus, old(Held()), c, old(Held())[c] - multiset{t.value});
      } else {
        assert Held() == old(Held());
      }
    }

    /** `add_task`. */
    method AddTask(c: nat, t: nat, kind: O.Class)
      requires Valid() && c < |cpus| && t in tasks
      modifies this`tasks, this`cpus, queues[c]
      ensures Valid() && S() == Sched.AddTask(old(S()), c, t)
    {
      hide Valid, View, Account;
      Sizes();
      var r := tasks[t];
      if r.state == Dead || r.state == Dying {
        return;
      }
      if r.state == Running {
        tasks := tasks[t := r.(wakePending := true)];
        return;
      }
      if r.queued {
        tasks := tasks[t := r.(state := Ready)];
        return;
      }
      tasks := tasks[t := r.(state := Ready, queued := true)];
      AccountLoad(c, t);
      Enqueue(c, t, kind);
    }

    /** `wake_task`, on the CPU that was chosen for it unless its context is loaded elsewhere. */
    method WakeTask(t: nat, preferred: nat, kind: O.Class)
      requires Valid() && Inv(S()) && preferred < |cpus| && t in tasks
      modifies this`tasks, this`cpus, queues
      ensures Valid() && S() == Wake(old(S()), t, preferred) && Inv(S())
    {
      hide Valid, View, Inv, Sched.AddTask;
      Sizes();
      WakeKeeps(S(), t, preferred);
      var target := preferred;
      if tasks[t].onCpu && 0 <= tasks[t].lastCpu < |cpus| {
        target := tasks[t].lastCpu;
      }
      AddTask(target, t, kind);
    }

    /** `finish_requeue_current`. */
    method FinishRequeue(c: nat, t: nat, kind: O.Class)
      requires Valid() && c < |cpus| && t in tasks
      modifies this`tasks, this`cpus, queues[c]
      ensures Valid() && S() == Requeued(old(S()), c, t)
    {
      hide Valid, View, Account, Transfer;
      Sizes();
      var owner := tasks[t].schedCpu;
      if owner != c {
        if 0 <= owner < |cpus| {
          TransferLoad(owner, c, t);
        } else {
          AccountLoad(c, t);
        }
      }
      Enqueue(c, t, kind);
    }

    /** The task goes back to the queue of its CPU, unless it is in a queue. */
    method RequeueCurrent(c: nat, t: nat, kind: O.Class)
      requires Valid() && c < |cpus| && t in tasks
      modifies this`tasks, this`cpus, queues[c]
      ensures Valid() && S() == Requeue(old(S()), c, t)
    {
      hide Valid, View, Account, Transfer, Requeued, Requeue;
      Sizes();
      RequeueIs(S(), c, t);
      var queued := tasks[t].queued;
      tasks := tasks[t := tasks[t].(state := Ready, migratable := false, queued := true)];
      if !queued {
        FinishRequeue(c, t, kind);
      }
    }

    method SetPhase(c: nat, phase: Phase)
      requires Valid() && c < |cpus|
      modifies this`cpus
      ensures Valid() && S() == Sched.SetCpu(old(S()), c, old(S()).cpus[c].(phase := phase)) && |cpus| == |old(cpus)|
    {
      hide Valid, View;
      Sizes();
      Seen(c);
      SetCpu(c, cpus[c].(phase := phase));
    }

    /** `reschedule`, up to the choice of the next task. */
    method Reschedule(c: nat, kind: O.Class)
      requires Valid() && Inv(S()) && Enabled(S(), DoPreempt(c))
      modifies this`tasks, this`cpus, queues
      ensures Valid() && S() == Preempt(old(S()), c) && Inv(S())
    {
      hide Valid, View, Inv, Requeue, Unaccount;
      Sizes();
      Seen(c);
      PreemptKeeps(S(), c);
      if cpus[c].current.Some? {
        var t := cpus[c].current.value;
        if tasks[t].state == Dead || tasks[t].state == Dying {
          UnaccountSizes(S(), t);
          UnaccountLoad(t);
        } else {
          RequeueSizes(S(), c, t);
          RequeueCurrent(c, t, kind);
        }
      }
      Sizes();
      SetPhase(c, Selecting);
    }

    /** `do_yield`, up to the choice of the next task. */
    method Yield(c: nat, kind: O.Class)
      requires Valid() && Inv(S()) && Enabled(S(), DoYield(c))
      modifies this`tasks, this`cpus, queues
      ensures Valid() && S() == Sched.Yield(old(S()), c) && Inv(S())
    {
      hide Valid, View, Inv, Asleep, Sched.Yield;
      Sizes();
      Seen(c);
      YieldKeeps(S(), c);
      YieldsAsleep(S(), c);
      if cpus[c].current.Some? {
        PutAside(c, cpus[c].current.value, kind);
      }
      Sizes();
      SetPhase(c, Selecting);
    }

    /** The running task stops running: it goes to sleep, unless a wake came in. */
    method PutAside(c: nat, t: nat, kind: O.Class)
      requires Valid() && c < |cpus| && t in tasks
      modifies this`tasks, this`cpus, queues[c]
      ensures Valid() && S() == Asleep(old(S()), c, t)
    {
      hide Valid, View, Requeue, Unaccount;
      Sizes();
      var r := tasks[t];
      if r.state == Dead || r.state == Dying {
        UnaccountLoad(t);
      } else if r.wakePending {
        tasks := tasks[t := r.(wakePending := false)];
        RequeueCurrent(c, t, kind);
      } else {
        tasks := tasks[t := r.(state := Waiting, migratable := false)];
        UnaccountLoad(t);
      }
    }

    /** One turn of the loop in `next`: a task comes out of the run queue and is chosen, or dropped if it is
        not ready any more. */
    method PopOne(c: nat) returns (t: Option<nat>)
      requires Valid() && Inv(S()) && c < |cpus| && S().cpus[c].phase == Selecting
      modifies this`tasks, this`cpus, queues
      ensures Valid() && Inv(S())
      ensures t == None <==> old(S()).cpus[c].queue == multiset{}
      ensures t == None ==> S() == old(S())
      ensures t.Some? ==> Enabled(old(S()), DoPop(c, t.value)) && S() == Pop(old(S()), c, t.value)
    {
      hide Valid, View, Inv, Pop, Given, Pull;
      Sizes();
      t := PopQueue(c);
      Sizes();
      if t.Some? {
        PullSizes(old(S()), c, t.value);
        QueueKnown(old(S()), c, t.value);
        PopKeeps(old(S()), c, t.value);
        PopGiven(old(S()), c, t.value);
        Popped(c, t.value);
      }
    }

    /** What `next` does with a task that the run queue gave out. */
    method Popped(c: nat, t: nat)
      requires Valid() && c < |cpus| && t in tasks
      modifies this`tasks, this`cpus
      ensures Valid() && S() == Given(old(S()), c, t)
    {
      hide Valid, View, Given;
      Sizes();
      GivenIs(S(), c, t);
      tasks := tasks[t := tasks[t].(queued := false)];
      var r := tasks[t];
      if r.state == Ready {
        tasks := tasks[t := r.(state := Running, migratable := true)];
        assert tasks == old(tasks)[t := r.(state := Running, migratable := true)];
        SetPhase(c, Chosen(Some(t)));
      } else if r.state != Running {
        tasks := tasks[t := r.(wakePending := false)];
        assert tasks == old(tasks)[t := r.(wakePending := false)];
        UnaccountLoad(t);
      }
    }

    /** The loop of `next` over the CPU's own run queue: a run of the machine that ends with a task chosen or
        with the queue empty. */
    method Next(c: nat) returns (ghost steps: seq<Step>)
      requires Valid() && Inv(S()) && c < |cpus| && S().cpus[c].phase == Selecting
      modifies this`tasks, this`cpus, queues
      ensures Valid() && Inv(S()) && IsRun(old(S()), steps, S()) && c < |S().cpus|
      ensures var cpu := S().cpus[c];
              (cpu.phase.Chosen? && cpu.phase.to.Some?) || (cpu.phase == Selecting && cpu.queue == multiset{})
      ensures OnlyPops(steps, c)
    {
      hide Valid, View, Inv, Pop, IsRun, Enabled, OnlyPops;
      steps := [];
      Sizes();
      NoSteps(S(), c);
      while true
        invariant Valid() && |queues| == |cpus| && Inv(S()) && IsRun(old(S()), steps, S()) && c < |cpus| == |S().cpus|
        invariant S().cpus[c].phase == Selecting
        invariant OnlyPops(steps, c)
        decreases |S().cpus[c].queue|
      {
        ghost var before := S();
        var t := PopOne(c);
        Sizes();
        if t == None {
          return;
        }
        PopLeaves(before, c, t.value);
        PopAppend(old(S()), steps, before, c, t.value);
        steps := steps + [DoPop(c, t.value)];
        Seen(c);
        if cpus[c].phase != Selecting {
          return;
        }
      }
    }

    /** The search of `try_steal`: the first of the busiest other CPUs, if they are busier than this one by more
        than the threshold. */
    method FindVictim(c: nat) returns (v: Option<nat>)
      requires c < |cpus|
      ensures v.Some? ==> Busiest(cpus, c, v.value)
      ensures v == None ==> forall d :: 0 <= d < |cpus| && d != c ==> cpus[d].load <= cpus[c].load + STEAL_THRESHOLD
    {
      v := None;
      var best := cpus[c].load + STEAL_THRESHOLD;
      for d := 0 to |cpus|
        invariant v.Some? ==>
                  v.value < |cpus| && v.value != c && cpus[v.value].load == best > cpus[c].load + STEAL_THRESHOLD
        invariant v == None ==> best == cpus[c].load + STEAL_THRESHOLD
        invariant v.Some? ==> v.value < d && forall e :: 0 <= e < v.value && e != c ==> cpus[e].load < best
        invariant forall e :: 0 <= e < d && e != c ==> cpus[e].load <= best
      {
        if d != c && cpus[d].load > best {
          best, v := cpus[d].load, Some(d);
        }
      }
    }

    /** `try_steal`: a task that may move comes out of the run queue of the victim, and is chosen unless it is
        not ready any more; without a victim or such a task the CPU goes idle. */
    method TrySteal(c: nat) returns (ghost step: Step)
      requires Valid() && Inv(S()) && Enabled(S(), DoPickIdle(c))
      modifies this`tasks, this`cpus, queues
      ensures Valid() && Inv(S()) && Enabled(old(S()), step) && S() == Do(old(S()), step)
      ensures step == DoPickIdle(c) || (step.DoSteal? && step.cpu == c && Busiest(old(cpus), c, step.victim))
      ensures step == DoPickIdle(c) ==>
                || (forall v: nat :: !Busiest(old(cpus), c, v))
                || exists v: nat :: Busiest(old(cpus), c, v) && Offers(old(S()), v) == {}
    {
      hide Valid, View, Inv, Steal, Movable, Offers, PickIdle;
      Sizes();
      var victim := FindVictim(c);
      if victim.Some? {
        var t := StealQueue(victim.value);
        if t.Some? {
          StealEnabled(old(S()), c, victim.value, t.value);
          StealKeeps(old(S()), c, victim.value, t.value);
          Stolen(old(S()), c, victim.value, t.value);
          step := DoSteal(c, victim.value, t.value);
          return;
        }
        NoOffer(S(), victim.value);
      }
      PickIdleKeeps(S(), c);
      PickIdleIs(S(), c);
      SetPhase(c, Chosen(None));
      step := DoPickIdle(c);
    }

    /** What `try_steal` does with the task. */
    method Stolen(ghost before: Sys, c: nat, victim: nat, t: nat)
      requires Valid() && c < |cpus| && victim < |cpus| && t in tasks
      requires victim < |before.cpus| && S() == Pull(before, victim, t)
      modifies this`tasks, this`cpus
      ensures Valid() && c < |before.cpus| && t in before.tasks && S() == Steal(before, c, victim, t)
    {
      hide Valid, View, Steal, Pull, TakeOn, Reject;
      Sizes();
      PullSizes(before, victim, t);
      StealGiven(before, c, victim, t);
      tasks := tasks[t := tasks[t].(queued := false)];
      if tasks[t].state != Ready {
        Rejected(c, t);
      } else {
        TakenOn(c, victim, t);
      }
    }

    method Rejected(c: nat, t: nat)
      requires Valid() && c < |cpus| && t in tasks
      modifies this`tasks, this`cpus
      ensures Valid() && S() == Reject(old(S()), c, t)
    {
      hide Valid, View, Unaccount;
      Sizes();
      if tasks[t].state != Running {
        tasks := tasks[t := tasks[t].(wakePending := false)];
        UnaccountLoad(t);
      }
      Sizes();
      SetPhase(c, Chosen(None));
    }

    method TakenOn(c: nat, victim: nat, t: nat)
      requires Valid() && c < |cpus| && victim < |cpus| && t in tasks
      modifies this`tasks, this`cpus
      ensures Valid() && S() == TakeOn(old(S()), c, victim, t)
    {
      hide Valid, View, Transfer;
      Sizes();
      tasks := tasks[t := tasks[t].(state := Running, migratable := true)];
      TransferLoad(victim, c, t);
      Sizes();
      SetPhase(c, Chosen(Some(t)));
    }

    /** The rest of `do_reschedule`: the chosen task becomes the current one. */
    method SwitchTo(c: nat)
      requires Valid() && Inv(S()) && Enabled(S(), DoSwitch(c))
      modifies this`tasks, this`cpus
      ensures Valid() && S() == Switch(old(S()), c) && Inv(S())
    {
      hide Valid, View, Inv, Account;
      Sizes();
      SwitchKeeps(S(), c);
      Seen(c);
      var to, from := cpus[c].phase.to, cpus[c].current;
      if from == to {
        SetPhase(c, Normal);
        return;
      }
      if to.Some? {
        var t := to.value;
        tasks := tasks[t := tasks[t].(lastCpu := c, schedCpu := c)];
        AccountLoad(c, t);
        tasks := tasks[t := tasks[t].(onCpu := true)];
      }
      Seen(c);
      SetCpu(c, cpus[c].(current := to, phase := Leaving(from)));
    }

    /** `post_switch`. */
    method PostSwitch(c: nat)
      requires Valid() && Inv(S()) && Enabled(S(), DoRelease(c))
      modifies this`tasks, this`cpus
      ensures Valid() && S() == Release(old(S()), c) && Inv(S())
    {
      hide Valid, View, Inv;
      Sizes();
      ReleaseKeeps(S(), c);
      Seen(c);
      if cpus[c].phase.prev.Some? {
        var t := cpus[c].phase.prev.value;
        tasks := tasks[t := tasks[t].(onCpu := false)];
      }
      SetPhase(c, Normal);
    }
  }

  /** The tasks that may move to another CPU. */
  function Movable(tasks: map<nat, Task>): set<nat> {
    set t | t in tasks && tasks[t].migratable && !tasks[t].bound
  }

  // ----- the steps of the machine in parts

  /** What becomes of the running task in a yield. */
  function Asleep(s: Sys, c: nat, t: nat): Sys
    requires c < |s.cpus| && t in s.tasks
  {
    var r := s.tasks[t];
    if Gone(r) then Unaccount(s, t)
    else if r.wakePending then Requeue(SetTask(s, t, r.(wakePending := false)), c, t)
    else Unaccount(SetTask(s, t, r.(state := Waiting, migratable := false)), t)
  }

  lemma YieldsAsleep(s: Sys, c: nat)
    requires Enabled(s, DoYield(c))
    ensures s.cpus[c].current.Some? ==>
              var s1 := Asleep(s, c, s.cpus[c].current.value);
              |s1.cpus| == |s.cpus| && Sched.Yield(s, c) == SetCpu(s1, c, s1.cpus[c].(phase := Selecting))
    ensures s.cpus[c].current.None? ==> Sched.Yield(s, c) == SetCpu(s, c, s.cpus[c].(phase := Selecting))
  {
    hide Requeue, Unaccount;
    if s.cpus[c].current.Some? {
      var t := s.cpus[c].current.value;
      RequeueSizes(SetTask(s, t, s.tasks[t].(wakePending := false)), c, t);
      UnaccountSizes(s, t);
      UnaccountSizes(SetTask(s, t, s.tasks[t].(state := Waiting, migratable := false)), t);
    }
  }

  /** A pop once the task is out of the queue. */
  function Given(s: Sys, c: nat, t: nat): Sys
    requires c < |s.cpus| && t in s.tasks
  {
    var r := s.tasks[t].(queued := false);
    if r.state == Ready then
      SetCpu(SetTask(s, t, r.(state := Running, migratable := true)), c, s.cpus[c].(phase := Chosen(Some(t))))
    else if r.state == Running then SetTask(s, t, r)
    else Unaccount(SetTask(s, t, r.(wakePending := false)), t)
  }

  lemma GivenIs(s: Sys, c: nat, t: nat)
    requires c < |s.cpus| && t in s.tasks
    ensures var r := s.tasks[t].(queued := false);
            Given(s, c, t) ==
            if r.state == Ready then
              SetCpu(SetTask(s, t, r.(state := Running, migratable := true)), c, s.cpus[c].(phase := Chosen(Some(t))))
            else if r.state == Running then SetTask(s, t, r)
            else Unaccount(SetTask(s, t, r.(wakePending := false)), t)
  {
  }

  lemma NoSteps(s: Sys, c: nat)
    ensures IsRun(s, [], s) && OnlyPops([], c)
  {
  }

  predicate OnlyPops(steps: seq<Step>, c: nat) {
    forall i :: 0 <= i < |steps| ==> steps[i].DoPop? && steps[i].cpu == c
  }

  lemma PopAppend(s: Sys, steps: seq<Step>, mid: Sys, c: nat, t: nat)
    requires IsRun(s, steps, mid) && Enabled(mid, DoPop(c, t)) && OnlyPops(steps, c)
    ensures IsRun(s, steps + [DoPop(c, t)], Pop(mid, c, t)) && OnlyPops(steps + [DoPop(c, t)], c)
  {
    hide IsRun, Pop;
    Append(s, steps, mid, DoPop(c, t));
  }

  lemma PullSizes(s: Sys, c: nat, t: nat)
    requires c < |s.cpus|
    ensures |Pull(s, c, t).cpus| == |s.cpus| && Pull(s, c, t).tasks == s.tasks
  {
  }

  lemma PopGiven(s: Sys, c: nat, t: nat)
    requires c < |s.cpus| && t in s.tasks
    ensures Pop(s, c, t) == Given(Pull(s, c, t), c, t)
  {
  }

  lemma PopLeaves(s: Sys, c: nat, t: nat)
    requires Enabled(s, DoPop(c, t))
    ensures c < |s.cpus| && t in s.tasks
    ensures var s' := Pop(s, c, t);
            && |s'.cpus| == |s.cpus| && |s'.cpus[c].queue| < |s.cpus[c].queue|
            && (s'.cpus[c].phase == Selecting || s'.cpus[c].phase == Chosen(Some(t)))
  {
    hide Unaccount;
    UnaccountSizes(SetTask(Pull(s, c, t), t, s.tasks[t].(queued := false, wakePending := false)), t);
    var q := s.cpus[c].queue;
    assert q == (q - multiset{t}) + multiset{t};
  }

  /** The first of the busiest CPUs besides `c`, busier than `c` by more than the threshold. */
  predicate Busiest(cpus: seq<CpuState>, c: nat, v: nat) {
    && c < |cpus| && v < |cpus| && v != c && cpus[v].load > cpus[c].load + STEAL_THRESHOLD
    && (forall d :: 0 <= d < |cpus| && d != c ==> cpus[d].load <= cpus[v].load)
    && (forall d :: 0 <= d < v && d != c ==> cpus[d].load < cpus[v].load)
  }

  /** The tasks that a CPU has to offer to others. */
  ghost function Offers(s: Sys, v: nat): set<nat>
    requires v < |s.cpus|
  {
    set t | t in Movable(s.tasks) && t in s.cpus[v].queue
  }

  lemma NoOffer(s: Sys, v: nat)
    requires v < |s.cpus| && forall x :: x in s.cpus[v].queue ==> x !in Movable(s.tasks)
    ensures Offers(s, v) == {}
  {
  }

  lemma StealEnabled(s: Sys, c: nat, v: nat, t: nat)
    requires Enabled(s, DoPickIdle(c)) && v < |s.cpus| && v != c && t in Movable(s.tasks) && t in s.cpus[v].queue
    ensures Enabled(s, DoSteal(c, v, t)) && t in s.tasks && s.tasks[t].migratable && !s.tasks[t].bound
  {
  }

  lemma PickIdleIs(s: Sys, c: nat)
    requires c < |s.cpus|
    ensures PickIdle(s, c) == SetCpu(s, c, s.cpus[c].(phase := Chosen(None)))
  {
  }

  /** A steal once the task is out of the victim's queue: it is taken on, or turned away. */
  function TakeOn(s: Sys, c: nat, v: nat, t: nat): Sys
    requires c < |s.cpus| && v < |s.cpus| && t in s.tasks
  {
    var s2 := Transfer(SetTask(s, t, s.tasks[t].(state := Running, migratable := true)), v, c, t);
    SetCpu(s2, c, s2.cpus[c].(phase := Chosen(Some(t))))
  }

  function Reject(s: Sys, c: nat, t: nat): Sys
    requires c < |s.cpus| && t in s.tasks
  {
    var s2 := if s.tasks[t].state == Running then s else Unaccount(SetTask(s, t, s.tasks[t].(wakePending := false)), t);
    SetCpu(s2, c, s2.cpus[c].(phase := Chosen(None)))
  }

  lemma StealGiven(s: Sys, c: nat, v: nat, t: nat)
    requires c < |s.cpus| && v < |s.cpus| && t in s.tasks
    ensures var s1 := SetTask(Pull(s, v, t), t, s.tasks[t].(queued := false));
            && |s1.cpus| == |s.cpus| && t in s1.tasks
            && Steal(s, c, v, t) == if s.tasks[t].state == Ready then TakeOn(s1, c, v, t) else Reject(s1, c, t)
  {
    hide Unaccount, Transfer;
    var r := s.tasks[t].(queued := false);
    var s0 := Pull(s, v, t);
    var s1 := SetTask(s0, t, r);
    assert s1.tasks[t := r.(wakePending := false)] == s.tasks[t := r.(wakePending := false)];
    assert s1.tasks[t := r.(state := Running, migratable := true)] ==
        s.tasks[t := r.(state := Running, migratable := true)];
    UnaccountSizes(SetTask(s0, t, r.(wakePending := false)), t);
    TransferSizes(SetTask(s0, t, r.(state := Running, migratable := true)), v, c, t);
  }

  // ----- the helpers keep the sets of tasks and CPUs

  lemma RequeueIs(s: Sys, c: nat, t: nat)
    requires c < |s.cpus| && t in s.tasks
    ensures Requeue(s, c, t) ==
            var s1 := SetTask(s, t, s.tasks[t].(state := Ready, migratable := false, queued := true));
            if s.tasks[t].queued then s1 else Requeued(s1, c, t)
  {
  }

  lemma UnaccountSizes(s: Sys, t: nat)
    requires t in s.tasks
    ensures |Unaccount(s, t).cpus| == |s.cpus| && Unaccount(s, t).tasks.Keys == s.tasks.Keys
    ensures forall c :: 0 <= c < |s.cpus| ==>
              Unaccount(s, t).cpus[c].phase == s.cpus[c].phase && Unaccount(s, t).cpus[c].queue == s.cpus[c].queue
  {
  }

  lemma TransferSizes(s: Sys, from: nat, to: nat, t: nat)
    requires from < |s.cpus| && to < |s.cpus| && t in s.tasks
    ensures |Transfer(s, from, to, t).cpus| == |s.cpus| && Transfer(s, from, to, t).tasks.Keys == s.tasks.Keys
  {
  }

  lemma RequeueSizes(s: Sys, c: nat, t: nat)
    requires c < |s.cpus| && t in s.tasks
    ensures |Requeue(s, c, t).cpus| == |s.cpus| && Requeue(s, c, t).tasks.Keys == s.tasks.Keys
  {
  }

  lemma QueueKnown(s: Sys, c: nat, t: nat)
    requires Inv(s) && c < |s.cpus| && t in s.cpus[c].queue
    ensures t in s.tasks
  {
    CpuAt(s, c);
  }

  /** One more step at the end of a run. */
  lemma {:induction false} Append(s: Sys, steps: seq<Step>, mid: Sys, step: Step)
    requires IsRun(s, steps, mid) && Enabled(mid, step)
    ensures IsRun(s, steps + [step], Do(mid, step))
    decreases |steps|
  {
    hide Do, Enabled;
    if steps == [] {
      assert steps + [step] == [step] && [step][1..] == [];
      LastStep(mid, step);
    } else {
      Append(Do(s, steps[0]), steps[1..], mid, step);
      assert (steps + [step])[1..] == steps[1..] + [step];
    }
  }

  lemma LastStep(s: Sys, step: Step)
    requires Enabled(s, step)
    ensures IsRun(s, [step], Do(s, step))
  {
    hide Do;
    assert [step][1..] == [];
  }
}
