/**
  The run queue of one CPU (`kernel/src/sched/mod.rs`): three sets of first-in first-out queues, each with a
  word of status bits.  `RunOrder` says in which order they give out their tasks.
  */
module RunQueue {
  import opened Common
  import opened RunOrder
  import Arith

  /** The queues of one class; bit `i` of the status word says whether queue `i` has a task. */
  datatype Runq = Runq(status: seq<bool>, queues: seq<seq<nat>>)

  const EMPTY: Runq := Runq(seq(RQ_NQS, _ => false), seq(RQ_NQS, _ => []))

  predicate RunqOk(q: Runq) {
    |q.status| == RQ_NQS && |q.queues| == RQ_NQS && forall i :: 0 <= i < RQ_NQS ==> (q.status[i] <==> q.queues[i] != [])
  }

  /** `add`. */
  method Add(q: Runq, idx: nat, t: nat) returns (r: Runq)
    requires RunqOk(q) && idx < RQ_NQS
    ensures RunqOk(r) && r.queues == q.queues[idx := q.queues[idx] + [t]]
  {
    r := Runq(q.status[idx := true], q.queues[idx := q.queues[idx] + [t]]);
  }

  /** `find_bit_from`: the first queue with a task, cyclically from `start`; `find_bit` starts at zero. */
  method FindBitFrom(q: Runq, start: nat) returns (r: Option<nat>)
    requires RunqOk(q) && start < RQ_NQS
    ensures r == None <==> forall i :: 0 <= i < RQ_NQS ==> q.queues[i] == []
    ensures r.Some? ==> r.value < RQ_NQS && q.queues[r.value] != []
    ensures r.Some? && r.value >= start ==> forall i :: start <= i < r.value ==> q.queues[i] == []
    ensures r.Some? && r.value < start ==>
              (forall i :: start <= i < RQ_NQS ==> q.queues[i] == []) && forall i :: 0 <= i < r.value ==>
                  q.queues[i] == []
  {
    for i := start to RQ_NQS
      invariant forall j :: start <= j < i ==> q.queues[j] == []
    {
      if q.status[i] {
        return Some(i);
      }
    }
    for i := 0 to RQ_NQS
      invariant forall j :: 0 <= j < i ==> q.queues[j] == []
    {
      if q.status[i] {
        return Some(i);
      }
    }
    return None;
  }

  /** The class without the task at place `k` of queue `idx`. */
  function TakenAt(q: Runq, idx: nat, k: nat): (r: Runq)
    requires RunqOk(q) && idx < RQ_NQS && k < |q.queues[idx]|
    ensures RunqOk(r)
  {
    var rest := Remove(q.queues[idx], k);
    Runq(if rest == [] then q.status[idx := false] else q.status, q.queues[idx := rest])
  }

  /** `pop_at`: the oldest task of the queue. */
  method PopAt(q: Runq, idx: nat) returns (t: nat, r: Runq)
    requires RunqOk(q) && idx < RQ_NQS && q.queues[idx] != []
    ensures t == q.queues[idx][0] && r == TakenAt(q, idx, 0)
  {
    t := q.queues[idx][0];
    var rest := q.queues[idx][1..];
    assert Remove(q.queues[idx], 0) == rest;
    r := Runq(if rest == [] then q.status[idx := false] else q.status, q.queues[idx := rest]);
  }

  /** The oldest task of the first queue that has one, cyclically from `start`. */
  method PopFrom(q: Runq, start: nat, ghost some: set<nat>) returns (t: Option<nat>, r: Runq, at: nat)
    requires RunqOk(q) && start < RQ_NQS && forall i, x :: 0 <= i < RQ_NQS && x in q.queues[i] ==> x in some
    ensures at < RQ_NQS && (t == None ==> r == q)
    ensures t == None <==> forall i, x :: 0 <= i < RQ_NQS && x in q.queues[i] ==> x !in some
    ensures t.Some? ==> FirstOf(q.queues[at], 0, some) && t.value == q.queues[at][0] && r == TakenAt(q, at, 0)
    ensures t.Some? ==> Nearest(q.queues, start, at, some)
  {
    var i := FindBitFrom(q, start);
    if i == None {
      return None, q, 0;
    }
    assert 0 <= i.value < RQ_NQS && q.queues[i.value][0] in q.queues[i.value];
    assert q.queues[i.value][0] in some;
    var task;
    task, r := PopAt(q, i.value);
    t, at := Some(task), i.value;
  }

  /** `take_migratable`: the first task of the queue that may move, from anywhere in it. */
  method TakeMigratable(q: Runq, idx: nat, movable: set<nat>) returns (t: Option<nat>, r: Runq, ghost k: nat)
    requires RunqOk(q) && idx < RQ_NQS
    ensures t == None ==> r == q && forall x :: x in q.queues[idx] ==> x !in movable
    ensures t.Some? ==> FirstOf(q.queues[idx], k, movable) && t.value == q.queues[idx][k] && r == TakenAt(q, idx, k)
  {
    var queue := q.queues[idx];
    k := 0;
    for i := 0 to |queue|
      invariant forall j :: 0 <= j < i ==> queue[j] !in movable
    {
      if queue[i] in movable {
        var rest := queue[..i] + queue[i + 1..];
        r := Runq(if rest == [] then q.status[idx := false] else q.status, q.queues[idx := rest]);
        return Some(queue[i]), r, i;
      }
    }
    return None, q, k;
  }

  /** `steal_from`: the first task that may move, in the first queue, cyclically from `start`, that has one. */
  method StealFrom(q: Runq, start: nat, movable: set<nat>)
    returns (t: Option<nat>, r: Runq, ghost at: nat, ghost k: nat)
    requires RunqOk(q) && start < RQ_NQS
    ensures at < RQ_NQS && (t == None ==> r == q)
    ensures t == None <==> forall i, x :: 0 <= i < RQ_NQS && x in q.queues[i] ==> x !in movable
    ensures t.Some? ==> FirstOf(q.queues[at], k, movable) && t.value == q.queues[at][k] && r == TakenAt(q, at, k)
    ensures t.Some? ==> Nearest(q.queues, start, at, movable)
  {
    at, k := 0, 0;
    for offset := 0 to RQ_NQS
      invariant forall i, x :: 0 <= i < RQ_NQS && x in q.queues[i] && x in movable ==> Dist(start, i) >= offset
    {
      var idx := Arith.Cyclic(start, offset, RQ_NQS);
      if q.status[idx] {
        t, r, k := TakeMigratable(q, idx, movable);
        if t.Some? {
          at := idx;
          return;
        }
      }
    }
    return None, q, 0, 0;
  }

  class RunQueue {
    var realtime: Runq
    var timeshare: Runq
    var idle: Runq
    var idx: nat
    var ridx: nat

    /** What is in it, in the order in which it was pushed. */
    ghost var line: seq<Item>

    ghost predicate Valid()
      reads this
    {
      && RunqOk(realtime) && RunqOk(timeshare) && RunqOk(idle) && idx < RQ_NQS && ridx < RQ_NQS
      && (forall i :: 0 <= i < |line| ==> Placed(line[i]))
      && Holds(realtime.queues, line, 0) && Holds(timeshare.queues, line, 1) && Holds(idle.queues, line, 2)
    }

    /** The tasks in the run queue. */
    ghost function Contents(): multiset<nat>
      reads this
    {
      Names(line)
    }

    constructor ()
      ensures Valid() && line == [] && Contents() == multiset{} && idx == ridx == 0
    {
      realtime, timeshare, idle, idx, ridx, line := EMPTY, EMPTY, EMPTY, 0, 0, [];
    }

    /** `push`: the task comes last among those of its class and place. */
    method Push(t: nat, kind: Class)
      requires Valid()
      modifies this
      ensures Valid() && line == old(line) + [Item(t, kind, Place(kind, idx, ridx))]
      ensures idx == old(idx) && ridx == old(ridx)
      ensures Contents() == old(Contents()) + multiset{t}
    {
      hide Holds, Names, Placed;
      ghost var x := Item(t, kind, Place(kind, idx, ridx));
      HoldsAdd(realtime.queues, line, 0, x);
      HoldsAdd(timeshare.queues, line, 1, x);
      HoldsAdd(idle.queues, line, 2, x);
      NamesAdd(line, x);
      PlacedNew(t, kind, idx, ridx);
      line := line + [x];
      match kind
      case Realtime(p) =>
        realtime := Add(realtime, if p < RQ_NQS then p else RQ_NQS - 1, t);
      case Timeshare(base) =>
        var i := ((if base < RQ_NQS then base else RQ_NQS - 1) + idx) % RQ_NQS;
        if ridx != idx && i == ridx {
          i := (ridx + RQ_NQS - 1) % RQ_NQS;
        }
        timeshare := Add(timeshare, i, t);
      case Idle =>
        idle := Add(idle, 0, t);
    }

    /** The queues of a class. */
    ghost function Queues(lane: nat): seq<seq<nat>>
      reads this
    {
      if lane == 0 then realtime.queues else if lane == 1 then timeshare.queues else idle.queues
    }

    /** The first task to take, in the nearest queue of the first class that has one, is the next, and the queues
        without it hold the line without it. */
    lemma Taken(lane: nat, at: nat, m: nat, some: set<nat>) returns (k: nat)
      requires Valid() && lane <= 2 && at < RQ_NQS
      requires FirstOf(Queues(lane)[at], m, some) && Nearest(Queues(lane), Start(lane, ridx), at, some)
      requires forall j :: 0 <= j < |line| && line[j].t in some ==> Lane(line[j].kind) >= lane
      ensures k < |line| && Next(line, k, ridx, some)
      ensures Fits(line[k], lane, at) && line[k].t == Queues(lane)[at][m]
      ensures forall i :: 0 <= i < |Remove(line, k)| ==> Placed(Remove(line, k)[i])
      ensures Holds(Queues(lane)[at := Remove(Queues(lane)[at], m)], Remove(line, k), lane)
      ensures lane != 0 ==> Holds(realtime.queues, Remove(line, k), 0)
      ensures lane != 1 ==> Holds(timeshare.queues, Remove(line, k), 1)
      ensures lane != 2 ==> Holds(idle.queues, Remove(line, k), 2)
    {
      hide Holds, Nearest, FirstOf, Picks, Names, Rank;
      Held();
      k := NextIs(Queues(lane), line, lane, at, m, ridx, some);
      HoldsRemove(realtime.queues, line, 0, k);
      HoldsRemove(timeshare.queues, line, 1, k);
      HoldsRemove(idle.queues, line, 2, k);
    }

    lemma Held()
      requires Valid()
      ensures forall l :: 0 <= l <= 2 ==> |Queues(l)| == RQ_NQS && Holds(Queues(l), line, l)
    {
    }

    /** Nothing to take in a class means no item of that class to take. */
    lemma Nowhere(lane: nat, some: set<nat>)
      requires Valid() && lane <= 2
      ensures (forall i, x :: 0 <= i < RQ_NQS && x in Queues(lane)[i] ==> x !in some) <==>
              forall j :: 0 <= j < |line| && Lane(line[j].kind) == lane ==> line[j].t !in some
    {
      hide Holds;
      Held();
      FoundIn(Queues(lane), line, lane, some);
    }

    /** Everything in the queues belongs to someone. */
    lemma Inside(lane: nat)
      requires Valid() && lane <= 2
      ensures forall i, x :: 0 <= i < RQ_NQS && x in Queues(lane)[i] ==> x in Everyone(line)
    {
      hide Picks;
      forall i: nat, x | i < RQ_NQS && x in Queues(lane)[i]
        ensures x in Everyone(line)
      {
        var m: nat :| m < |Queues(lane)[i]| && Queues(lane)[i][m] == x;
        var k := Behind(line, lane, i, m);
      }
    }

    /** The classes before `lane` have nothing that may be taken. */
    ghost predicate NoneBefore(lane: nat, some: set<nat>)
      reads this
    {
      forall j :: 0 <= j < |line| && line[j].t in some ==> Lane(line[j].kind) >= lane
    }

    /** `pop_next`: the next task comes out, and none exactly when there is none. */
    method PopNext() returns (t: Option<nat>)
      requires Valid()
      modifies this
      ensures Valid() && idx == old(idx)
      ensures t == None <==> old(line) == []
      ensures t == None ==> line == old(line) && ridx == old(ridx)
      ensures t.Some? ==> Popped(old(line), old(ridx), t.value, line, ridx)
      ensures t == None <==> old(Contents()) == multiset{}
      ensures t == None ==> Contents() == old(Contents())
      ensures t.Some? ==> t.value in old(Contents()) && Contents() == old(Contents()) - multiset{t.value}
    {
      hide Valid, Names, Popped, Everyone;
      ghost var all := Everyone(line);
      Nobody(line);
      t := PopRealtime(all);
      if t == None {
        t := PopTimeshare(all);
      }
      if t == None {
        t := PopIdle(all);
      }
      if t.Some? {
        PoppedNames(old(line), old(ridx), t.value, line, ridx);
      }
    }

    method PopRealtime(ghost all: set<nat>) returns (t: Option<nat>)
      requires Valid() && all == Everyone(line)
      modifies this
      ensures Valid() && idx == old(idx) && (t == None ==> line == old(line) && ridx == old(ridx))
      ensures t == None ==> NoneBefore(1, all)
      ensures t.Some? ==> Popped(old(line), old(ridx), t.value, line, ridx)
    {
      hide Holds, Picks, Next, Nearest, Rank, FirstOf, Everyone, AfterPop;
      Held();
      Inside(0);
      Nowhere(0, all);
      var q, at;
      t, q, at := PopFrom(realtime, 0, all);
      if t.Some? {
        ghost var k := Taken(0, at, 0, all);
        Stays(line, k, ridx);
        realtime, line := q, Remove(line, k);
      }
    }

    method PopTimeshare(ghost all: set<nat>) returns (t: Option<nat>)
      requires Valid() && all == Everyone(line) && NoneBefore(1, all)
      modifies this
      ensures Valid() && idx == old(idx) && (t == None ==> line == old(line) && ridx == old(ridx))
      ensures t == None ==> NoneBefore(2, all)
      ensures t.Some? ==> Popped(old(line), old(ridx), t.value, line, ridx)
    {
      hide Holds, Picks, Next, Nearest, Rank, FirstOf, Everyone, AfterPop;
      Held();
      Inside(1);
      Nowhere(1, all);
      var q, at;
      t, q, at := PopFrom(timeshare, ridx, all);
      if t.Some? {
        ghost var k := Taken(1, at, 0, all);
        Moves(q.queues, line, k, ridx);
        timeshare, line := q, Remove(line, k);
        if at == ridx && !timeshare.status[at] {
          ridx := (ridx + 1) % RQ_NQS;
        }
      }
    }

    method PopIdle(ghost all: set<nat>) returns (t: Option<nat>)
      requires Valid() && all == Everyone(line) && NoneBefore(2, all)
      modifies this
      ensures Valid() && idx == old(idx) && (t == None ==> line == old(line) && ridx == old(ridx))
      ensures t == None ==> line == []
      ensures t.Some? ==> Popped(old(line), old(ridx), t.value, line, ridx)
    {
      hide Holds, Picks, Next, Nearest, Rank, FirstOf, Everyone, AfterPop;
      Held();
      Inside(2);
      Nowhere(2, all);
      Nobody(line);
      var q, at;
      t, q, at := PopFrom(idle, 0, all);
      if t.Some? {
        ghost var k := Taken(2, at, 0, all);
        Stays(line, k, ridx);
        idle, line := q, Remove(line, k);
      }
    }

    /** `take_stealable`: the next of the tasks that may move comes out, and none exactly when none may. */
    method TakeStealable(movable: set<nat>) returns (t: Option<nat>)
      requires Valid()
      modifies this
      ensures Valid() && idx == old(idx) && ridx == old(ridx)
      ensures t == None <==> forall j :: 0 <= j < |old(line)| ==> old(line)[j].t !in movable
      ensures t == None ==> line == old(line)
      ensures t.Some? ==> CameOut(old(line), ridx, movable, t.value, line)
      ensures t == None <==> forall x: nat :: x in old(Contents()) ==> x !in movable
      ensures t == None ==> Contents() == old(Contents())
      ensures t.Some? ==>
                t.value in movable && t.value in old(Contents()) && Contents() == old(Contents()) - multiset{t.value}
    {
      hide Valid, Names, CameOut;
      Movers(line, movable);
      t := StealRealtime(movable);
      if t == None {
        t := StealTimeshare(movable);
      }
      if t == None {
        t := StealIdle(movable);
      }
      if t.Some? {
        CameOutNames(old(line), ridx, movable, t.value, line);
      }
    }

    method StealRealtime(movable: set<nat>) returns (t: Option<nat>)
      requires Valid()
      modifies this
      ensures Valid() && idx == old(idx) && ridx == old(ridx) && (t == None ==> line == old(line))
      ensures t == None ==> NoneBefore(1, movable)
      ensures t.Some? ==> CameOut(old(line), ridx, movable, t.value, line)
    {
      hide Holds, Picks, Next, Nearest, Rank, FirstOf;
      Held();
      Nowhere(0, movable);
      var q;
      ghost var at, m;
      t, q, at, m := StealFrom(realtime, 0, movable);
      if t.Some? {
        ghost var k := Taken(0, at, m, movable);
        realtime, line := q, Remove(line, k);
      }
    }

    method StealTimeshare(movable: set<nat>) returns (t: Option<nat>)
      requires Valid() && NoneBefore(1, movable)
      modifies this
      ensures Valid() && idx == old(idx) && ridx == old(ridx) && (t == None ==> line == old(line))
      ensures t == None ==> NoneBefore(2, movable)
      ensures t.Some? ==> CameOut(old(line), ridx, movable, t.value, line)
    {
      hide Holds, Picks, Next, Nearest, Rank, FirstOf;
      Held();
      Nowhere(1, movable);
      var q;
      ghost var at, m;
      t, q, at, m := StealFrom(timeshare, ridx, movable);
      if t.Some? {
        ghost var k := Taken(1, at, m, movable);
        timeshare, line := q, Remove(line, k);
      }
    }

    method StealIdle(movable: set<nat>) returns (t: Option<nat>)
      requires Valid() && NoneBefore(2, movable)
      modifies this
      ensures Valid() && idx == old(idx) && ridx == old(ridx) && (t == None ==> line == old(line))
      ensures t == None ==> forall j :: 0 <= j < |line| ==> line[j].t !in movable
      ensures t.Some? ==> CameOut(old(line), ridx, movable, t.value, line)
    {
      hide Holds, Picks, Next, Nearest, Rank, FirstOf;
      Held();
      Nowhere(2, movable);
      var q;
      ghost var at, m;
      t, q, at, m := StealFrom(idle, 0, movable);
      if t.Some? {
        ghost var k := Taken(2, at, m, movable);
        idle, line := q, Remove(line, k);
      }
    }

    /** `advance_timeshare`: the indices move on together, and the one for removal waits for its queue to be
        empty. */
    method AdvanceTimeshare()
      requires Valid()
      modifies this`idx, this`ridx
      ensures Valid() && Contents() == old(Contents()) && line == old(line)
      ensures idx == old(if idx == ridx then (idx + 1) % RQ_NQS else idx)
      ensures ridx == old(if idx == ridx && NoneAt(line, 1, ridx) then (idx + 1) % RQ_NQS else ridx)
    {
      hide Picks;
      NoneAtIs(line, 1, ridx);
      if idx == ridx {
        idx := (idx + 1) % RQ_NQS;
        if !timeshare.status[ridx] {
          ridx := idx;
        }
      }
    }
  }

  lemma PoppedNames(line0: seq<Item>, ridx0: nat, t: nat, line1: seq<Item>, ridx1: nat)
    requires Popped(line0, ridx0, t, line1, ridx1)
    ensures line0 != [] && t in Names(line0) && Names(line1) == Names(line0) - multiset{t}
  {
    hide Names;
    CameOutNames(line0, ridx0, Everyone(line0), t, line1);
  }

  lemma PlacedNew(t: nat, kind: Class, idx: nat, ridx: nat)
    ensures Placed(Item(t, kind, Place(kind, idx, ridx)))
  {
  }

  lemma Nobody(line: seq<Item>)
    ensures Names(line) == multiset{} <==> line == []
    ensures (forall j :: 0 <= j < |line| ==> line[j].t !in Everyone(line)) <==> line == []
  {
    if line != [] {
      NamesIn(line, line[0].t);
      assert line[0].t in Everyone(line);
    }
  }

  lemma Movers(line: seq<Item>, movable: set<nat>)
    ensures (forall j :: 0 <= j < |line| ==> line[j].t !in movable) <==>
            forall x: nat :: x in Names(line) ==> x !in movable
  {
    hide Names;
    forall x: nat
      ensures x in Names(line) <==> exists k :: 0 <= k < |line| && line[k].t == x
    {
      NamesIn(line, x);
    }
    if j: nat :| j < |line| && line[j].t in movable {
      assert line[j].t in Names(line);
    }
  }

  /** Taking a task of another class leaves the place for removal. */
  lemma Stays(line: seq<Item>, k: nat, ridx: nat)
    requires k < |line| && !line[k].kind.Timeshare?
    ensures AfterPop(line, k, ridx) == ridx
  {
  }

  lemma Moves(queues: seq<seq<nat>>, line: seq<Item>, k: nat, ridx: nat)
    requires k < |line| && line[k].kind.Timeshare? && ridx < RQ_NQS && Holds(queues, Remove(line, k), 1)
    ensures AfterPop(line, k, ridx) ==
            if line[k].slot == ridx && queues[ridx] == [] then (ridx + 1) % RQ_NQS else ridx
  {
    NoneAtIs(Remove(line, k), 1, ridx);
  }

  /** After a first task has come and gone, the place for removal is ahead of the place for adding. */
  lemma FirstGone(line: seq<Item>, t: nat, rest: seq<Item>, ridx: nat)
    requires line == [Item(1, Timeshare(0), 0)] && Popped(line, 0, t, rest, ridx)
    ensures t == 1 && rest == [] && ridx == 1
  {
  }

  lemma OtherGone(line: seq<Item>, t: nat, rest: seq<Item>, ridx: nat)
    requires line == [Item(2, Timeshare(0), 0), Item(3, Timeshare(40), 40)] && Popped(line, 1, t, rest, ridx)
    ensures t == 3
  {
    var k: nat :| Next(line, k, 1, Everyone(line)) && t == line[k].t && rest == Remove(line, k);
    assert line[1].t in Everyone(line);
    assert Rank(line[0], 1) == RQ_NQS + 63 && Rank(line[1], 1) == RQ_NQS + 39;
  }

  /** The one who used less of their time waits for the one who used more, although they came first. */
  method LessWaits() returns (first: Option<nat>, next: Option<nat>)
    ensures first == Some(1) && next == Some(3)
  {
    hide Picks, Holds, Names, Popped;
    var q := new RunQueue();
    q.Push(1, Timeshare(0));
    ghost var line := q.line;
    assert line == [Item(1, Timeshare(0), 0)];
    first := q.PopNext();
    FirstGone(line, first.value, q.line, q.ridx);
    q.Push(2, Timeshare(0));
    q.Push(3, Timeshare(40));
    line := q.line;
    assert line == [Item(2, Timeshare(0), 0), Item(3, Timeshare(40), 40)];
    next := q.PopNext();
    OtherGone(line, next.value, q.line, q.ridx);
  }
}
