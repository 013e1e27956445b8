/**
  The order in which a run queue gives out its tasks, without its queues: the tasks in the order in which they were
  pushed, each with its class and the place it was given, and the rank that decides who comes out next.
  */
module RunOrder {
  const RQ_NQS: nat := 64

  datatype Class = Realtime(priority: nat) | Timeshare(base: nat) | Idle

  datatype Item = Item(t: nat, kind: Class, slot: nat)

  /** Real-time before timeshare before idle. */
  function Lane(kind: Class): nat {
    match kind
    case Realtime(_) => 0
    case Timeshare(_) => 1
    case Idle => 2
  }

  function Capped(n: nat): nat {
    if n < RQ_NQS then n else RQ_NQS - 1
  }

  /** The place that a task gets among those of its class.  Timeshare tasks go round: they are added from `idx` on and
      removed from `ridx` on. */
  function Place(kind: Class, idx: nat, ridx: nat): (slot: nat)
    ensures slot < RQ_NQS
  {
    match kind
    case Realtime(p) => Capped(p)
    case Timeshare(base) =>
      var i := (Capped(base) + idx) % RQ_NQS;
      if ridx != idx && i == ridx then (ridx + RQ_NQS - 1) % RQ_NQS else i
    case Idle => 0
  }

  /** How far place `i` lies from `start`, going up and round. */
  function Dist(start: nat, i: nat): int {
    if i >= start then i - start else i + RQ_NQS - start
  }

  /** The lower the rank the sooner a task comes out; tasks of one rank come out in the order in which they came. */
  function Rank(x: Item, ridx: nat): int {
    Lane(x.kind) * RQ_NQS + Dist(Start(Lane(x.kind), ridx), x.slot)
  }

  /** Item `k` is the next of those with a task in `some`. */
  ghost predicate Next(line: seq<Item>, k: nat, ridx: nat, some: set<nat>) {
    && k < |line| && line[k].t in some
    && forall j :: 0 <= j < |line| && line[j].t in some && j != k ==>
         Rank(line[k], ridx) < Rank(line[j], ridx) || (Rank(line[k], ridx) == Rank(line[j], ridx) && k < j)
  }

  function Remove<T>(s: seq<T>, k: nat): seq<T>
    requires k < |s|
  {
    s[..k] + s[k + 1..]
  }

  /** The tasks of the items. */
  ghost function Names(line: seq<Item>): multiset<nat> {
    if line == [] then multiset{} else Names(line[..|line| - 1]) + multiset{line[|line| - 1].t}
  }

  lemma NoNames(a: seq<Item>)
    ensures Names(a + []) == Names(a) + Names([])
  {
    assert a + [] == a;
  }

  lemma {:induction false} NamesSplit(a: seq<Item>, b: seq<Item>)
    ensures Names(a + b) == Names(a) + Names(b)
  {
    hide Names;
    if b == [] {
      NoNames(a);
    } else {
      var n := |b| - 1;
      NamesSplit(a, b[..n]);
      NamesAdd(b[..n], b[n]);
      NamesAdd(a + b[..n], b[n]);
      assert b == b[..n] + [b[n]] && a + b == (a + b[..n]) + [b[n]];
      Associates(Names(a), Names(b[..n]), multiset{b[n].t});
    }
  }

  lemma NamesAdd(line: seq<Item>, x: Item)
    ensures Names(line + [x]) == Names(line) + multiset{x.t}
  {
    assert (line + [x])[..|line|] == line;
  }

  lemma OneOut(a: multiset<nat>, b: multiset<nat>, t: nat)
    ensures t in (a + multiset{t}) + b && a + b == ((a + multiset{t}) + b) - multiset{t}
  {
  }

  lemma Associates(a: multiset<nat>, b: multiset<nat>, c: multiset<nat>)
    ensures (a + b) + c == a + (b + c)
  {
  }

  lemma NamesRemove(line: seq<Item>, k: nat)
    requires k < |line|
    ensures line[k].t in Names(line) && Names(Remove(line, k)) == Names(line) - multiset{line[k].t}
  {
    hide Names;
    var a, b := line[..k], line[k + 1..];
    assert line == (a + [line[k]]) + b;
    NamesSplit(a, b);
    NamesSplit(a + [line[k]], b);
    NamesAdd(a, line[k]);
    OneOut(Names(a), Names(b), line[k].t);
  }

  lemma {:induction false} NamesIn(line: seq<Item>, t: nat)
    ensures t in Names(line) <==> exists k :: 0 <= k < |line| && line[k].t == t
  {
    if line != [] {
      var n := |line| - 1;
      NamesIn(line[..n], t);
      if k :| 0 <= k < |line| && line[k].t == t {
        if k < n {
          assert line[..n][k].t == t;
        }
      }
      if k :| 0 <= k < n && line[..n][k].t == t {
        assert line[k].t == t;
      }
    }
  }

  // ----- one queue of one class

  predicate Fits(x: Item, lane: nat, slot: nat) {
    Lane(x.kind) == lane && x.slot == slot
  }

  /** The tasks with that class and place, in the order in which they came. */
  ghost function Picks(line: seq<Item>, lane: nat, slot: nat): seq<nat> {
    if line == [] then []
    else
      var n := |line| - 1;
      Picks(line[..n], lane, slot) + if Fits(line[n], lane, slot) then [line[n].t] else []
  }

  lemma PicksAdd(line: seq<Item>, x: Item, lane: nat, slot: nat)
    ensures Picks(line + [x], lane, slot) == Picks(line, lane, slot) + if Fits(x, lane, slot) then [x.t] else []
  {
    assert (line + [x])[..|line|] == line;
  }

  lemma {:induction false} PicksSplit(a: seq<Item>, b: seq<Item>, lane: nat, slot: nat)
    ensures Picks(a + b, lane, slot) == Picks(a, lane, slot) + Picks(b, lane, slot)
  {
    if b == [] {
      assert a + b == a;
    } else {
      var n := |b| - 1;
      PicksSplit(a, b[..n], lane, slot);
      assert (a + b)[..|a + b| - 1] == a + b[..n];
    }
  }

  /** Removing an item takes one task out of its own queue and none out of the others. */
  lemma PicksRemove(line: seq<Item>, k: nat, lane: nat, slot: nat)
    requires k < |line|
    ensures var m, q := |Picks(line[..k], lane, slot)|, Picks(line, lane, slot);
            if Fits(line[k], lane, slot)
            then m < |q| && q[m] == line[k].t && Picks(Remove(line, k), lane, slot) == Remove(q, m)
            else Picks(Remove(line, k), lane, slot) == q
  {
    hide Picks;
    var a, b := line[..k], line[k + 1..];
    assert line == (a + [line[k]]) + b;
    PicksSplit(a, b, lane, slot);
    PicksSplit(a + [line[k]], b, lane, slot);
    PicksAdd(a, line[k], lane, slot);
  }

  /** The item behind place `m` of a queue. */
  lemma {:induction false} Behind(line: seq<Item>, lane: nat, slot: nat, m: nat) returns (k: nat)
    requires m < |Picks(line, lane, slot)|
    ensures k < |line| && Fits(line[k], lane, slot) && line[k].t == Picks(line, lane, slot)[m]
    ensures |Picks(line[..k], lane, slot)| == m
  {
    var n := |line| - 1;
    if m < |Picks(line[..n], lane, slot)| {
      k := Behind(line[..n], lane, slot, m);
      assert line[..n][..k] == line[..k];
    } else {
      k := n;
    }
  }

  /** An item with that class and place stands in that queue, after those of the same kind that came before it. */
  lemma Stands(line: seq<Item>, j: nat, lane: nat, slot: nat)
    requires j < |line| && Fits(line[j], lane, slot)
    ensures var m := |Picks(line[..j], lane, slot)|;
            m < |Picks(line, lane, slot)| && Picks(line, lane, slot)[m] == line[j].t
  {
    PicksRemove(line, j, lane, slot);
  }

  lemma LaterStands(line: seq<Item>, j: nat, k: nat, lane: nat, slot: nat)
    requires j < k <= |line| && Fits(line[j], lane, slot)
    ensures |Picks(line[..j], lane, slot)| < |Picks(line[..k], lane, slot)|
  {
    assert line[..k][..j] == line[..j];
    Stands(line[..k], j, lane, slot);
  }

  // ----- the queues of a class

  /** The queues hold the items of the class, each at its place and in the order in which they came. */
  ghost predicate Holds(queues: seq<seq<nat>>, line: seq<Item>, lane: nat) {
    |queues| == RQ_NQS && forall i: nat :: i < RQ_NQS ==> queues[i] == Picks(line, lane, i)
  }

  lemma HoldsAdd(queues: seq<seq<nat>>, line: seq<Item>, lane: nat, x: Item)
    requires Holds(queues, line, lane) && x.slot < RQ_NQS
    ensures Holds(if Lane(x.kind) == lane then queues[x.slot := queues[x.slot] + [x.t]] else queues, line + [x], lane)
  {
    hide Picks;
    forall i: nat | i < RQ_NQS
      ensures Picks(line + [x], lane, i) == if Fits(x, lane, i) then queues[i] + [x.t] else queues[i]
    {
      PicksAdd(line, x, lane, i);
    }
  }

  lemma HoldsRemove(queues: seq<seq<nat>>, line: seq<Item>, lane: nat, k: nat)
    requires Holds(queues, line, lane) && k < |line| && line[k].slot < RQ_NQS
    ensures var at := line[k].slot;
            var m := |Picks(line[..k], lane, at)|;
            if Lane(line[k].kind) == lane
            then m < |queues[at]| && Holds(queues[at := Remove(queues[at], m)], Remove(line, k), lane)
            else Holds(queues, Remove(line, k), lane)
  {
    hide Picks, Remove;
    forall i: nat | i < RQ_NQS
      ensures var m, q := |Picks(line[..k], lane, i)|, Picks(line, lane, i);
              if Fits(line[k], lane, i)
              then m < |q| && q[m] == line[k].t && Picks(Remove(line, k), lane, i) == Remove(q, m)
              else Picks(Remove(line, k), lane, i) == q
    {
      PicksRemove(line, k, lane, i);
    }
  }

  /** The task at place `k` of the queue is the first that may be taken. */
  predicate FirstOf(queue: seq<nat>, k: nat, some: set<nat>) {
    k < |queue| && queue[k] in some && forall j :: 0 <= j < k ==> queue[j] !in some
  }

  /** Where a search of the queues of a class starts. */
  function Start(lane: nat, ridx: nat): nat {
    if lane == 1 then ridx else 0
  }

  /** No queue of the class that has a task to take lies nearer to the start. */
  ghost predicate Nearest(queues: seq<seq<nat>>, start: nat, at: nat, some: set<nat>) {
    forall i, x :: 0 <= i < |queues| && x in queues[i] && x in some ==> Dist(start, at) <= Dist(start, i)
  }

  /** The first task to take, in the nearest queue of the first class that has one, is the next. */
  lemma NextIs(queues: seq<seq<nat>>, line: seq<Item>, lane: nat, at: nat, m: nat, ridx: nat, some: set<nat>)
    returns (k: nat)
    requires Holds(queues, line, lane) && (forall i :: 0 <= i < |line| ==> Placed(line[i])) && ridx < RQ_NQS
    requires at < RQ_NQS && FirstOf(queues[at], m, some) && Nearest(queues, Start(lane, ridx), at, some)
    requires forall j :: 0 <= j < |line| && line[j].t in some ==> Lane(line[j].kind) >= lane
    ensures Next(line, k, ridx, some) && Fits(line[k], lane, at) && line[k].t == queues[at][m]
    ensures |Picks(line[..k], lane, at)| == m
  {
    hide Picks, Rank, Placed;
    k := Behind(line, lane, at, m);
    forall j: nat | j < |line| && line[j].t in some && j != k
      ensures Rank(line[k], ridx) < Rank(line[j], ridx) || (Rank(line[k], ridx) == Rank(line[j], ridx) && k < j)
    {
      Sooner(queues, line, lane, at, m, ridx, some, k, j);
    }
  }

  lemma Sooner(queues: seq<seq<nat>>, line: seq<Item>, lane: nat, at: nat, m: nat, ridx: nat, some: set<nat>, k: nat,
               j: nat)
    requires Holds(queues, line, lane) && k < |line| && j < |line| && k != j && line[j].t in some
    requires Placed(line[k]) && Placed(line[j]) && ridx < RQ_NQS && Lane(line[j].kind) >= lane
    requires at < RQ_NQS && FirstOf(queues[at], m, some) && Nearest(queues, Start(lane, ridx), at, some)
    requires Fits(line[k], lane, at) && |Picks(line[..k], lane, at)| == m
    ensures Rank(line[k], ridx) < Rank(line[j], ridx) || (Rank(line[k], ridx) == Rank(line[j], ridx) && k < j)
  {
    hide Picks;
    RankSame(line[k], line[j], ridx);
    if Lane(line[j].kind) == lane {
      Stands(line, j, lane, line[j].slot);
      var mine := |Picks(line[..j], lane, line[j].slot)|;
      assert queues[line[j].slot][mine] in queues[line[j].slot];
      if line[j].slot == at && j < k {
        LaterStands(line, j, k, lane, at);
      }
    }
  }

  /** In which class a task can be found. */
  lemma FoundIn(queues: seq<seq<nat>>, line: seq<Item>, lane: nat, some: set<nat>)
    requires Holds(queues, line, lane) && forall i :: 0 <= i < |line| ==> Placed(line[i])
    ensures (forall i, x :: 0 <= i < RQ_NQS && x in queues[i] ==> x !in some) <==>
            forall j :: 0 <= j < |line| && Lane(line[j].kind) == lane ==> line[j].t !in some
  {
    hide Picks;
    if j: nat :| j < |line| && Lane(line[j].kind) == lane && line[j].t in some {
      Stands(line, j, lane, line[j].slot);
      assert line[j].t in queues[line[j].slot];
    }
    if i: nat, x :| i < RQ_NQS && x in queues[i] && x in some {
      var m: nat :| m < |queues[i]| && queues[i][m] == x;
      var k := Behind(line, lane, i, m);
    }
  }

  ghost predicate NoneAt(line: seq<Item>, lane: nat, slot: nat) {
    forall j :: 0 <= j < |line| ==> !Fits(line[j], lane, slot)
  }

  lemma NoneAtIs(line: seq<Item>, lane: nat, slot: nat)
    ensures NoneAt(line, lane, slot) <==> Picks(line, lane, slot) == []
  {
    hide Picks;
    if j: nat :| j < |line| && Fits(line[j], lane, slot) {
      Stands(line, j, lane, slot);
    }
    if Picks(line, lane, slot) != [] {
      var k := Behind(line, lane, slot, 0);
    }
  }

  /** The place for removal once item `k` was popped: it moves on when the last timeshare task there was taken. */
  ghost function AfterPop(line: seq<Item>, k: nat, ridx: nat): nat
    requires k < |line|
  {
    if Fits(line[k], 1, ridx) && NoneAt(Remove(line, k), 1, ridx) then (ridx + 1) % RQ_NQS else ridx
  }

  /** All tasks of the line. */
  ghost function Everyone(line: seq<Item>): set<nat> {
    set k | 0 <= k < |line| :: line[k].t
  }

  /** The next of the tasks in `some` came out, and the rest stays in its order. */
  ghost predicate CameOut(line0: seq<Item>, ridx: nat, some: set<nat>, t: nat, line1: seq<Item>) {
    exists k: nat :: Next(line0, k, ridx, some) && t == line0[k].t && line1 == Remove(line0, k)
  }

  /** The next of all tasks came out, and the place for removal moved on if it was the last there. */
  ghost predicate Popped(line0: seq<Item>, ridx0: nat, t: nat, line1: seq<Item>, ridx1: nat) {
    exists k: nat ::
      && Next(line0, k, ridx0, Everyone(line0)) && t == line0[k].t && line1 == Remove(line0, k)
      && ridx1 == AfterPop(line0, k, ridx0)
  }

  lemma CameOutNames(line0: seq<Item>, ridx: nat, some: set<nat>, t: nat, line1: seq<Item>)
    requires CameOut(line0, ridx, some, t, line1)
    ensures t in some && t in Names(line0) && Names(line1) == Names(line0) - multiset{t}
  {
    hide Names;
    var k: nat :| Next(line0, k, ridx, some) && t == line0[k].t && line1 == Remove(line0, k);
    NamesRemove(line0, k);
  }

  // ----- what the rank means

  predicate Placed(x: Item) {
    && x.slot < RQ_NQS && (x.kind.Realtime? ==> x.slot == Capped(x.kind.priority)) && (x.kind.Idle? ==> x.slot == 0)
  }

  lemma RankSame(x: Item, y: Item, ridx: nat)
    requires Placed(x) && Placed(y) && ridx < RQ_NQS
    ensures Rank(x, ridx) == Rank(y, ridx) <==> Fits(x, Lane(y.kind), y.slot)
    ensures Lane(x.kind) < Lane(y.kind) ==> Rank(x, ridx) < Rank(y, ridx)
  {
  }

  /** Who comes out: a timeshare task only if no real-time task could, an idle one only if all are idle; among
      real-time tasks one of least priority, and of these the one that came first. */
  lemma NextMeans(line: seq<Item>, k: nat, ridx: nat, some: set<nat>, j: nat)
    requires Next(line, k, ridx, some) && (forall i :: 0 <= i < |line| ==> Placed(line[i])) && ridx < RQ_NQS
    requires j < |line| && line[j].t in some
    ensures Lane(line[k].kind) <= Lane(line[j].kind)
    ensures line[k].kind.Realtime? && line[j].kind.Realtime? ==>
              Capped(line[k].kind.priority) <= Capped(line[j].kind.priority)
    ensures line[k].kind.Realtime? && line[j].kind.Realtime? ==>
              Capped(line[k].kind.priority) == Capped(line[j].kind.priority) ==> k <= j
    ensures line[k].kind.Idle? && line[j].kind.Idle? ==> k <= j
  {
    if j != k {
      RankSame(line[k], line[j], ridx);
      RankSame(line[j], line[k], ridx);
    }
  }

  /** The place for removal only moves past places where no task waits, so of two tasks that wait neither overtakes
      the other. */
  lemma NoOvertaking(line: seq<Item>, ridx: nat, j: nat, k: nat)
    requires (forall i :: 0 <= i < |line| ==> Placed(line[i])) && ridx < RQ_NQS && NoneAt(line, 1, ridx)
    requires j < |line| && k < |line|
    ensures Rank(line[j], ridx) < Rank(line[k], ridx) <==>
            Rank(line[j], (ridx + 1) % RQ_NQS) < Rank(line[k], (ridx + 1) % RQ_NQS)
  {
    assert !Fits(line[j], 1, ridx) && !Fits(line[k], 1, ridx);
  }

  // ----- timeshare tasks

  /** How far a task that is pushed now lies from the next to be removed. */
  function Away(base: nat, idx: nat, ridx: nat): int {
    Dist(ridx, Place(Timeshare(base), idx, ridx))
  }

  /** How far adding is ahead of removing. */
  function Ahead(idx: nat, ridx: nat): int {
    Dist(ridx, idx)
  }

  lemma AwayIs(base: nat, idx: nat, ridx: nat)
    requires idx < RQ_NQS && ridx < RQ_NQS
    ensures var d := Capped(base) + Ahead(idx, ridx);
            Away(base, idx, ridx) == if idx == ridx || d < RQ_NQS then d
                                     else if d == RQ_NQS then RQ_NQS - 1 else d - RQ_NQS
  {
  }

  /** The task that used less of its time comes out first, whatever the two are, exactly when adding is at most one
      place ahead. */
  lemma LessFirstIff(idx: nat, ridx: nat)
    requires idx < RQ_NQS && ridx < RQ_NQS
    ensures (forall a: nat, b: nat :: a <= b ==> Away(a, idx, ridx) <= Away(b, idx, ridx)) <==> Ahead(idx, ridx) <= 1
  {
    forall a: nat, b: nat | a <= b && Ahead(idx, ridx) <= 1
      ensures Away(a, idx, ridx) <= Away(b, idx, ridx)
    {
      AwayIs(a, idx, ridx);
      AwayIs(b, idx, ridx);
    }
    if Ahead(idx, ridx) > 1 {
      var b := RQ_NQS + 1 - Ahead(idx, ridx);
      AwayIs(0, idx, ridx);
      AwayIs(b, idx, ridx);
      assert Away(0, idx, ridx) > Away(b, idx, ridx);
    }
  }
}
