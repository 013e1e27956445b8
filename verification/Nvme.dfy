/**
  An NVMe I/O queue pair (`drivers/block/nvme/src/queue.rs`) and a well-behaved controller.  Every critical
  section of the driver and every step of the controller is a method, so what all of them keep holds in
  every interleaving.  The phase tag and the ring positions follow sections 4.1.2 and 4.6 of NVM Express 1.4.
  */
module Nvme {
  import opened Common
  import Arith

  /** An entry of the completion ring. */
  datatype Completion = Completion(cid: nat, ok: bool, phase: nat)

  /** A command as it was queued: its id and the request it belongs to. */
  datatype Command = Command(cid: nat, bio: nat)

  /** A completion as the controller posted it; `command` counts the commands queued before it. */
  datatype Posting = Posting(cid: nat, ok: bool, command: nat)

  /** Where a command id is at the moment. */
  datatype Place = Free | Held | Ready | Queued(at: nat) | Fetched(command: nat) | Posted(at: nat)

  // ----- ring positions and the phase tag

  /** The phase tag of the completion at position `j`, counted from the start. */
  function PhaseOf(j: nat, depth: nat): nat
    requires depth > 0
  {
    if j / depth % 2 == 0 then 1 else 0
  }

  /** One step ahead: the position wraps and the phase turns together. */
  lemma StepAhead(j: nat, d: nat)
    requires d > 0
    ensures (j + 1) % d == if j % d + 1 == d then 0 else j % d + 1
    ensures PhaseOf(j + 1, d) == if j % d + 1 == d then 1 - PhaseOf(j, d) else PhaseOf(j, d)
  {
    var q, r := j / d, j % d;
    assert j == q * d + r;
    if r + 1 == d {
      assert j + 1 == (q + 1) * d + 0;
      Arith.DivModUnique(q + 1, d, 0);
    } else {
      Arith.DivModUnique(q, d, r + 1);
    }
  }

  /** One round ahead: the same position, the other phase. */
  lemma RoundAhead(j: nat, d: nat)
    requires d > 0
    ensures (j + d) % d == j % d && PhaseOf(j + d, d) == 1 - PhaseOf(j, d)
  {
    var q, r := j / d, j % d;
    assert j + d == (q + 1) * d + r;
    Arith.DivModUnique(q + 1, d, r);
  }

  predicate SqRing(sq: seq<nat>, depth: nat, log: seq<Command>, from: nat)
    requires depth > 0
  {
    |sq| == depth && forall j :: from <= j < |log| ==> sq[j % depth] == log[j].cid
  }

  /** The last round of the completion ring, and the untouched rest of the first round. */
  predicate CqRing(cq: seq<Completion>, depth: nat, log: seq<Posting>)
    requires depth > 0
  {
    && |cq| == depth
    && (forall j :: 0 <= j < |log| && |log| - depth <= j ==>
        cq[j % depth] == Completion(log[j].cid, log[j].ok, PhaseOf(j, depth)))
    && (forall i :: |log| <= i < depth ==> cq[i].phase == 0)
  }

  lemma SqPut(sq: seq<nat>, depth: nat, log: seq<Command>, from: nat, c: Command)
    requires depth > 0 && SqRing(sq, depth, log, from) && from <= |log| < from + depth
    ensures SqRing(sq[|log| % depth := c.cid], depth, log + [c], from)
  {
    forall j | from <= j < |log|
      ensures j % depth != |log| % depth
    {
      Arith.ModApart(j, |log|, depth);
    }
  }

  lemma CqPut(cq: seq<Completion>, depth: nat, log: seq<Posting>, e: Posting)
    requires depth > 0 && CqRing(cq, depth, log)
    ensures CqRing(cq[|log| % depth := Completion(e.cid, e.ok, PhaseOf(|log|, depth))], depth, log + [e])
  {
    forall j | 0 <= j < |log| && |log| + 1 - depth <= j
      ensures j % depth != |log| % depth
    {
      Arith.ModApart(j, |log|, depth);
    }
    if |log| < depth {
      Arith.DivModUnique(0, depth, |log|);
    }
  }

  /** The phase test at the head tells exactly whether a completion is waiting there, in every round. */
  lemma PhaseTest(cq: seq<Completion>, depth: nat, log: seq<Posting>, head: nat)
    requires depth > 0 && CqRing(cq, depth, log) && head <= |log| < head + depth
    ensures cq[head % depth].phase == PhaseOf(head, depth) <==> head < |log|
    ensures head < |log| ==> cq[head % depth] == Completion(log[head].cid, log[head].ok, PhaseOf(head, depth))
  {
    if head == |log| {
      if head < depth {
        Arith.DivModUnique(0, depth, head);
      } else {
        RoundAhead(head - depth, depth);
        assert cq[(head - depth) % depth].phase == PhaseOf(head - depth, depth);
      }
    }
  }

  // ----- command ids and history

  /** The ids, the slots, and everything that was queued, answered and reported so far. */
  datatype Ledger = Ledger(n: nat, place: seq<Place>, slots: seq<Option<nat>>, free: seq<nat>, sqLog: seq<Command>,
                           fetched: nat, cqLog: seq<Posting>, drained: nat, done: seq<(nat, bool)>)

  /** What a place says about the logs, and that the slot of an id is taken exactly while a request uses it
      and holds that request. */
  predicate PlaceOk(l: Ledger, c: nat, p: Place, slot: Option<nat>) {
    match p
    case Free => slot == None
    case Held => slot == None
    case Ready => slot.Some?
    case Queued(at) => l.fetched <= at < |l.sqLog| && l.sqLog[at].cid == c && slot == Some(l.sqLog[at].bio)
    case Fetched(k) => k < l.fetched && k < |l.sqLog| && l.sqLog[k].cid == c && slot == Some(l.sqLog[k].bio)
    case Posted(at) =>
      && l.drained <= at < |l.cqLog| && l.cqLog[at].cid == c
      && l.cqLog[at].command < |l.sqLog| && slot == Some(l.sqLog[l.cqLog[at].command].bio)
  }

  ghost predicate PlacesOk(l: Ledger) {
    |l.place| == |l.slots| == l.n && forall c :: 0 <= c < l.n ==> PlaceOk(l, c, l.place[c], l.slots[c])
  }

  /** The free stack holds the free ids, each once. */
  ghost predicate FreeOk(l: Ledger) {
    && |l.place| == l.n
    && (forall i :: 0 <= i < |l.free| ==> l.free[i] < l.n && l.place[l.free[i]] == Free)
    && (forall i, j :: 0 <= i < j < |l.free| ==> l.free[i] != l.free[j])
    && (forall c :: 0 <= c < l.n && l.place[c] == Free ==> c in l.free)
  }

  /** Every command that waits to be fetched, and every completion that waits to be drained, has its id to
      itself. */
  ghost predicate LogsOk(l: Ledger) {
    && |l.place| == l.n && l.fetched <= |l.sqLog| && l.drained <= |l.cqLog|
    && (forall j :: l.fetched <= j < |l.sqLog| ==> l.sqLog[j].cid < l.n && l.place[l.sqLog[j].cid] == Queued(j))
    && (forall k :: l.drained <= k < |l.cqLog| ==> l.cqLog[k].cid < l.n && l.place[l.cqLog[k].cid] == Posted(k))
  }

  /** Completions answer fetched commands under their own ids and each at most once; what the requests were
      told is what was answered, in order; a fetched command is answered or still with the controller. */
  ghost predicate HistoryOk(l: Ledger) {
    && l.fetched <= |l.sqLog| && |l.done| == l.drained <= |l.cqLog|
    && (forall k :: 0 <= k < |l.cqLog| ==>
        l.cqLog[k].command < l.fetched && l.sqLog[l.cqLog[k].command].cid == l.cqLog[k].cid)
    && (forall k, m :: 0 <= k < m < |l.cqLog| ==> l.cqLog[k].command != l.cqLog[m].command)
    && (forall k :: 0 <= k < l.drained ==> l.done[k] == (l.sqLog[l.cqLog[k].command].bio, l.cqLog[k].ok))
    && (forall j :: 0 <= j < l.fetched ==> (Answered(l, j) <==> !WithController(l, j)))
  }

  ghost predicate Answered(l: Ledger, j: nat) {
    exists k :: 0 <= k < |l.cqLog| && l.cqLog[k].command == j
  }

  predicate WithController(l: Ledger, j: nat) {
    j < |l.sqLog| && l.sqLog[j].cid < |l.place| && l.place[l.sqLog[j].cid] == Fetched(j)
  }

  ghost predicate LedgerOk(l: Ledger) {
    PlacesOk(l) && FreeOk(l) && LogsOk(l) && HistoryOk(l)
  }

  function Move(l: Ledger, c: nat, p: Place, slot: Option<nat>): Ledger
    requires c < |l.place| && c < |l.slots|
  {
    l.(place := l.place[c := p], slots := l.slots[c := slot])
  }

  /** Moves between places that the logs do not speak of. */
  lemma MoveKeeps(l: Ledger, c: nat, p: Place, slot: Option<nat>, free: seq<nat>)
    requires LedgerOk(l) && c < l.n && (l.place[c] == Free || l.place[c] == Held || l.place[c] == Ready)
    requires p == Free || p == Held || p == Ready
    requires p == Ready <==> slot.Some?
    requires FreeOk(Move(l, c, p, slot).(free := free))
    ensures LedgerOk(Move(l, c, p, slot).(free := free))
  {
    hide FreeOk;
    var m := Move(l, c, p, slot).(free := free);
    forall j | 0 <= j < l.fetched
      ensures Answered(m, j) <==> !WithController(m, j)
    {
      assert Answered(m, j) <==> Answered(l, j);
    }
  }

  lemma FreeTop(l: Ledger)
    requires FreeOk(l) && l.free != [] && |l.slots| == l.n
    ensures l.free[|l.free| - 1] < l.n
    ensures FreeOk(Move(l, l.free[|l.free| - 1], Held, None).(free := l.free[..|l.free| - 1]))
  {
  }

  lemma AcquireKeeps(l: Ledger)
    requires LedgerOk(l)
    ensures |l.place| == l.n && (l.free == [] ==> forall c :: 0 <= c < l.n ==> l.place[c] != Free)
    ensures l.free != [] ==>
              var c := l.free[|l.free| - 1];
              && c < l.n && l.place[c] == Free
              && LedgerOk(l.(place := l.place[c := Held], free := l.free[..|l.free| - 1]))
  {
    if l.free != [] {
      var c := l.free[|l.free| - 1];
      FreeTop(l);
      assert PlaceOk(l, c, l.place[c], l.slots[c]);
      assert l.slots[c := None] == l.slots;
      MoveKeeps(l, c, Held, None, l.free[..|l.free| - 1]);
    }
  }

  lemma FreePush(l: Ledger, c: nat)
    requires FreeOk(l) && c < l.n && l.place[c] != Free && |l.slots| == l.n
    ensures FreeOk(Move(l, c, Free, None).(free := l.free + [c]))
  {
  }

  lemma FreeKept(l: Ledger, c: nat, p: Place, slot: Option<nat>)
    requires FreeOk(l) && c < l.n && l.place[c] != Free && p != Free && |l.slots| == l.n
    ensures FreeOk(Move(l, c, p, slot))
  {
  }

  // what the steps do

  function Queue(l: Ledger, c: nat, bio: nat): Ledger
    requires c < |l.place|
  {
    l.(place := l.place[c := Queued(|l.sqLog|)], sqLog := l.sqLog + [Command(c, bio)])
  }

  lemma QueueKeeps(l: Ledger, c: nat, bio: nat)
    requires LedgerOk(l) && c < l.n && l.place[c] == Ready && l.slots[c] == Some(bio)
    ensures LedgerOk(Queue(l, c, bio))
  {
    var m := Queue(l, c, bio);
    assert PlacesOk(m);
    assert FreeOk(m) by { FreeKept(l, c, Queued(|l.sqLog|), l.slots[c]); }
    assert LogsOk(m);
    forall j | 0 <= j < l.fetched
      ensures Answered(m, j) <==> !WithController(m, j)
    {
      assert Answered(m, j) <==> Answered(l, j);
    }
  }

  function TakeCommand(l: Ledger): Ledger
    requires l.fetched < |l.sqLog| && l.sqLog[l.fetched].cid < |l.place|
  {
    l.(place := l.place[l.sqLog[l.fetched].cid := Fetched(l.fetched)], fetched := l.fetched + 1)
  }

  lemma TakeCommandKeeps(l: Ledger)
    requires LedgerOk(l) && l.fetched < |l.sqLog|
    ensures l.sqLog[l.fetched].cid < l.n && l.place[l.sqLog[l.fetched].cid] == Queued(l.fetched)
    ensures LedgerOk(TakeCommand(l))
  {
    var m, c := TakeCommand(l), l.sqLog[l.fetched].cid;
    assert PlacesOk(m);
    assert FreeOk(m) by { FreeKept(l, c, Fetched(l.fetched), l.slots[c]); }
    assert LogsOk(m);
    TakeCommandHistory(l);
  }

  lemma TakeCommandHistory(l: Ledger)
    requires LogsOk(l) && HistoryOk(l) && l.fetched < |l.sqLog|
    ensures l.sqLog[l.fetched].cid < l.n && HistoryOk(TakeCommand(l))
  {
    var m := TakeCommand(l);
    forall j | 0 <= j < m.fetched
      ensures Answered(m, j) <==> !WithController(m, j)
    {
      assert Answered(m, j) <==> Answered(l, j);
    }
  }

  function Post(l: Ledger, c: nat, ok: bool): Ledger
    requires c < |l.place| && l.place[c].Fetched?
  {
    l.(place := l.place[c := Posted(|l.cqLog|)], cqLog := l.cqLog + [Posting(c, ok, l.place[c].command)])
  }

  lemma PostKeeps(l: Ledger, c: nat, ok: bool)
    requires LedgerOk(l) && c < l.n && l.place[c].Fetched?
    ensures LedgerOk(Post(l, c, ok))
  {
    var m := Post(l, c, ok);
    assert PlacesOk(m);
    assert FreeOk(m) by { FreeKept(l, c, Posted(|l.cqLog|), l.slots[c]); }
    assert LogsOk(m);
    PostHistory(l, c, ok);
  }

  lemma PostHistory(l: Ledger, c: nat, ok: bool)
    requires PlacesOk(l) && LogsOk(l) && HistoryOk(l) && c < l.n && l.place[c].Fetched?
    ensures HistoryOk(Post(l, c, ok))
  {
    hide FreeOk;
    var m, j0 := Post(l, c, ok), l.place[c].command;
    assert PlaceOk(l, c, l.place[c], l.slots[c]);
    assert WithController(l, j0);
    forall k | 0 <= k < |l.cqLog|
      ensures l.cqLog[k].command != j0
    {
      assert l.cqLog[k].command == j0 ==> Answered(l, j0);
    }
    forall j | 0 <= j < m.fetched
      ensures Answered(m, j) <==> !WithController(m, j)
    {
      AnsweredNext(l, m, Posting(c, ok, j0), j);
    }
  }

  lemma AnsweredNext(l: Ledger, m: Ledger, e: Posting, j: nat)
    requires m.cqLog == l.cqLog + [e]
    ensures Answered(m, j) <==> Answered(l, j) || e.command == j
  {
    if Answered(l, j) {
      var k :| 0 <= k < |l.cqLog| && l.cqLog[k].command == j;
      assert m.cqLog[k].command == j;
    }
    if e.command == j {
      assert m.cqLog[|l.cqLog|].command == j;
    }
  }

  function Report(l: Ledger): Ledger
    requires l.drained < |l.cqLog| && l.cqLog[l.drained].cid < |l.place| && l.cqLog[l.drained].cid < |l.slots|
    requires l.cqLog[l.drained].command < |l.sqLog|
  {
    var e := l.cqLog[l.drained];
    Move(l, e.cid, Free, None).(free := l.free + [e.cid], drained := l.drained + 1,
                                done := l.done + [(l.sqLog[e.command].bio, e.ok)])
  }

  lemma ReportKeeps(l: Ledger)
    requires LedgerOk(l) && l.drained < |l.cqLog|
    ensures var e := l.cqLog[l.drained];
            && e.cid < l.n && l.place[e.cid] == Posted(l.drained) && e.command < |l.sqLog|
                && |l.place| == |l.slots| == l.n
            && l.slots[e.cid] == Some(l.sqLog[e.command].bio) && LedgerOk(Report(l))
  {
    var e := l.cqLog[l.drained];
    assert PlaceOk(l, e.cid, l.place[e.cid], l.slots[e.cid]);
    var m := Report(l);
    assert FreeOk(m) by { FreePush(l, e.cid); }
    ReportPlaces(l);
    assert LogsOk(m);
    ReportHistory(l);
  }

  lemma ReportIs(l: Ledger, cid: nat, ok: bool) returns (bio: nat)
    requires LedgerOk(l) && l.drained < |l.cqLog| && cid == l.cqLog[l.drained].cid && ok == l.cqLog[l.drained].ok
    ensures cid < |l.slots| && cid < |l.place| && l.slots[cid] == Some(bio)
    ensures l.cqLog[l.drained].command < |l.sqLog| && bio == l.sqLog[l.cqLog[l.drained].command].bio
    ensures LedgerOk(Ledger(l.n, l.place[cid := Free], l.slots[cid := None], l.free + [cid], l.sqLog,
                            l.fetched, l.cqLog, l.drained + 1, l.done + [(bio, ok)]))
  {
    hide LedgerOk;
    ReportKeeps(l);
    bio := l.slots[cid].value;
  }

  lemma ReportHistory(l: Ledger)
    requires LogsOk(l) && HistoryOk(l) && l.drained < |l.cqLog| && |l.slots| == l.n
    ensures l.cqLog[l.drained].cid < l.n && HistoryOk(Report(l))
  {
    var m := Report(l);
    forall j | 0 <= j < l.fetched
      ensures Answered(m, j) <==> !WithController(m, j)
    {
      assert Answered(m, j) <==> Answered(l, j);
    }
  }

  lemma ReportPlaces(l: Ledger)
    requires PlacesOk(l) && LogsOk(l) && HistoryOk(l) && l.drained < |l.cqLog|
    ensures l.cqLog[l.drained].cid < l.n && PlacesOk(Report(l))
  {
    hide HistoryOk;
    CommandIn(l);
  }

  lemma CommandIn(l: Ledger)
    requires HistoryOk(l) && l.drained < |l.cqLog|
    ensures l.cqLog[l.drained].command < |l.sqLog|
  {
  }

  // ----- the bound on outstanding commands

  /** Commands that wait to be fetched have different ids, so the submission ring cannot overrun: it has one
      entry more than there are ids. */
  lemma FewQueued(l: Ledger)
    requires LogsOk(l)
    ensures |l.sqLog| - l.fetched <= l.n
    ensures forall c :: 0 <= c < l.n && !l.place[c].Queued? ==> |l.sqLog| - l.fetched < l.n
  {
    var s: seq<nat> :=
        seq(|l.sqLog| - l.fetched, i requires 0 <= i < |l.sqLog| - l.fetched => l.sqLog[l.fetched + i].cid);
    forall i | 0 <= i < |s|
      ensures s[i] < l.n && l.place[s[i]] == Queued(l.fetched + i)
    {
    }
    Arith.Pigeons(s, l.n);
    forall c | 0 <= c < l.n && !l.place[c].Queued?
      ensures |s| < l.n
    {
      Arith.Pigeons(s + [c], l.n);
    }
  }

  /** Likewise for completions that wait to be drained. */
  lemma FewPosted(l: Ledger)
    requires LogsOk(l)
    ensures |l.cqLog| - l.drained <= l.n
    ensures forall c :: 0 <= c < l.n && !l.place[c].Posted? ==> |l.cqLog| - l.drained < l.n
  {
    var s: seq<nat> :=
        seq(|l.cqLog| - l.drained, i requires 0 <= i < |l.cqLog| - l.drained => l.cqLog[l.drained + i].cid);
    forall i | 0 <= i < |s|
      ensures s[i] < l.n && l.place[s[i]] == Posted(l.drained + i)
    {
    }
    Arith.Pigeons(s, l.n);
    forall c | 0 <= c < l.n && !l.place[c].Posted?
      ensures |s| < l.n
    {
      Arith.Pigeons(s + [c], l.n);
    }
  }

  /** Once the controller has answered all it was given and the driver has drained all answers, every command
      ever queued has been reported to its request exactly once. */
  lemma AllReportedOnce(l: Ledger)
    requires LedgerOk(l) && l.fetched == |l.sqLog| && l.drained == |l.cqLog| && forall c :: 0 <= c < l.n ==>
              !l.place[c].Fetched?
    ensures |l.done| == |l.sqLog|
    ensures forall k :: 0 <= k < |l.done| ==>
              l.cqLog[k].command < |l.sqLog| && l.done[k].0 == l.sqLog[l.cqLog[k].command].bio
    ensures forall k, m :: 0 <= k < m < |l.done| ==> l.cqLog[k].command != l.cqLog[m].command
  {
    var s: seq<nat> := seq(|l.cqLog|, k requires 0 <= k < |l.cqLog| => l.cqLog[k].command);
    Arith.Distinct(s);
    var u := Arith.Below(|l.sqLog|);
    forall j: nat | j in u
      ensures j in s
    {
      assert Answered(l, j) <==> !WithController(l, j);
      var k :| 0 <= k < |l.cqLog| && l.cqLog[k].command == j;
      assert s[k] == j;
    }
    assert Arith.Elements(s) == u;
  }

  lemma Bounds(l: Ledger)
    requires LedgerOk(l)
    ensures |l.place| == |l.slots| == l.n && l.fetched <= |l.sqLog| <= l.fetched + l.n
              && l.drained <= |l.cqLog| <= l.drained + l.n
    ensures forall c :: 0 <= c < l.n && l.place[c] == Ready ==> l.slots[c].Some? && |l.sqLog| - l.fetched < l.n
    ensures forall c :: 0 <= c < l.n && l.place[c].Fetched? ==> |l.cqLog| - l.drained < l.n
  {
    FewQueued(l);
    FewPosted(l);
    hide FreeOk, LogsOk, HistoryOk;
    forall c | 0 <= c < l.n && l.place[c] == Ready
      ensures l.slots[c].Some?
    {
      assert PlaceOk(l, c, l.place[c], l.slots[c]);
    }
  }

  // ----- the queue pair

  class IoQueue {
    const depth: nat
    // the driver
    var slots: seq<Option<nat>>
    var free: seq<nat>
    var tail: nat
    var head: nat
    var phase: nat
    // shared memory and the doorbell
    var sq: seq<nat>
    var cq: seq<Completion>
    var tailDoorbell: nat
    // the controller
    var sqHead: nat
    var cqTail: nat
    var devicePhase: nat
    // history
    ghost var place: seq<Place>
    ghost var sqLog: seq<Command>
    ghost var fetched: nat
    ghost var cqLog: seq<Posting>
    ghost var drained: nat
    ghost var done: seq<(nat, bool)>

    ghost function L(): Ledger
      reads this`place, this`slots, this`free, this`sqLog, this`fetched, this`cqLog, this`drained, this`done
    {
      Ledger(if depth == 0 then 0 else depth - 1, place, slots, free, sqLog, fetched, cqLog, drained, done)
    }

    ghost predicate Submission()
      reads this`sq, this`tail, this`tailDoorbell, this`sqHead, this`sqLog, this`fetched
    {
      && depth >= 2 && SqRing(sq, depth, sqLog, fetched)
      && tail == tailDoorbell == |sqLog| % depth && sqHead == fetched % depth
    }

    ghost predicate Completions()
      reads this`cq, this`head, this`phase, this`cqTail, this`devicePhase, this`cqLog, this`drained
    {
      && depth >= 2 && CqRing(cq, depth, cqLog)
      && cqTail == |cqLog| % depth && devicePhase == PhaseOf(|cqLog|, depth)
      && head == drained % depth && phase == PhaseOf(drained, depth)
    }

    ghost predicate Valid()
      reads this
    {
      Submission() && Completions() && LedgerOk(L())
    }

    constructor (depth: nat)
      requires depth >= 2
      ensures Valid() && this.depth == depth && sqLog == [] && done == []
    {
      this.depth := depth;
      slots := seq(depth - 1, _ => None);
      free := Countdown(depth - 1);
      tail, head, phase := 0, 0, 1;
      sq, cq := seq(depth, _ => 0), seq(depth, _ => Completion(0, false, 0));
      tailDoorbell, sqHead, cqTail, devicePhase := 0, 0, 0, 1;
      place, sqLog, fetched, cqLog, drained, done := seq(depth - 1, _ => Free), [], 0, [], 0, [];
      new;
      Arith.DivModUnique(0, depth, 0);
      forall c | 0 <= c < depth - 1
        ensures place[c] == Free ==> c in free
      {
        CountsAll(depth - 1, c);
      }
      assert LedgerOk(L());
    }

    /** One try of `acquire_slot`. */
    method Acquire() returns (cid: Option<nat>)
      requires Valid()
      modifies this`free, this`place
      ensures Valid()
      ensures cid == None <==> forall c :: 0 <= c < depth - 1 ==> old(place)[c] != Free
      ensures cid == None ==> free == old(free) && place == old(place)
      ensures cid.Some? ==>
                cid.value < depth - 1 && old(place)[cid.value] == Free && place == old(place)[cid.value := Held]
    {
      hide Submission, Completions, LedgerOk;
      AcquireKeeps(L());
      if free == [] {
        return None;
      }
      cid := Some(free[|free| - 1]);
      free := free[..|free| - 1];
      place := place[cid.value := Held];
    }

    /** `submit` fills the slot of the id it holds. */
    method Fill(cid: nat, bio: nat)
      requires Valid() && cid < depth - 1 && place[cid] == Held
      modifies this`slots, this`place
      ensures Valid() && place == old(place)[cid := Ready] && slots == old(slots)[cid := Some(bio)]
    {
      FreeKept(L(), cid, Ready, Some(bio));
      MoveKeeps(L(), cid, Ready, Some(bio), free);
      slots := slots[cid := Some(bio)];
      place := place[cid := Ready];
    }

    /** `submit` could not write the command: the slot is emptied and the id given back. */
    method Abort(cid: nat) returns (bio: nat)
      requires Valid() && cid < depth - 1 && place[cid] == Ready
      modifies this`slots, this`place, this`free
      ensures Valid() && place == old(place)[cid := Free] && Some(bio) == old(slots)[cid]
    {
      assert PlaceOk(L(), cid, place[cid], slots[cid]);
      FreePush(L(), cid);
      MoveKeeps(L(), cid, Free, None, free + [cid]);
      bio := slots[cid].value;
      slots := slots[cid := None];
      free := free + [cid];
      place := place[cid := Free];
    }

    /** `write_sqe`: no command that waits to be fetched is overwritten, and the controller can tell the
        full ring from the empty one. */
    method WriteSqe(cid: nat)
      requires Valid() && cid < depth - 1 && place[cid] == Ready
      modifies this`sq, this`tail, this`tailDoorbell, this`sqLog, this`place
      ensures Valid() && place == old(place)[cid := Queued(|old(sqLog)|)]
      ensures slots[cid].Some? && sqLog == old(sqLog) + [Command(cid, slots[cid].value)]
      ensures |sqLog| - fetched < depth && tail != sqHead
    {
      hide SqRing, CqRing, LedgerOk, PhaseOf, PlaceOk;
      Bounds(L());
      QueueKeeps(L(), cid, slots[cid].value);
      SqPut(sq, depth, sqLog, fetched, Command(cid, slots[cid].value));
      RingSize(sq, depth, sqLog, fetched);
      StepAhead(|sqLog|, depth);
      Arith.ModApart(fetched, |sqLog| + 1, depth);
      sq := sq[tail := cid];
      tail := tail + 1;
      if tail == depth {
        tail := 0;
      }
      tailDoorbell := tail;
      place := place[cid := Queued(|sqLog|)];
      sqLog := sqLog + [Command(cid, slots[cid].value)];
    }

    /** The controller takes the next command, if the doorbell says there is one. */
    method DeviceFetch() returns (cid: Option<nat>)
      requires Valid()
      modifies this`sqHead, this`fetched, this`place
      ensures Valid()
      ensures cid.Some? <==> old(fetched) < |sqLog|
      ensures cid == None ==> sqHead == old(sqHead) && fetched == old(fetched) && place == old(place)
      ensures cid.Some? ==> fetched == old(fetched) + 1 && cid.value == sqLog[old(fetched)].cid
    {
      hide CqRing, LedgerOk, PhaseOf, PlaceOk;
      Bounds(L());
      if fetched < |sqLog| {
        Arith.ModApart(fetched, |sqLog|, depth);
        TakeCommandKeeps(L());
      }
      if sqHead == tailDoorbell {
        return None;
      }
      cid := Some(sq[sqHead]);
      StepAhead(fetched, depth);
      sqHead := sqHead + 1;
      if sqHead == depth {
        sqHead := 0;
      }
      place := place[cid.value := Fetched(fetched)];
      fetched := fetched + 1;
    }

    /** The controller answers a command it has fetched.  No completion that waits to be drained is
        overwritten. */
    method DevicePost(cid: nat, ok: bool)
      requires Valid() && cid < depth - 1 && place[cid].Fetched?
      modifies this`cq, this`cqTail, this`devicePhase, this`cqLog, this`place
      ensures Valid() && |cqLog| - drained < depth
      ensures cqLog == old(cqLog) + [Posting(cid, ok, old(place)[cid].command)]
                && place == old(place)[cid := Posted(|old(cqLog)|)]
    {
      hide SqRing, CqRing, LedgerOk, PhaseOf, PlaceOk;
      Bounds(L());
      PostKeeps(L(), cid, ok);
      ghost var e := Posting(cid, ok, place[cid].command);
      CqPut(cq, depth, cqLog, e);
      CqSize(cq, depth, cqLog);
      StepAhead(|cqLog|, depth);
      cq := cq[cqTail := Completion(cid, ok, devicePhase)];
      cqTail := cqTail + 1;
      if cqTail == depth {
        cqTail := 0;
        devicePhase := FlipPhase(devicePhase);
      }
      place := place[cid := Posted(|cqLog|)];
      cqLog := cqLog + [e];
    }

    /** One turn of the loop in `drain`: it consumes the oldest waiting completion, if the phase tag shows
        one, and tells the request that the command was queued for. */
    method DrainOne() returns (told: Option<(nat, bool)>)
      requires Valid()
      modifies this`head, this`phase, this`slots, this`free, this`drained, this`place, this`done
      ensures Valid()
      ensures told.Some? <==> old(drained) < |cqLog|
      ensures told == None ==> done == old(done) && drained == old(drained) && place == old(place)
      ensures told.Some? ==> drained == old(drained) + 1 && done == old(done) + [told.value]
      ensures told.Some? ==>
                cqLog[old(drained)].command < |sqLog|
                    && told.value == (sqLog[cqLog[old(drained)].command].bio, cqLog[old(drained)].ok)
    {
      hide SqRing, CqRing, LedgerOk, PhaseOf, PlaceOk;
      var next := Peek();
      if next == None {
        return None;
      }
      var bio := Consume(next.value.cid, next.value.ok);
      told := Some((bio, next.value.ok));
    }

    /** The test of the phase tag at the head. */
    method Peek() returns (r: Option<Completion>)
      requires Valid()
      ensures r.Some? <==> drained < |cqLog|
      ensures r.Some? ==> r.value.cid == cqLog[drained].cid && r.value.ok == cqLog[drained].ok
    {
      hide SqRing, CqRing, LedgerOk, PhaseOf, PlaceOk;
      Bounds(L());
      PhaseTest(cq, depth, cqLog, drained);
      CqSize(cq, depth, cqLog);
      r := if cq[head].phase == phase then Some(cq[head]) else None;
    }

    method Consume(cid: nat, ok: bool) returns (bio: nat)
      requires Valid() && drained < |cqLog| && cid == cqLog[drained].cid && ok == cqLog[drained].ok
      modifies this`head, this`phase, this`slots, this`free, this`drained, this`place, this`done
      ensures Valid() && drained == old(drained) + 1 && done == old(done) + [(bio, ok)]
      ensures cqLog[old(drained)].command < |sqLog| && bio == sqLog[cqLog[old(drained)].command].bio
    {
      hide Submission, CqRing, LedgerOk, PhaseOf, PlaceOk, Report, Move;
      ghost var b := ReportIs(L(), cid, ok);
      bio := slots[cid].value;
      AdvanceHead();
      slots := slots[cid := None];
      free := free + [cid];
      place := place[cid := Free];
      done := done + [(bio, ok)];
      drained := drained + 1;
    }

    method AdvanceHead()
      requires Completions()
      modifies this`head, this`phase
      ensures head == (drained + 1) % depth && phase == PhaseOf(drained + 1, depth)
    {
      hide CqRing;
      StepAhead(drained, depth);
      head := head + 1;
      if head == depth {
        head := 0;
        phase := FlipPhase(phase);
      }
    }

    /** `drain`: every completion posted so far is consumed, in order. */
    method Drain() returns (completed: nat)
      requires Valid()
      modifies this`head, this`phase, this`slots, this`free, this`drained, this`place, this`done
      ensures Valid() && drained == |cqLog| && completed == drained - old(drained)
      ensures |done| == |cqLog| && old(done) <= done
    {
      hide Submission, Completions, LedgerOk;
      completed := 0;
      Drained();
      while true
        invariant Valid() && drained <= |cqLog| && completed == drained - old(drained) && |done| == drained
                  && old(done) <= done
        decreases |cqLog| - drained
      {
        var told := DrainOne();
        Drained();
        if told == None {
          break;
        }
        completed := completed + 1;
      }
    }

    lemma Drained()
      requires Valid()
      ensures drained <= |cqLog| && |done| == drained
    {
    }
  }

  /** `phase ^= 1`. */
  function FlipPhase(p: nat): nat {
    if p == 0 then 1 else if p == 1 then 0 else p
  }

  lemma RingSize(sq: seq<nat>, depth: nat, log: seq<Command>, from: nat)
    requires depth > 0 && SqRing(sq, depth, log, from)
    ensures |sq| == depth
  {
  }

  lemma CqSize(cq: seq<Completion>, depth: nat, log: seq<Posting>)
    requires depth > 0 && CqRing(cq, depth, log)
    ensures |cq| == depth && PhaseOf(|log|, depth) <= 1
  {
  }

  /** The free stack as it is built: the lowest id on top. */
  function Countdown(n: nat): (s: seq<nat>)
    ensures |s| == n && forall i :: 0 <= i < n ==> s[i] == n - 1 - i
  {
    seq(n, i requires 0 <= i < n => n - 1 - i)
  }

  lemma CountsAll(n: nat, c: nat)
    requires c < n
    ensures c in Countdown(n)
  {
    assert Countdown(n)[n - 1 - c] == c;
  }
}
