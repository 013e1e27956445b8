/**
  A split virtqueue (`drivers/common/virtio/src/lib.rs`) and a well-behaved device, after section 2.6 of
  VIRTIO 1.1.  Driver calls and device steps are methods, so what all of them keep holds in every
  interleaving.
  */
module Virtqueue {
  import opened Common
  import Arith

  const U16: nat := 0x1_0000

  datatype Buffer = Buffer(addr: nat, len: nat, writable: bool)

  const U32: nat := 0x1_0000_0000

  /** A length is written as 32 bits, so a device sees the buffers as given exactly when all are below 4 GiB. */
  function Narrow(buffers: seq<Buffer>): (r: seq<Buffer>)
    ensures |r| == |buffers|
    ensures forall i :: 0 <= i < |r| ==> r[i] == buffers[i].(len := buffers[i].len % U32)
    ensures r == buffers <==> forall i :: 0 <= i < |buffers| ==> buffers[i].len < U32
  {
    var r := seq(|buffers|, i requires 0 <= i < |buffers| => buffers[i].(len := buffers[i].len % U32));
    assert (forall i :: 0 <= i < |buffers| ==> buffers[i].len < U32) ==> r == buffers;
    assert r == buffers ==> forall i :: 0 <= i < |buffers| ==> r[i].len == buffers[i].len;
    r
  }

  /** `more` is the flag that says `next` is in use. */
  datatype Desc = Desc(buffer: Buffer, more: bool, next: nat)

  datatype UsedElem = UsedElem(id: nat, len: nat)

  /** Where a chain is: offered, with the device, handed back, or picked up by the driver. */
  datatype Stage = Available(at: nat) | WithDevice | Used(at: nat) | Taken

  datatype Flight = Flight(chain: seq<nat>, buffers: seq<Buffer>, stage: Stage)

  // ----- 16-bit indices

  /** Ring slots stay in step with the true position through every wrap of the 16-bit index exactly when
      the queue size divides 65536, as every power of two does. */
  lemma SlotsConsistent(n: nat)
    requires n > 0
    ensures (forall j: nat :: j % U16 % n == j % n) <==> U16 % n == 0
  {
    if U16 % n == 0 {
      forall j: nat
        ensures j % U16 % n == j % n
      {
        Slot(j, n);
      }
    } else {
      assert U16 % U16 % n == 0 by { Arith.DivModUnique(0, n, 0); }
    }
  }

  lemma Slot(j: nat, n: nat)
    requires n > 0 && U16 % n == 0
    ensures j % U16 % n == j % n
  {
    var q, r := j / U16, j % U16;
    var k := U16 / n;
    assert U16 == k * n;
    assert j == q * U16 + r;
    assert q * U16 == (q * k) * n;
    assert r == (r / n) * n + r % n;
    assert j == (q * k + r / n) * n + r % n by {
      assert (q * k + r / n) * n == (q * k) * n + (r / n) * n;
    }
    Arith.DivModUnique(q * k + r / n, n, r % n);
  }

  lemma WrapNext(j: nat)
    ensures (j + 1) % U16 == (j % U16 + 1) % U16
  {
  }

  /** Two indices less than a full turn apart differ exactly when the positions differ. */
  lemma IndexDiffers(a: nat, b: nat)
    requires a <= b < a + U16
    ensures a % U16 == b % U16 <==> a == b
  {
    if a < b {
      Arith.ModApart(a, b, U16);
    }
  }

  // ----- descriptors and chains

  datatype Ledger = Ledger(n: nat, owner: seq<Option<nat>>, flights: map<nat, Flight>, free: seq<nat>,
                           availLog: seq<nat>, taken: nat, usedLog: seq<UsedElem>, seen: nat)

  /** The free list holds exactly the descriptors without an owner, each once. */
  ghost predicate FreeOk(l: Ledger) {
    && |l.owner| == l.n
    && (forall i :: 0 <= i < |l.free| ==> l.free[i] < l.n && l.owner[l.free[i]] == None)
    && (forall i, j :: 0 <= i < j < |l.free| ==> l.free[i] != l.free[j])
    && (forall d :: 0 <= d < l.n && l.owner[d] == None ==> d in l.free)
  }

  /** A chain starts at its head and owns its descriptors. */
  ghost predicate ChainOk(l: Ledger, h: nat, f: Flight) {
    && f.chain != [] && f.chain[0] == h && |f.buffers| == |f.chain|
    && (forall i :: 0 <= i < |f.chain| ==> f.chain[i] < l.n && f.chain[i] < |l.owner| && l.owner[f.chain[i]] == Some(h))
    && (forall i, j :: 0 <= i < j < |f.chain| ==> f.chain[i] != f.chain[j])
  }

  /** Every descriptor is free or in exactly one chain in flight. */
  ghost predicate ChainsOk(l: Ledger) {
    && |l.owner| == l.n
    && (forall h :: h in l.flights ==> ChainOk(l, h, l.flights[h]))
    && (forall d :: 0 <= d < l.n && l.owner[d].Some? ==>
        l.owner[d].value in l.flights && d in l.flights[l.owner[d].value].chain)
  }

  predicate StageOk(l: Ledger, h: nat, s: Stage) {
    match s
    case Available(at) => l.taken <= at < |l.availLog| && l.availLog[at] == h
    case Used(at) => l.seen <= at < |l.usedLog| && l.usedLog[at].id == h
    case _ => true
  }

  ghost predicate StagesOk(l: Ledger) {
    && l.taken <= |l.availLog| && l.seen <= |l.usedLog|
    && (forall h :: h in l.flights ==> h < l.n && StageOk(l, h, l.flights[h].stage))
    && (forall j :: l.taken <= j < |l.availLog| ==>
        l.availLog[j] in l.flights && l.flights[l.availLog[j]].stage == Available(j))
    && (forall k :: l.seen <= k < |l.usedLog| ==>
        l.usedLog[k].id in l.flights && l.flights[l.usedLog[k].id].stage == Used(k))
  }

  ghost predicate LedgerOk(l: Ledger) {
    FreeOk(l) && ChainsOk(l) && StagesOk(l)
  }

  /** The descriptors of a chain hold its buffers and lead from each to the next. */
  predicate Linked(desc: seq<Desc>, chain: seq<nat>, buffers: seq<Buffer>) {
    |buffers| == |chain| && forall i :: 0 <= i < |chain| ==> LinkOk(desc, chain, buffers, i)
  }

  predicate LinkOk(desc: seq<Desc>, chain: seq<nat>, buffers: seq<Buffer>, i: nat)
    requires i < |chain| == |buffers|
  {
    chain[i] < |desc|
        && desc[chain[i]] == Desc(buffers[i], i + 1 < |chain|, if i + 1 < |chain| then chain[i + 1] else 0)
  }

  ghost predicate AllLinked(desc: seq<Desc>, l: Ledger) {
    |desc| == l.n && forall h :: h in l.flights ==> Linked(desc, l.flights[h].chain, l.flights[h].buffers)
  }

  // ----- the rings

  predicate AvailRing(ring: seq<nat>, n: nat, log: seq<nat>, from: nat)
    requires n > 0
  {
    |ring| == n && forall j :: from <= j < |log| ==> ring[j % n] == log[j]
  }

  predicate UsedRing(ring: seq<UsedElem>, n: nat, log: seq<UsedElem>, from: nat)
    requires n > 0
  {
    |ring| == n && forall j :: from <= j < |log| ==> ring[j % n] == log[j]
  }

  lemma RingPut<T>(ring: seq<T>, n: nat, log: seq<T>, from: nat, x: T)
    requires n > 0 && |ring| == n && (forall j :: from <= j < |log| ==> ring[j % n] == log[j])
              && from <= |log| < from + n
    ensures var r := ring[|log| % n := x];
            forall j :: from <= j < |log + [x]| ==> r[j % n] == (log + [x])[j]
  {
    forall j | from <= j < |log|
      ensures j % n != |log| % n
    {
      Arith.ModApart(j, |log|, n);
    }
  }

  // ----- bounds

  /** Offered chains have different heads, so they are no more than the ring has slots. */
  lemma FewAvailable(l: Ledger)
    requires StagesOk(l)
    ensures |l.availLog| - l.taken <= l.n
    ensures forall d :: 0 <= d < l.n && d !in l.flights ==> |l.availLog| - l.taken < l.n
  {
    var s: seq<nat> := l.availLog[l.taken..];
    forall i | 0 <= i < |s|
      ensures s[i] in l.flights && s[i] < l.n && l.flights[s[i]].stage == Available(l.taken + i)
    {
      assert s[i] == l.availLog[l.taken + i];
    }
    Arith.Pigeons(s, l.n);
    forall d | 0 <= d < l.n && d !in l.flights
      ensures |s| < l.n
    {
      Arith.Pigeons(s + [d], l.n);
    }
  }

  lemma FewUsed(l: Ledger)
    requires StagesOk(l)
    ensures |l.usedLog| - l.seen <= l.n
    ensures forall h :: h in l.flights && l.flights[h].stage == WithDevice ==> |l.usedLog| - l.seen < l.n
  {
    var s: seq<nat> := seq(|l.usedLog| - l.seen, i requires 0 <= i < |l.usedLog| - l.seen => l.usedLog[l.seen + i].id);
    forall i | 0 <= i < |s|
      ensures s[i] in l.flights && s[i] < l.n && l.flights[s[i]].stage == Used(l.seen + i)
    {
    }
    Arith.Pigeons(s, l.n);
    forall h | h in l.flights && l.flights[h].stage == WithDevice
      ensures |s| < l.n
    {
      assert h < l.n;
      Arith.Pigeons(s + [h], l.n);
    }
  }

  // ----- the steps

  /** The `k` descriptors on top of the free list, in the order they are popped. */
  function Popped(free: seq<nat>, k: nat): (c: seq<nat>)
    requires k <= |free|
    ensures |c| == k && forall i :: 0 <= i < k ==> c[i] == free[|free| - 1 - i]
  {
    seq(k, i requires 0 <= i < k => free[|free| - 1 - i])
  }

  ghost function Claim(owner: seq<Option<nat>>, chain: seq<nat>, who: Option<nat>): (r: seq<Option<nat>>)
    ensures |r| == |owner| && forall d :: 0 <= d < |owner| ==> r[d] == if d in chain then who else owner[d]
  {
    seq(|owner|, d requires 0 <= d < |owner| => if d in chain then who else owner[d])
  }

  ghost function Offer(l: Ledger, buffers: seq<Buffer>): Ledger
    requires 0 < |buffers| <= |l.free|
  {
    var chain := Popped(l.free, |buffers|);
    l.(free := l.free[..|l.free| - |buffers|], owner := Claim(l.owner, chain, Some(chain[0])),
       flights := l.flights[chain[0] := Flight(chain, buffers, Available(|l.availLog|))],
       availLog := l.availLog + [chain[0]])
  }

  /** The popped descriptors are different and unowned, and the first starts no chain. */
  lemma PoppedFree(l: Ledger, k: nat)
    requires FreeOk(l) && ChainsOk(l) && 0 < k <= |l.free|
    ensures var c := Popped(l.free, k);
            && (forall i :: 0 <= i < k ==> c[i] < l.n && l.owner[c[i]] == None)
            && (forall i, j :: 0 <= i < j < k ==> c[i] != c[j])
            && (forall d :: d in c ==> d < l.n && l.owner[d] == None)
            && c[0] !in l.flights
  {
    var c := Popped(l.free, k);
    if c[0] in l.flights {
      HeadOwned(l, c[0]);
    }
  }

  lemma HeadOwned(l: Ledger, h: nat)
    requires ChainsOk(l) && h in l.flights
    ensures h < l.n && l.owner[h] == Some(h)
  {
    assert ChainOk(l, h, l.flights[h]);
  }

  lemma InPopped(free: seq<nat>, k: nat, i: nat)
    requires k <= |free| && |free| - k <= i < |free|
    ensures free[i] in Popped(free, k)
  {
    assert Popped(free, k)[|free| - 1 - i] == free[i];
  }

  lemma OfferFree(l: Ledger, buffers: seq<Buffer>)
    requires FreeOk(l) && ChainsOk(l) && 0 < |buffers| <= |l.free|
    ensures FreeOk(Offer(l, buffers))
  {
    hide ChainsOk;
    var m, k := Offer(l, buffers), |buffers|;
    var c := Popped(l.free, k);
    forall i | 0 <= i < |m.free|
      ensures m.free[i] !in c
    {
      assert m.free[i] == l.free[i];
    }
    forall d | 0 <= d < l.n && m.owner[d] == None
      ensures d in m.free
    {
      var i :| 0 <= i < |l.free| && l.free[i] == d;
      if i >= |m.free| {
        InPopped(l.free, k, i);
      } else {
        assert m.free[i] == d;
      }
    }
  }

  lemma OfferChains(l: Ledger, buffers: seq<Buffer>)
    requires FreeOk(l) && ChainsOk(l) && 0 < |buffers| <= |l.free|
    ensures ChainsOk(Offer(l, buffers))
  {
    var m, k := Offer(l, buffers), |buffers|;
    var c := Popped(l.free, k);
    PoppedFree(l, k);
    hide FreeOk;
    forall h | h in m.flights
      ensures ChainOk(m, h, m.flights[h])
    {
      if h != c[0] {
        assert ChainOk(l, h, l.flights[h]);
      }
    }
    forall d | 0 <= d < l.n && m.owner[d].Some?
      ensures m.owner[d].value in m.flights && d in m.flights[m.owner[d].value].chain
    {
    }
  }

  lemma OfferStages(l: Ledger, buffers: seq<Buffer>)
    requires FreeOk(l) && ChainsOk(l) && StagesOk(l) && 0 < |buffers| <= |l.free|
    ensures StagesOk(Offer(l, buffers))
  {
    PoppedFree(l, |buffers|);
    hide FreeOk, ChainsOk;
    var m, h := Offer(l, buffers), Popped(l.free, |buffers|)[0];
    forall j | m.taken <= j < |m.availLog|
      ensures m.availLog[j] in m.flights && m.flights[m.availLog[j]].stage == Available(j)
    {
      assert j < |l.availLog| ==> l.availLog[j] != h;
    }
  }

  ghost function Return(l: Ledger, h: nat): Ledger
    requires h in l.flights
  {
    l.(free := l.free + l.flights[h].chain, owner := Claim(l.owner, l.flights[h].chain, None),
       flights := l.flights - {h})
  }

  lemma ReturnKeeps(l: Ledger, h: nat)
    requires LedgerOk(l) && h in l.flights && l.flights[h].stage == Taken
    ensures LedgerOk(Return(l, h))
  {
    hide FreeOk, ChainsOk, Claim;
    ReturnFree(l, h);
    ReturnChains(l, h);
  }

  lemma ReturnFree(l: Ledger, h: nat)
    requires FreeOk(l) && ChainsOk(l) && h in l.flights
    ensures FreeOk(Return(l, h))
  {
    var m, c := Return(l, h), l.flights[h].chain;
    assert ChainOk(l, h, l.flights[h]);
    hide ChainsOk;
    forall d | 0 <= d < l.n && m.owner[d] == None
      ensures d in m.free
    {
    }
  }

  lemma ReturnChains(l: Ledger, h: nat)
    requires ChainsOk(l) && h in l.flights
    ensures ChainsOk(Return(l, h))
  {
    var m, c := Return(l, h), l.flights[h].chain;
    assert ChainOk(l, h, l.flights[h]);
    forall g | g in m.flights
      ensures ChainOk(m, g, m.flights[g])
    {
      assert ChainOk(l, g, l.flights[g]);
    }
    forall d | 0 <= d < l.n && m.owner[d].Some?
      ensures m.owner[d].value in m.flights && d in m.flights[m.owner[d].value].chain
    {
    }
  }

  function Restage(l: Ledger, h: nat, s: Stage): Ledger
    requires h in l.flights
  {
    l.(flights := l.flights[h := l.flights[h].(stage := s)])
  }

  /** A stage is no matter of the descriptors. */
  lemma RestageChains(l: Ledger, h: nat, s: Stage)
    requires ChainsOk(l) && h in l.flights
    ensures ChainsOk(Restage(l, h, s))
  {
    var m := Restage(l, h, s);
    forall g | g in m.flights
      ensures ChainOk(m, g, m.flights[g])
    {
      assert ChainOk(l, g, l.flights[g]);
    }
    forall d | 0 <= d < l.n && m.owner[d].Some?
      ensures m.owner[d].value in m.flights && d in m.flights[m.owner[d].value].chain
    {
    }
  }

  /** The logs are no matter of the descriptors either. */
  lemma SameDescriptors(l: Ledger, m: Ledger)
    requires m.n == l.n && m.owner == l.owner && m.flights == l.flights && m.free == l.free
    ensures FreeOk(l) ==> FreeOk(m)
    ensures ChainsOk(l) ==> ChainsOk(m)
  {
    if ChainsOk(l) {
      forall g | g in m.flights
        ensures ChainOk(m, g, m.flights[g])
      {
        assert ChainOk(l, g, l.flights[g]);
      }
    }
  }

  lemma RestageKeeps(l: Ledger, h: nat, s: Stage, m: Ledger)
    requires LedgerOk(l) && h in l.flights
    requires m.n == l.n && m.owner == l.owner && m.free == l.free && m.flights == Restage(l, h, s).flights
              && StagesOk(m)
    ensures LedgerOk(m)
  {
    hide FreeOk, ChainsOk;
    RestageChains(l, h, s);
    SameDescriptors(Restage(l, h, s), m);
    assert FreeOk(Restage(l, h, s)) by { SameFree(l, Restage(l, h, s)); }
  }

  lemma SameFree(l: Ledger, m: Ledger)
    requires FreeOk(l) && m.n == l.n && m.owner == l.owner && m.free == l.free
    ensures FreeOk(m)
  {
  }

  ghost function Collect(l: Ledger): Ledger
    requires l.taken < |l.availLog| && l.availLog[l.taken] in l.flights
  {
    Restage(l, l.availLog[l.taken], WithDevice).(taken := l.taken + 1)
  }

  lemma CollectKeeps(l: Ledger)
    requires LedgerOk(l) && l.taken < |l.availLog|
    ensures l.availLog[l.taken] in l.flights && LedgerOk(Collect(l))
  {
    hide FreeOk, ChainsOk;
    assert StagesOk(Collect(l));
    RestageKeeps(l, l.availLog[l.taken], WithDevice, Collect(l));
  }

  ghost function Finish(l: Ledger, h: nat, len: nat): Ledger
    requires h in l.flights
  {
    Restage(l, h, Used(|l.usedLog|)).(usedLog := l.usedLog + [UsedElem(h, len)])
  }

  lemma FinishKeeps(l: Ledger, h: nat, len: nat)
    requires LedgerOk(l) && h in l.flights && l.flights[h].stage == WithDevice
    ensures LedgerOk(Finish(l, h, len))
  {
    hide FreeOk, ChainsOk;
    assert StagesOk(Finish(l, h, len));
    RestageKeeps(l, h, Used(|l.usedLog|), Finish(l, h, len));
  }

  ghost function PickUp(l: Ledger): Ledger
    requires l.seen < |l.usedLog| && l.usedLog[l.seen].id in l.flights
  {
    Restage(l, l.usedLog[l.seen].id, Taken).(seen := l.seen + 1)
  }

  lemma PickUpKeeps(l: Ledger)
    requires LedgerOk(l) && l.seen < |l.usedLog|
    ensures l.usedLog[l.seen].id in l.flights && l.usedLog[l.seen].id < l.n && LedgerOk(PickUp(l))
  {
    hide FreeOk, ChainsOk;
    assert StagesOk(PickUp(l));
    RestageKeeps(l, l.usedLog[l.seen].id, Taken, PickUp(l));
  }

  /** Writing the popped descriptors breaks no chain in flight. */
  lemma OfferLinked(desc: seq<Desc>, desc': seq<Desc>, l: Ledger, buffers: seq<Buffer>)
    requires FreeOk(l) && ChainsOk(l) && AllLinked(desc, l) && 0 < |buffers| <= |l.free| && |desc'| == |desc|
    requires Linked(desc', Popped(l.free, |buffers|), buffers)
    requires forall d :: 0 <= d < |desc| && d !in Popped(l.free, |buffers|) ==> desc'[d] == desc[d]
    ensures AllLinked(desc', Offer(l, buffers))
  {
    PoppedFree(l, |buffers|);
    hide FreeOk;
    var m, c := Offer(l, buffers), Popped(l.free, |buffers|);
    forall h | h in m.flights
      ensures Linked(desc', m.flights[h].chain, m.flights[h].buffers)
    {
      if h != c[0] {
        var f := l.flights[h];
        assert ChainOk(l, h, f) && Linked(desc, f.chain, f.buffers);
        forall i | 0 <= i < |f.chain|
          ensures f.chain[i] < |desc| && desc'[f.chain[i]] == desc[f.chain[i]]
        {
          var d := f.chain[i];
          assert l.owner[d] == Some(h) && d < l.n;
          assert d !in c;
        }
        LinkedFrame(desc, desc', f.chain, f.buffers);
      }
    }
  }

  lemma LinkedFrame(desc: seq<Desc>, desc': seq<Desc>, chain: seq<nat>, buffers: seq<Buffer>)
    requires Linked(desc, chain, buffers) && |desc'| == |desc|
    requires forall i :: 0 <= i < |chain| ==> chain[i] < |desc| && desc'[chain[i]] == desc[chain[i]]
    ensures Linked(desc', chain, buffers)
  {
    forall i | 0 <= i < |chain|
      ensures LinkOk(desc', chain, buffers, i)
    {
      assert LinkOk(desc, chain, buffers, i);
    }
  }

  lemma OfferKeeps(l: Ledger, buffers: seq<Buffer>)
    requires LedgerOk(l) && 0 < |buffers| <= |l.free|
    ensures LedgerOk(Offer(l, buffers))
    ensures Popped(l.free, |buffers|)[0] !in l.flights && l.taken <= |l.availLog| < l.taken + l.n
    ensures forall i :: 0 <= i < |buffers| ==> Popped(l.free, |buffers|)[i] < l.n
    ensures forall i, j :: 0 <= i < j < |buffers| ==> Popped(l.free, |buffers|)[i] != Popped(l.free, |buffers|)[j]
  {
    OfferFree(l, buffers);
    OfferChains(l, buffers);
    OfferStages(l, buffers);
    PoppedFree(l, |buffers|);
    FewAvailable(l);
    hide FreeOk, ChainsOk, StagesOk;
    assert Popped(l.free, |buffers|)[0] < l.n;
  }

  lemma OfferLinks(desc: seq<Desc>, desc': seq<Desc>, l: Ledger, buffers: seq<Buffer>)
    requires LedgerOk(l) && AllLinked(desc, l) && 0 < |buffers| <= |l.free| && |desc'| == |desc|
    requires Linked(desc', Popped(l.free, |buffers|), buffers)
    requires forall d :: 0 <= d < |desc| && d !in Popped(l.free, |buffers|) ==> desc'[d] == desc[d]
    ensures AllLinked(desc', Offer(l, buffers))
  {
    OfferLinked(desc, desc', l, buffers);
  }

  // ----- the queue

  class VirtQueue {
    const queueSize: nat
    // the driver
    var freeDescs: seq<nat>
    var lastUsedIdx: nat
    // shared memory
    var desc: seq<Desc>
    var availRing: seq<nat>
    var availIdx: nat
    var usedRing: seq<UsedElem>
    var usedIdx: nat
    // the device
    var deviceIdx: nat
    // history
    ghost var owner: seq<Option<nat>>
    ghost var flights: map<nat, Flight>
    ghost var availLog: seq<nat>
    ghost var taken: nat
    ghost var usedLog: seq<UsedElem>
    ghost var seen: nat

    ghost function L(): Ledger
      reads this`owner, this`flights, this`freeDescs, this`availLog, this`taken, this`usedLog, this`seen
    {
      Ledger(queueSize, owner, flights, freeDescs, availLog, taken, usedLog, seen)
    }

    ghost predicate Avail()
      reads this`availRing, this`availIdx, this`deviceIdx, this`availLog, this`taken
    {
      && 0 < queueSize < U16 && U16 % queueSize == 0
      && AvailRing(availRing, queueSize, availLog, taken)
      && availIdx == |availLog| % U16 && deviceIdx == taken % U16
    }

    ghost predicate UsedSide()
      reads this`usedRing, this`usedIdx, this`lastUsedIdx, this`usedLog, this`seen
    {
      && 0 < queueSize < U16 && U16 % queueSize == 0
      && UsedRing(usedRing, queueSize, usedLog, seen)
      && usedIdx == |usedLog| % U16 && lastUsedIdx == seen % U16
    }

    ghost predicate Valid()
      reads this
    {
      Avail() && UsedSide() && LedgerOk(L()) && AllLinked(desc, L())
    }

    constructor (queueSize: nat)
      requires 0 < queueSize < U16 && U16 % queueSize == 0
      ensures Valid() && this.queueSize == queueSize && flights == map[] && availLog == []
    {
      this.queueSize := queueSize;
      freeDescs := Countdown(queueSize);
      lastUsedIdx, availIdx, usedIdx, deviceIdx := 0, 0, 0, 0;
      desc := seq(queueSize, _ => Desc(Buffer(0, 0, false), false, 0));
      availRing, usedRing := seq(queueSize, _ => 0), seq(queueSize, _ => UsedElem(0, 0));
      owner, flights, availLog, taken, usedLog, seen := seq(queueSize, _ => None), map[], [], 0, [], 0;
      new;
      forall d | 0 <= d < queueSize
        ensures owner[d] == None ==> d in freeDescs
      {
        CountsAll(queueSize, d);
      }
    }

    /** `add_buffer`: the buffers go into free descriptors, linked in order, and the chain is offered.  No
        offer that waits for the device is overwritten. */
    method AddBuffer(buffers: seq<Buffer>) returns (r: Result<nat>)
      requires Valid()
      modifies this`freeDescs, this`desc, this`availRing, this`availIdx, this`owner, this`flights, this`availLog
      ensures Valid()
      ensures r == Err(EINVAL) <==> buffers == []
      ensures r == Err(EBUSY) <==> buffers != [] && |buffers| > |old(freeDescs)|
      ensures r.Err? ==> unchanged(this`freeDescs) && unchanged(this`flights) && unchanged(this`availLog)
      ensures r.Ok? ==>
                && r.value !in old(flights) && r.value in flights
                && flights ==
                    old(flights)[r.value :=
                        Flight(Popped(old(freeDescs), |buffers|), Narrow(buffers), Available(|old(availLog)|))]
                && availLog == old(availLog) + [r.value] && |availLog| - taken <= queueSize
    {
      hide LedgerOk, AllLinked, AvailRing, UsedSide, Narrow;
      if buffers == [] {
        return Err(EINVAL);
      }
      if |buffers| > |freeDescs| {
        return Err(EBUSY);
      }
      OfferKeeps(L(), Narrow(buffers));
      ghost var l := L();
      var descs := Fill(buffers, l);
      var head := descs[0];
      Put(head);
      owner, flights :=
          Claim(owner, descs, Some(head)), flights[head := Flight(descs, Narrow(buffers), Available(|availLog| - 1))];
      assert L() == Offer(l, Narrow(buffers));
      r := Ok(head);
    }

    /** Free descriptors are popped and written. */
    method Fill(buffers: seq<Buffer>, ghost l: Ledger) returns (descs: seq<nat>)
      requires LedgerOk(l) && AllLinked(desc, l) && l.free == freeDescs && 0 < |buffers| <= |freeDescs|
      modifies this`freeDescs, this`desc
      ensures descs == Popped(old(freeDescs), |buffers|) && freeDescs == old(freeDescs)[..|old(freeDescs)| - |buffers|]
      ensures AllLinked(desc, Offer(l, Narrow(buffers)))
    {
      hide LedgerOk, AllLinked, Offer, Linked, Narrow;
      OfferKeeps(l, Narrow(buffers));
      ghost var d := desc;
      DescCount(d, l);
      descs := Pop(|buffers|);
      SetDescs(descs, buffers);
      OfferLinks(d, desc, l, Narrow(buffers));
    }

    /** Descriptors popped off the free list. */
    method Pop(k: nat) returns (descs: seq<nat>)
      requires k <= |freeDescs|
      modifies this`freeDescs
      ensures descs == Popped(old(freeDescs), k) && freeDescs == old(freeDescs)[..|old(freeDescs)| - k]
    {
      descs := [];
      while |descs| < k
        invariant |descs| <= k && descs == Popped(old(freeDescs), |descs|)
        invariant freeDescs == old(freeDescs)[..|old(freeDescs)| - |descs|]
        decreases k - |descs|
      {
        descs := descs + [freeDescs[|freeDescs| - 1]];
        freeDescs := freeDescs[..|freeDescs| - 1];
      }
    }

    /** `set_desc` for every buffer of a chain. */
    method SetDescs(descs: seq<nat>, buffers: seq<Buffer>)
      requires |descs| == |buffers| && forall i :: 0 <= i < |descs| ==> descs[i] < |desc|
      requires forall i, j :: 0 <= i < j < |descs| ==> descs[i] != descs[j]
      modifies this`desc
      ensures |desc| == |old(desc)| && Linked(desc, descs, Narrow(buffers))
      ensures forall d :: 0 <= d < |desc| && d !in descs ==> desc[d] == old(desc)[d]
    {
      hide Narrow;
      for i := 0 to |buffers|
        invariant |desc| == |old(desc)|
        invariant forall j :: 0 <= j < i ==> LinkOk(desc, descs, Narrow(buffers), j)
        invariant forall d :: 0 <= d < |desc| && d !in descs ==> desc[d] == old(desc)[d]
      {
        var next := if i + 1 < |buffers| then descs[i + 1] else 0;
        ghost var before := desc;
        desc := desc[descs[i] := Desc(buffers[i].(len := buffers[i].len % U32), i + 1 < |buffers|, next)];
        forall j | 0 <= j < i + 1
          ensures LinkOk(desc, descs, Narrow(buffers), j)
        {
          if j < i {
            assert LinkOk(before, descs, Narrow(buffers), j) && descs[j] != descs[i];
          }
        }
      }
    }

    /** The head goes into the available ring, then the index moves on. */
    method Put(head: nat)
      requires Avail() && taken <= |availLog| < taken + queueSize
      modifies this`availRing, this`availIdx, this`availLog
      ensures Avail() && availLog == old(availLog) + [head]
    {
      Slot(|availLog|, queueSize);
      WrapNext(|availLog|);
      RingPut(availRing, queueSize, availLog, taken, head);
      availRing := availRing[availIdx % queueSize := head];
      availIdx := (availIdx + 1) % U16;
      availLog := availLog + [head];
    }

    /** The device collects the next offer, if the index says there is one, and follows the chain: it finds
        the buffers that were given, in order. */
    method DeviceTake() returns (head: Option<nat>)
      requires Valid()
      modifies this`deviceIdx, this`flights, this`taken
      ensures Valid()
      ensures head.Some? <==> old(taken) < |availLog|
      ensures head == None ==> flights == old(flights) && taken == old(taken)
      ensures head.Some? ==>
                && head.value == availLog[old(taken)] && head.value in old(flights) && taken == old(taken) + 1
                && flights == old(flights)[head.value := old(flights)[head.value].(stage := WithDevice)]
                && Linked(desc, flights[head.value].chain, flights[head.value].buffers)
    {
      hide LedgerOk, AllLinked, UsedSide;
      AvailBounds(L());
      IndexDiffers(taken, |availLog|);
      if deviceIdx == availIdx {
        return None;
      }
      CollectKeeps(L());
      CollectLinks(desc, L());
      Slot(taken, queueSize);
      WrapNext(taken);
      head := Some(availRing[deviceIdx % queueSize]);
      deviceIdx := (deviceIdx + 1) % U16;
      flights := flights[head.value := flights[head.value].(stage := WithDevice)];
      taken := taken + 1;
    }

    /** The device hands a chain back. */
    method DeviceUse(head: nat, len: nat)
      requires Valid() && head in flights && flights[head].stage == WithDevice
      modifies this`usedRing, this`usedIdx, this`flights, this`usedLog
      ensures Valid() && |usedLog| - seen <= queueSize
      ensures usedLog == old(usedLog) + [UsedElem(head, len)]
      ensures flights == old(flights)[head := old(flights)[head].(stage := Used(|old(usedLog)|))]
    {
      hide LedgerOk, AllLinked, Avail;
      UsedBounds(L());
      FinishKeeps(L(), head, len);
      FinishLinks(desc, L(), head, len);
      Slot(|usedLog|, queueSize);
      WrapNext(|usedLog|);
      RingPut(usedRing, queueSize, usedLog, seen, UsedElem(head, len));
      usedRing := usedRing[usedIdx % queueSize := UsedElem(head, len)];
      usedIdx := (usedIdx + 1) % U16;
      flights := flights[head := flights[head].(stage := Used(|usedLog|))];
      usedLog := usedLog + [UsedElem(head, len)];
    }

    /** `has_used` is true exactly when a chain waits to be picked up. */
    method HasUsed() returns (b: bool)
      requires Valid()
      ensures b <==> seen < |usedLog|
    {
      hide LedgerOk, AllLinked, Avail;
      UsedBounds(L());
      IndexDiffers(seen, |usedLog|);
      b := usedIdx != lastUsedIdx;
    }

    /** `get_used`. */
    method GetUsed() returns (r: Option<UsedElem>)
      requires Valid()
      modifies this`lastUsedIdx, this`flights, this`seen
      ensures Valid()
      ensures r.Some? <==> old(seen) < |usedLog|
      ensures r == None ==> flights == old(flights) && seen == old(seen)
      ensures r.Some? ==>
                && r.value == usedLog[old(seen)] && r.value.id in old(flights) && seen == old(seen) + 1
                && flights == old(flights)[r.value.id := old(flights)[r.value.id].(stage := Taken)]
    {
      hide LedgerOk, AllLinked, Avail;
      var some := HasUsed();
      if !some {
        return None;
      }
      UsedBounds(L());
      PickUpKeeps(L());
      PickUpLinks(desc, L());
      Slot(seen, queueSize);
      WrapNext(seen);
      var e := usedRing[lastUsedIdx % queueSize];
      if e.id >= queueSize {
        return None;
      }
      lastUsedIdx := (lastUsedIdx + 1) % U16;
      flights := flights[e.id := flights[e.id].(stage := Taken)];
      seen := seen + 1;
      r := Some(e);
    }

    /** `release_used_chain`: it ends, and gives back exactly the descriptors that `add_buffer` took. */
    method ReleaseUsedChain(head: nat)
      requires Valid() && head in flights && flights[head].stage == Taken
      modifies this`freeDescs, this`owner, this`flights
      ensures Valid()
      ensures freeDescs == old(freeDescs) + old(flights)[head].chain && flights == old(flights) - {head}
    {
      hide LedgerOk, AllLinked, Avail, UsedSide;
      ReturnKeeps(L(), head);
      ReturnLinks(desc, L(), head);
      ghost var chain, buffers := flights[head].chain, flights[head].buffers;
      ChainLinked(desc, L(), head);
      var d := head;
      ghost var i := 0;
      while true
        invariant i < |chain| && d == chain[i] && freeDescs == old(freeDescs) + chain[..i]
        invariant flights == old(flights) && owner == old(owner) && Linked(desc, chain, buffers)
        decreases |chain| - i
      {
        assert LinkOk(desc, chain, buffers, i);
        var more, next := desc[d].more, desc[d].next;
        freeDescs := freeDescs + [d];
        assert freeDescs == old(freeDescs) + chain[..i + 1];
        if !more {
          assert chain[..i + 1] == chain;
          break;
        }
        d := next;
        i := i + 1;
      }
      owner, flights := Claim(owner, chain, None), flights - {head};
    }
  }

  lemma DescCount(desc: seq<Desc>, l: Ledger)
    requires AllLinked(desc, l)
    ensures |desc| == l.n
  {
  }

  lemma ChainLinked(desc: seq<Desc>, l: Ledger, h: nat)
    requires AllLinked(desc, l) && LedgerOk(l) && h in l.flights
    ensures Linked(desc, l.flights[h].chain, l.flights[h].buffers) && l.flights[h].chain != []
              && l.flights[h].chain[0] == h
  {
    assert ChainOk(l, h, l.flights[h]);
  }

  lemma AvailBounds(l: Ledger)
    requires LedgerOk(l)
    ensures l.taken <= |l.availLog| <= l.taken + l.n
  {
    FewAvailable(l);
  }

  lemma UsedBounds(l: Ledger)
    requires LedgerOk(l)
    ensures l.seen <= |l.usedLog| <= l.seen + l.n
    ensures forall h :: h in l.flights && l.flights[h].stage == WithDevice ==> |l.usedLog| < l.seen + l.n
  {
    FewUsed(l);
  }

  lemma CollectLinks(desc: seq<Desc>, l: Ledger)
    requires AllLinked(desc, l) && l.taken < |l.availLog| && l.availLog[l.taken] in l.flights
    ensures AllLinked(desc, Collect(l))
    ensures Linked(desc, l.flights[l.availLog[l.taken]].chain, l.flights[l.availLog[l.taken]].buffers)
  {
  }

  lemma FinishLinks(desc: seq<Desc>, l: Ledger, h: nat, len: nat)
    requires AllLinked(desc, l) && h in l.flights
    ensures AllLinked(desc, Finish(l, h, len))
  {
  }

  lemma PickUpLinks(desc: seq<Desc>, l: Ledger)
    requires AllLinked(desc, l) && l.seen < |l.usedLog| && l.usedLog[l.seen].id in l.flights
    ensures AllLinked(desc, PickUp(l))
  {
  }

  lemma ReturnLinks(desc: seq<Desc>, l: Ledger, h: nat)
    requires AllLinked(desc, l) && h in l.flights
    ensures AllLinked(desc, Return(l, h))
  {
  }

  /** The free list as it is built: the lowest descriptor on top. */
  function Countdown(n: nat): (s: seq<nat>)
    ensures |s| == n && forall i :: 0 <= i < n ==> s[i] == n - 1 - i
  {
    seq(n, i requires 0 <= i < n => n - 1 - i)
  }

  lemma CountsAll(n: nat, c: nat)
    requires c < n
    ensures c in Countdown(n)
  {
    assert Countdown(n)[n - 1 - c] == c;
  }
}
