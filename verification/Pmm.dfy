/**
  The physical page allocator of `kernel/src/memory/pmm.rs`: a free list of regions, threaded through the
  array that has one record for every page frame.
  */
module Pmm {
  import opened Common

  const NO_PAGE: nat := 0xffff_ffff_ffff_ffff
  const WORDS: nat := 0x1_0000_0000_0000_0000
  const PAGE: nat := 4096
  const KERNEL20: nat := 0x10_0000
  const KERNEL32: nat := 0x1_0000_0000
  const UNLIMITED: nat := 0xffff_ffff_ffff_ffff

  datatype Page = Page(next: nat, count: nat)

  const CLEARED := Page(NO_PAGE, 0)

  /** The frames `start`, `start + 1`, ... , `start + count - 1`. */
  datatype Region = Region(start: nat, count: nat)

  function End(r: Region): nat {
    r.start + r.count
  }

  predicate Holds(r: Region, p: nat) {
    r.start <= p < End(r)
  }

  // ----- what the list says

  ghost predicate IsFree(rs: seq<Region>, p: nat) {
    exists i :: 0 <= i < |rs| && Holds(rs[i], p)
  }

  ghost predicate AllFree(rs: seq<Region>, p: nat, n: nat) {
    forall q :: p <= q < p + n ==> IsFree(rs, q)
  }

  ghost predicate NoneFree(rs: seq<Region>, p: nat, n: nat) {
    forall q :: p <= q < p + n ==> !IsFree(rs, q)
  }

  /** Sorted, disjoint and coalesced: a frame that is not free lies between any two regions. */
  predicate Sorted(rs: seq<Region>, n: nat) {
    && (forall i :: 0 <= i < |rs| ==> rs[i].count > 0 && End(rs[i]) <= n)
    && (forall i, j :: 0 <= i < j < |rs| ==> End(rs[i]) < rs[j].start)
  }

  /** The first frame of region `i`, or the end mark of the list. */
  function Start(rs: seq<Region>, i: nat): nat {
    if i < |rs| then rs[i].start else NO_PAGE
  }

  /** The record of frame `p`. */
  ghost predicate RecordOk(rs: seq<Region>, p: nat, page: Page) {
    || (page == CLEARED && forall i :: 0 <= i < |rs| ==> rs[i].start != p)
    || (exists i :: 0 <= i < |rs| && rs[i].start == p && page == Page(Start(rs, i + 1), rs[i].count))
  }

  ghost predicate Threaded(rs: seq<Region>, head: nat, pages: seq<Page>) {
    && head == Start(rs, 0)
    && (forall p :: 0 <= p < |pages| ==> RecordOk(rs, p, pages[p]))
  }

  lemma HeadRecord(rs: seq<Region>, head: nat, pages: seq<Page>, i: nat)
    requires Threaded(rs, head, pages) && Sorted(rs, |pages|) && i < |rs|
    ensures rs[i].start < |pages| && pages[rs[i].start] == Page(Start(rs, i + 1), rs[i].count)
  {
    var p := rs[i].start;
    assert RecordOk(rs, p, pages[p]);
  }

  // ----- consequences of being coalesced

  /** The frame after a region is not free. */
  lemma GapAfter(rs: seq<Region>, n: nat, i: nat)
    requires Sorted(rs, n) && i < |rs|
    ensures !IsFree(rs, End(rs[i]))
  {
  }

  /** Consecutive free frames lie in one region. */
  lemma RunInRegion(rs: seq<Region>, n: nat, p: nat, k: nat) returns (i: nat)
    requires Sorted(rs, n) && k > 0 && AllFree(rs, p, k)
    ensures i < |rs| && rs[i].start <= p && p + k <= End(rs[i])
  {
    assert IsFree(rs, p);
    i :| 0 <= i < |rs| && Holds(rs[i], p);
    GapAfter(rs, n, i);
  }

  lemma RegionFree(rs: seq<Region>, i: nat, p: nat, k: nat)
    requires i < |rs| && rs[i].start <= p && p + k <= End(rs[i])
    ensures AllFree(rs, p, k)
  {
    forall q | p <= q < p + k
      ensures IsFree(rs, q)
    {
      assert Holds(rs[i], q);
    }
  }

  /** The first region starts at the least free frame. */
  lemma FirstFree(rs: seq<Region>, n: nat)
    requires Sorted(rs, n) && rs != []
    ensures IsFree(rs, rs[0].start)
    ensures forall q: nat :: IsFree(rs, q) ==> rs[0].start <= q
  {
    assert Holds(rs[0], rs[0].start);
  }

  ghost predicate SameFree(a: seq<Region>, b: seq<Region>) {
    forall p: nat :: IsFree(a, p) <==> IsFree(b, p)
  }

  lemma NoRegions(a: seq<Region>, b: seq<Region>, n: nat)
    requires a == [] && Sorted(b, n) && SameFree(a, b)
    ensures b == []
  {
    if b != [] {
      FirstFree(b, n);
    }
  }

  /** The regions, and with them every record of the list, are determined by the set of free frames. */
  lemma {:induction false} Canonical(a: seq<Region>, b: seq<Region>, n: nat)
    requires Sorted(a, n) && Sorted(b, n) && SameFree(a, b)
    ensures a == b
    decreases |a|
  {
    hide IsFree;
    if a == [] {
      NoRegions(a, b, n);
    } else if b == [] {
      NoRegions(b, a, n);
    } else {
      FirstWithin(a, b, n);
      FirstWithin(b, a, n);
      forall p: nat
        ensures IsFree(a[1..], p) <==> IsFree(b[1..], p)
      {
        TailFree(a, n, p);
        TailFree(b, n, p);
      }
      Canonical(a[1..], b[1..], n);
      assert a == [a[0]] + a[1..] && b == [b[0]] + b[1..];
    }
  }

  lemma FirstWithin(a: seq<Region>, b: seq<Region>, n: nat)
    requires Sorted(a, n) && Sorted(b, n) && a != [] && b != [] && SameFree(a, b)
    ensures b[0].start <= a[0].start && End(a[0]) <= End(b[0])
  {
    hide IsFree;
    FirstFree(a, n);
    FirstFree(b, n);
    RegionFree(a, 0, a[0].start, a[0].count);
    var i := RunInRegion(b, n, a[0].start, a[0].count);
  }

  lemma TailFree(a: seq<Region>, n: nat, p: nat)
    requires Sorted(a, n) && a != []
    ensures IsFree(a[1..], p) <==> IsFree(a, p) && !Holds(a[0], p)
  {
    if IsFree(a[1..], p) {
      var i :| 0 <= i < |a[1..]| && Holds(a[1..][i], p);
      assert Holds(a[i + 1], p);
    }
    if IsFree(a, p) && !Holds(a[0], p) {
      var i :| 0 <= i < |a| && Holds(a[i], p);
      assert Holds(a[1..][i - 1], p);
    }
  }

  // ----- replacing the regions a, a + 1, ... , b - 1 by `mid`

  function Splice(rs: seq<Region>, a: nat, b: nat, mid: seq<Region>): seq<Region>
    requires a <= b <= |rs|
  {
    rs[..a] + mid + rs[b..]
  }

  lemma SpliceAt(rs: seq<Region>, a: nat, b: nat, mid: seq<Region>)
    requires a <= b <= |rs|
    ensures |Splice(rs, a, b, mid)| == a + |mid| + |rs| - b
    ensures forall i :: 0 <= i < a ==> Splice(rs, a, b, mid)[i] == rs[i]
    ensures forall i :: 0 <= i < |mid| ==> Splice(rs, a, b, mid)[a + i] == mid[i]
    ensures forall i :: b <= i < |rs| ==> Splice(rs, a, b, mid)[i - b + a + |mid|] == rs[i]
  {
  }

  /** Where element `i` of the new list comes from. */
  lemma SpliceFrom(rs: seq<Region>, a: nat, b: nat, mid: seq<Region>, i: nat)
    requires a <= b <= |rs| && i < |Splice(rs, a, b, mid)|
    ensures Splice(rs, a, b, mid)[i] == if i < a then rs[i] else if i < a + |mid| then mid[i - a]
              else rs[i - a - |mid| + b]
  {
  }

  predicate Fits(rs: seq<Region>, a: nat, b: nat, mid: seq<Region>, size: nat)
    requires a <= b <= |rs|
  {
    && |mid| <= 1
    && (mid != [] ==> mid[0].count > 0 && End(mid[0]) <= size)
    && (mid != [] && a > 0 ==> End(rs[a - 1]) < mid[0].start)
    && (mid != [] && b < |rs| ==> End(mid[0]) < rs[b].start)
  }

  lemma SpliceSorted(rs: seq<Region>, a: nat, b: nat, mid: seq<Region>, size: nat)
    requires Sorted(rs, size) && a <= b <= |rs| && Fits(rs, a, b, mid, size)
    ensures Sorted(Splice(rs, a, b, mid), size)
  {
    hide Splice;
    var r := Splice(rs, a, b, mid);
    SpliceAt(rs, a, b, mid);
    forall i | 0 <= i < |r|
      ensures r[i].count > 0 && End(r[i]) <= size
    {
      SpliceFrom(rs, a, b, mid, i);
    }
    forall i, j | 0 <= i < j < |r|
      ensures End(r[i]) < r[j].start
    {
      SpliceFrom(rs, a, b, mid, i);
      SpliceFrom(rs, a, b, mid, j);
    }
  }

  ghost predicate FreeIn(rs: seq<Region>, a: nat, b: nat, p: nat)
    requires a <= b <= |rs|
  {
    exists i :: a <= i < b && Holds(rs[i], p)
  }

  lemma SpliceFree(rs: seq<Region>, a: nat, b: nat, mid: seq<Region>, p: nat)
    requires a <= b <= |rs|
    ensures IsFree(Splice(rs, a, b, mid), p) <==> FreeIn(rs, 0, a, p) || IsFree(mid, p) || FreeIn(rs, b, |rs|, p)
    ensures IsFree(rs, p) <==> FreeIn(rs, 0, a, p) || FreeIn(rs, a, b, p) || FreeIn(rs, b, |rs|, p)
  {
    hide Splice;
    var r := Splice(rs, a, b, mid);
    SpliceAt(rs, a, b, mid);
    if IsFree(r, p) {
      var i :| 0 <= i < |r| && Holds(r[i], p);
      SpliceFrom(rs, a, b, mid, i);
    }
  }

  ghost function RecordAfter(rs: seq<Region>, a: nat, b: nat, mid: seq<Region>, p: nat, page: Page): Page
    requires a <= b <= |rs| && |mid| <= 1
  {
    if a > 0 && p == rs[a - 1].start then Page(First(rs, b, mid), rs[a - 1].count)
    else if mid != [] && p == mid[0].start then Page(Start(rs, b), mid[0].count)
    else if exists i :: a <= i < b && rs[i].start == p then CLEARED
    else page
  }

  function First(rs: seq<Region>, b: nat, mid: seq<Region>): nat {
    if mid == [] then Start(rs, b) else mid[0].start
  }

  /** The new records: the region before, if any, points to the new one or past the removed ones; the first
      frames of removed regions are cleared; nothing else changes. */
  ghost predicate Respliced(rs: seq<Region>, a: nat, b: nat, mid: seq<Region>, pages: seq<Page>, pages': seq<Page>)
    requires a <= b <= |rs| && |mid| <= 1
  {
    && |pages'| == |pages|
    && (forall p :: 0 <= p < |pages| ==> pages'[p] == RecordAfter(rs, a, b, mid, p, pages[p]))
  }

  lemma SpliceThreaded(rs: seq<Region>, a: nat, b: nat, mid: seq<Region>, head: nat, pages: seq<Page>, head': nat,
      pages': seq<Page>)
    requires Sorted(rs, |pages|) && Threaded(rs, head, pages) && a <= b <= |rs| && Fits(rs, a, b, mid, |pages|)
    requires Respliced(rs, a, b, mid, pages, pages')
    requires head' == if a > 0 then head else First(rs, b, mid)
    ensures Threaded(Splice(rs, a, b, mid), head', pages')
  {
    hide Splice;
    SpliceAt(rs, a, b, mid);
    forall p | 0 <= p < |pages|
      ensures RecordOk(Splice(rs, a, b, mid), p, pages'[p])
    {
      SpliceRecord(rs, a, b, mid, pages, pages', p);
    }
  }

  lemma SpliceRecord(rs: seq<Region>, a: nat, b: nat, mid: seq<Region>, pages: seq<Page>, pages': seq<Page>, p: nat)
    requires Sorted(rs, |pages|) && a <= b <= |rs| && Fits(rs, a, b, mid, |pages|)
    requires Respliced(rs, a, b, mid, pages, pages') && p < |pages| && RecordOk(rs, p, pages[p])
    ensures RecordOk(Splice(rs, a, b, mid), p, pages'[p])
  {
    hide Splice;
    var r := Splice(rs, a, b, mid);
    SpliceAt(rs, a, b, mid);
    if a > 0 && p == rs[a - 1].start {
      assert r[a - 1].start == p;
    } else if mid != [] && p == mid[0].start {
      assert r[a + 0].start == p;
    } else if i :| 0 <= i < |rs| && rs[i].start == p {
      if i < a {
        assert r[i].start == p;
      } else if b <= i {
        assert r[i - b + a + |mid|].start == p;
      } else {
        NotAStart(rs, a, b, mid, |pages|, p);
      }
    } else {
      NotAStart(rs, a, b, mid, |pages|, p);
    }
  }

  lemma NotAStart(rs: seq<Region>, a: nat, b: nat, mid: seq<Region>, size: nat, p: nat)
    requires Sorted(rs, size) && a <= b <= |rs| && (mid != [] ==> p != mid[0].start) && |mid| <= 1
    requires forall i :: 0 <= i < |rs| && rs[i].start == p ==> a <= i < b
    ensures forall i :: 0 <= i < |Splice(rs, a, b, mid)| ==> Splice(rs, a, b, mid)[i].start != p
  {
    hide Splice;
    forall i | 0 <= i < |Splice(rs, a, b, mid)|
      ensures Splice(rs, a, b, mid)[i].start != p
    {
      SpliceAt(rs, a, b, mid);
      SpliceFrom(rs, a, b, mid, i);
    }
  }

  // ----- freeing

  /** Where a region at `idx` belongs. */
  predicate Between(rs: seq<Region>, k: nat, idx: nat) {
    && k <= |rs|
    && (forall i :: 0 <= i < k ==> rs[i].start < idx)
    && (forall i :: k <= i < |rs| ==> idx < rs[i].start)
  }

  predicate JoinsLeft(rs: seq<Region>, k: nat, idx: nat) {
    0 < k <= |rs| && End(rs[k - 1]) == idx
  }

  predicate JoinsRight(rs: seq<Region>, k: nat, idx: nat, n: nat) {
    k < |rs| && idx + n == rs[k].start
  }

  /** The region that comes of freeing `n` frames at `idx`. */
  function Joined(rs: seq<Region>, k: nat, idx: nat, n: nat): Region {
    var r := if JoinsLeft(rs, k, idx) then Region(rs[k - 1].start, rs[k - 1].count + n) else Region(idx, n);
    if JoinsRight(rs, k, idx, n) then Region(r.start, r.count + rs[k].count) else r
  }

  function Low(rs: seq<Region>, k: nat, idx: nat): nat {
    if JoinsLeft(rs, k, idx) then k - 1 else k
  }

  function High(rs: seq<Region>, k: nat, idx: nat, n: nat): nat {
    if JoinsRight(rs, k, idx, n) then k + 1 else k
  }

  function Insert(rs: seq<Region>, k: nat, idx: nat, n: nat): seq<Region>
    requires k <= |rs|
  {
    Splice(rs, Low(rs, k, idx), High(rs, k, idx, n), [Joined(rs, k, idx, n)])
  }

  lemma Apart(rs: seq<Region>, k: nat, idx: nat, n: nat, size: nat)
    requires Sorted(rs, size) && Between(rs, k, idx) && NoneFree(rs, idx, n) && n > 0
    ensures k > 0 ==> End(rs[k - 1]) <= idx
    ensures k < |rs| ==> idx + n <= rs[k].start
  {
    assert !IsFree(rs, idx);
    if k > 0 {
      assert !Holds(rs[k - 1], idx);
    }
    if k < |rs| {
      RegionFree(rs, k, rs[k].start, 1);
      assert IsFree(rs, rs[k].start);
    }
  }

  lemma InsertFits(rs: seq<Region>, k: nat, idx: nat, n: nat, size: nat)
    requires Sorted(rs, size) && Between(rs, k, idx) && NoneFree(rs, idx, n) && n > 0 && idx + n <= size
    ensures Fits(rs, Low(rs, k, idx), High(rs, k, idx, n), [Joined(rs, k, idx, n)], size)
  {
    Apart(rs, k, idx, n, size);
  }

  /** Exactly the given frames become free. */
  lemma InsertFree(rs: seq<Region>, k: nat, idx: nat, n: nat, size: nat, p: nat)
    requires Sorted(rs, size) && Between(rs, k, idx) && NoneFree(rs, idx, n) && n > 0 && idx + n <= size
    ensures IsFree(Insert(rs, k, idx, n), p) <==> IsFree(rs, p) || idx <= p < idx + n
  {
    hide Splice, IsFree, FreeIn, NoneFree, Sorted;
    Apart(rs, k, idx, n, size);
    SpliceFree(rs, Low(rs, k, idx), High(rs, k, idx, n), [Joined(rs, k, idx, n)], p);
    OneRegion(Joined(rs, k, idx, n), p);
    JoinedHolds(rs, k, idx, n, p);
  }

  lemma OneRegion(r: Region, p: nat)
    ensures IsFree([r], p) <==> Holds(r, p)
  {
    assert [r][0] == r;
  }

  lemma JoinedHolds(rs: seq<Region>, k: nat, idx: nat, n: nat, p: nat)
    requires k <= |rs| && (k > 0 ==> End(rs[k - 1]) <= idx) && (k < |rs| ==> idx + n <= rs[k].start)
    ensures Holds(Joined(rs, k, idx, n), p) <==>
              FreeIn(rs, Low(rs, k, idx), High(rs, k, idx, n), p) || idx <= p < idx + n
  {
  }

  /** The record of frame `q` after `free_region`. */
  function Written(rs: seq<Region>, k: nat, idx: nat, n: nat, q: nat, page: Page): Page
    requires k <= |rs|
  {
    var r := Joined(rs, k, idx, n);
    if q == r.start then Page(Start(rs, High(rs, k, idx, n)), r.count)
    else if JoinsRight(rs, k, idx, n) && q == rs[k].start then CLEARED
    else if !JoinsLeft(rs, k, idx) && k > 0 && q == rs[k - 1].start then Page(idx, page.count)
    else page
  }

  lemma LinkSplices(rs: seq<Region>, k: nat, idx: nat, n: nat, head: nat, pages: seq<Page>, pages': seq<Page>)
    requires Sorted(rs, |pages|) && Threaded(rs, head, pages) && Between(rs, k, idx) && |pages'| == |pages| && n > 0
    requires forall q :: 0 <= q < |pages| ==> pages'[q] == Written(rs, k, idx, n, q, pages[q])
    ensures Respliced(rs, Low(rs, k, idx), High(rs, k, idx, n), [Joined(rs, k, idx, n)], pages, pages')
  {
    hide Threaded;
    if k > 0 { HeadRecord(rs, head, pages, k - 1); }
    if k > 1 { HeadRecord(rs, head, pages, k - 2); }
  }

  // ----- allocating

  /** The test of `alloc`, with the number of bytes as the machine computes it. */
  predicate Suits(r: Region, n: nat, limit: nat) {
    r.count >= n && r.start * PAGE + n * PAGE % WORDS < limit
  }

  /** Without a limit the last region that suits is taken, with one the first. */
  predicate Picked(rs: seq<Region>, n: nat, limit: nat, i: nat) {
    && i < |rs| && Suits(rs[i], n, limit)
    && (limit == UNLIMITED ==> forall j :: i < j < |rs| ==> !Suits(rs[j], n, limit))
    && (limit != UNLIMITED ==> forall j :: 0 <= j < i ==> !Suits(rs[j], n, limit))
  }

  lemma PickedUnique(rs: seq<Region>, n: nat, limit: nat, i: nat, j: nat)
    requires Picked(rs, n, limit, i) && Picked(rs, n, limit, j)
    ensures i == j
  {
  }

  /** The region that an allocation would take ends within the limit. */
  ghost predicate TailWithin(rs: seq<Region>, n: nat, limit: nat) {
    exists j: nat :: Picked(rs, n, limit, j) && End(rs[j]) * PAGE <= limit
  }

  lemma TailIs(rs: seq<Region>, n: nat, limit: nat, i: nat)
    requires Picked(rs, n, limit, i)
    ensures TailWithin(rs, n, limit) <==> End(rs[i]) * PAGE <= limit
  {
    hide Suits;
    if j: nat :| Picked(rs, n, limit, j) && End(rs[j]) * PAGE <= limit {
      PickedUnique(rs, n, limit, i, j);
    }
  }

  /** What stays of a region whose last `n` frames are taken. */
  function Rest(r: Region, n: nat): seq<Region>
    requires n <= r.count
  {
    if r.count == n then [] else [Region(r.start, r.count - n)]
  }

  function Take(rs: seq<Region>, i: nat, n: nat): seq<Region>
    requires i < |rs| && n <= rs[i].count
  {
    Splice(rs, i, i + 1, Rest(rs[i], n))
  }

  lemma RestFits(rs: seq<Region>, i: nat, n: nat, size: nat)
    requires Sorted(rs, size) && i < |rs| && n <= rs[i].count
    ensures Fits(rs, i, i + 1, Rest(rs[i], n), size)
  {
  }

  /** Exactly the last `n` frames of the region stop being free. */
  lemma TakeFree(rs: seq<Region>, i: nat, n: nat, size: nat, p: nat)
    requires Sorted(rs, size) && i < |rs| && n <= rs[i].count
    ensures IsFree(Take(rs, i, n), p) <==> IsFree(rs, p) && !(End(rs[i]) - n <= p < End(rs[i]))
  {
    hide Splice;
    SpliceFree(rs, i, i + 1, Rest(rs[i], n), p);
    if n < rs[i].count {
      OneRegion(Rest(rs[i], n)[0], p);
    }
    assert FreeIn(rs, i, i + 1, p) <==> Holds(rs[i], p);
  }

  /** A region suits exactly when `n` consecutive free frames end below the limit. */
  lemma SuitsIff(rs: seq<Region>, n: nat, limit: nat, size: nat)
    requires Sorted(rs, size) && size * PAGE < NO_PAGE && n > 0
    ensures (exists i :: 0 <= i < |rs| && Suits(rs[i], n, limit)) <==> FreeBelow(rs, n, limit)
  {
    if p: nat :| AllFree(rs, p, n) && (p + n) * PAGE < limit {
      var i := RunInRegion(rs, size, p, n);
      assert Suits(rs[i], n, limit);
    }
    if i :| 0 <= i < |rs| && Suits(rs[i], n, limit) {
      RegionFree(rs, i, rs[i].start, n);
    }
  }

  ghost predicate FreeBelow(rs: seq<Region>, n: nat, limit: nat) {
    exists p: nat :: AllFree(rs, p, n) && (p + n) * PAGE < limit
  }

  /** Without a limit, suitable means large enough. */
  lemma Unlimited(rs: seq<Region>, n: nat, size: nat)
    requires Sorted(rs, size) && size * PAGE < NO_PAGE && n > 0
    ensures FreeBelow(rs, n, UNLIMITED) <==> exists p: nat :: AllFree(rs, p, n)
  {
    if p: nat :| AllFree(rs, p, n) {
      var i := RunInRegion(rs, size, p, n);
    }
  }

  /** The address bound of a limited allocation fails: a region that starts below 1 MiB and ends above it
      gives out frames above it, although lower ones are free. */
  lemma LimitExceeded()
    ensures var rs := [Region(0, 512)];
            Sorted(rs, 512) && FreeBelow(rs, 1, KERNEL20) && Picked(rs, 1, KERNEL20, 0)
            && (End(rs[0]) - 1) * PAGE >= KERNEL20 && !TailWithin(rs, 1, KERNEL20)
  {
    var rs := [Region(0, 512)];
    RegionFree(rs, 0, 0, 1);
    assert (0 + 1) * PAGE < KERNEL20;
    TailIs(rs, 1, KERNEL20, 0);
  }

  class Pmm {
    var head: nat
    const pages: array<Page>
    ghost var regions: seq<Region>

    /** Every frame has an address, and the records thread exactly the regions. */
    ghost predicate Valid()
      reads this, pages
    {
      && pages.Length * PAGE < NO_PAGE
      && Sorted(regions, pages.Length)
      && Threaded(regions, head, pages[..])
    }

    lemma Record(i: nat)
      requires Valid() && i < |regions|
      ensures regions[i].start < pages.Length
                && pages[regions[i].start] == Page(Start(regions, i + 1), regions[i].count)
    {
      HeadRecord(regions, head, pages[..], i);
    }

    /** The walk of `free_region` to the place of a region at `idx`. */
    method FindPlace(idx: nat) returns (prev: Option<nat>, cur: nat, ghost k: nat)
      requires Valid() && idx < pages.Length && !IsFree(regions, idx)
      ensures Between(regions, k, idx) && cur == Start(regions, k)
      ensures prev == if k == 0 then None else Some(regions[k - 1].start)
    {
      hide Threaded, IsFree;
      StartIs();
      prev, cur, k := None, head, 0;
      while cur != NO_PAGE && cur < idx
        invariant k <= |regions| && cur == Start(regions, k)
        invariant prev == if k == 0 then None else Some(regions[k - 1].start)
        invariant forall i :: 0 <= i < k ==> regions[i].start < idx
        decreases |regions| - k
      {
        Bounded(k);
        Record(k);
        prev, cur, k := Some(cur), pages[cur].next, k + 1;
      }
      Beyond(k, idx);
    }

    lemma StartIs()
      requires Valid()
      ensures head == Start(regions, 0)
    {
    }

    lemma Bounded(k: nat)
      requires Valid()
      ensures Start(regions, k) == NO_PAGE <==> k >= |regions|
    {
    }

    lemma Beyond(k: nat, idx: nat)
      requires Valid() && k <= |regions| && !IsFree(regions, idx)
                && (Start(regions, k) == NO_PAGE || Start(regions, k) >= idx)
      ensures forall i :: k <= i < |regions| ==> idx < regions[i].start
    {
      Bounded(k);
      if k < |regions| {
        assert !Holds(regions[k], idx);
      }
    }

    /** The records written by `free_region`. */
    method Link(prev: Option<nat>, next: Option<nat>, idx: nat, n: nat, ghost k: nat)
      requires Valid() && Between(regions, k, idx) && n > 0 && idx + n <= pages.Length
      requires prev == if k == 0 then None else Some(regions[k - 1].start)
      requires next == if k == |regions| then None else Some(regions[k].start)
      modifies this`head, pages
      ensures head == if k > 0 then old(head) else Joined(regions, k, idx, n).start
      ensures forall q :: 0 <= q < pages.Length ==> pages[q] == Written(regions, k, idx, n, q, old(pages[q]))
    {
      hide Threaded, IsFree, Sorted;
      NotAHead(k, idx);
      if k > 0 { Record(k - 1); }
      if k < |regions| { Record(k); }
      if prev.Some? && prev.value + pages[prev.value].count == idx {
        var p := prev.value;
        pages[p] := pages[p].(count := pages[p].count + n);
        pages[idx] := pages[idx].(next := NO_PAGE);
        if next.Some? && p + pages[p].count == next.value {
          var m := next.value;
          pages[p] := Page(pages[m].next, pages[p].count + pages[m].count);
          pages[m] := Page(NO_PAGE, 0);
        }
      } else if next.Some? && idx + n == next.value {
        var m := next.value;
        pages[idx] := Page(pages[m].next, n + pages[m].count);
        pages[m] := Page(NO_PAGE, 0);
        if prev.Some? {
          pages[prev.value] := pages[prev.value].(next := idx);
        } else {
          head := idx;
        }
      } else {
        pages[idx] := Page(if next.Some? then next.value else NO_PAGE, n);
        if prev.Some? {
          pages[prev.value] := pages[prev.value].(next := idx);
        } else {
          head := idx;
        }
      }
    }

    lemma NotAHead(k: nat, idx: nat)
      requires Valid() && Between(regions, k, idx) && idx < pages.Length
      ensures pages[idx] == CLEARED
    {
      assert RecordOk(regions, idx, pages[..][idx]);
    }

    /** `free_region`: exactly the given frames become free, and the list stays sorted and coalesced. */
    method FreeRegion(idx: nat, n: nat)
      requires Valid() && n > 0 && idx + n <= pages.Length && NoneFree(regions, idx, n)
      modifies this, pages
      ensures Valid()
      ensures forall p: nat :: IsFree(regions, p) <==> old(IsFree(regions, p)) || idx <= p < idx + n
    {
      hide IsFree, Threaded, Sorted, Fits, Splice, NoneFree, RecordAfter;
      StartIs();
      NotFreeAt(regions, idx, n);
      var prev, cur; ghost var k;
      prev, cur, k := FindPlace(idx);
      var next := if cur == NO_PAGE then None else Some(cur);
      Bounded(k);
      ghost var a, b, mid := Low(regions, k, idx), High(regions, k, idx, n), [Joined(regions, k, idx, n)];
      Apart(regions, k, idx, n, pages.Length);
      InsertFits(regions, k, idx, n, pages.Length);
      if k > 0 { Record(k - 1); }
      if k < |regions| { Record(k); }
      Link(prev, next, idx, n, k);
      LinkSplices(regions, k, idx, n, old(head), old(pages[..]), pages[..]);
      SpliceSorted(regions, a, b, mid, pages.Length);
      SpliceThreaded(regions, a, b, mid, old(head), old(pages[..]), head, pages[..]);
      forall p: nat
        ensures IsFree(Insert(regions, k, idx, n), p) <==> IsFree(regions, p) || idx <= p < idx + n
      {
        InsertFree(regions, k, idx, n, pages.Length, p);
      }
      regions := Insert(regions, k, idx, n);
    }

    /** The walk of `alloc`. */
    method Choose(n: nat, limit: nat) returns (chosen: Option<nat>, prev: Option<nat>, ghost k: nat)
      requires Valid()
      ensures chosen.None? ==> forall i :: 0 <= i < |regions| ==> !Suits(regions[i], n, limit)
      ensures chosen.Some? ==> Picked(regions, n, limit, k) && chosen.value == regions[k].start
      ensures chosen.Some? ==> prev == if k == 0 then None else Some(regions[k - 1].start)
    {
      hide Threaded, Suits;
      StartIs();
      var bytes := n * PAGE % WORDS;
      var it, last: Option<nat> := head, None;
      ghost var i := 0;
      chosen, prev, k := None, None, 0;
      while it != NO_PAGE
        invariant i <= |regions| && it == Start(regions, i)
        invariant last == if i == 0 then None else Some(regions[i - 1].start)
        invariant chosen.None? ==> forall j :: 0 <= j < i ==> !Suits(regions[j], n, limit)
        invariant chosen.Some? ==>
                  k < i && Suits(regions[k], n, limit) && limit == UNLIMITED && chosen.value == regions[k].start
        invariant chosen.Some? ==> forall j :: k < j < i ==> !Suits(regions[j], n, limit)
        invariant chosen.Some? ==> prev == if k == 0 then None else Some(regions[k - 1].start)
        decreases |regions| - i
      {
        Bounded(i);
        Record(i);
        SuitsIs(regions[i], n, limit);
        var idx := it;
        if pages[idx].count >= n && idx * PAGE + bytes < limit {
          chosen, prev, k := Some(idx), last, i;
          if limit != UNLIMITED {
            break;
          }
        }
        last, it, i := Some(idx), pages[idx].next, i + 1;
      }
      Bounded(i);
    }

    lemma AllocSucceeds(n: nat, limit: nat)
      requires Valid()
      ensures n > 0 ==>
                (FreeBelow(regions, n, limit) <==> exists i :: 0 <= i < |regions| && Suits(regions[i], n, limit))
      ensures n == 0 ==> forall i :: 0 <= i < |regions| ==>
                (Suits(regions[i], n, limit) <==> regions[i].start * PAGE < limit)
    {
      if n > 0 {
        SuitsIff(regions, n, limit, pages.Length);
      }
    }

    /** The records written by `alloc` once a region is chosen; the result is the first frame given out. */
    method Unlink(idx: nat, prev: Option<nat>, n: nat, ghost i: nat) returns (frame: nat)
      requires Valid() && i < |regions| && idx == regions[i].start && n <= regions[i].count
      requires prev == if i == 0 then None else Some(regions[i - 1].start)
      modifies this`head, pages
      ensures frame == End(regions[i]) - n
      ensures Respliced(regions, i, i + 1, Rest(regions[i], n), old(pages[..]), pages[..])
      ensures head == if i > 0 then old(head) else First(regions, i + 1, Rest(regions[i], n))
    {
      hide Threaded;
      StartIs();
      Record(i);
      if i > 0 { Record(i - 1); }
      if pages[idx].count == n {
        frame := idx;
        if prev.Some? {
          pages[prev.value] := pages[prev.value].(next := pages[idx].next);
        } else {
          head := pages[idx].next;
        }
        pages[idx] := Page(NO_PAGE, 0);
      } else {
        pages[idx] := pages[idx].(count := pages[idx].count - n);
        frame := idx + pages[idx].count;
      }
    }

    /** `alloc`.  It succeeds exactly when `n` consecutive free frames end below the limit; the frames
        handed out are the last ones of the region taken, all of them were free, and they alone stop being
        free.  The address bound holds exactly when the region that the list had ready for it ends within it. */
    method Alloc(n: nat, kernel20: bool, kernel32: bool) returns (addr: Option<nat>, ghost limit: nat, ghost i: nat)
      requires Valid() && n < WORDS
      modifies this, pages
      ensures Valid()
      ensures limit == if kernel20 then KERNEL20 else if kernel32 then KERNEL32 else UNLIMITED
      ensures n > 0 ==> (addr.Some? <==> old(FreeBelow(regions, n, limit)))
      ensures n == 0 ==> (addr.Some? <==> exists j :: 0 <= j < |old(regions)| && old(regions)[j].start * PAGE < limit)
      ensures addr.None? ==> unchanged(this) && pages[..] == old(pages[..])
      ensures addr.Some? ==>
                && Picked(old(regions), n, limit, i) && addr.value == (End(old(regions)[i]) - n) * PAGE
                && AllFree(old(regions), addr.value / PAGE, n)
      ensures addr.Some? ==> forall p: nat ::
                IsFree(regions, p) <==> old(IsFree(regions, p)) && !(addr.value / PAGE <= p < addr.value / PAGE + n)
      ensures addr.Some? ==> (addr.value + n * PAGE <= limit <==> old(TailWithin(regions, n, limit)))
    {
      hide TailWithin, Threaded, Sorted, IsFree, FreeBelow, AllFree, Splice, RecordAfter;
      var bound := if kernel20 then KERNEL20 else if kernel32 then KERNEL32 else UNLIMITED;
      limit := bound;
      var chosen, prev;
      chosen, prev, i := Choose(n, bound);
      AllocSucceeds(n, limit);
      addr := None;
      if chosen.Some? {
        StartIs();
        Record(i);
        TailIs(regions, n, limit, i);
        RestFits(regions, i, n, pages.Length);
        RegionFree(regions, i, End(regions[i]) - n, n);
        forall p: nat
          ensures IsFree(Take(regions, i, n), p) <==>
                    IsFree(regions, p) && !(End(regions[i]) - n <= p < End(regions[i]))
        {
          TakeFree(regions, i, n, pages.Length, p);
        }
        var frame := Unlink(chosen.value, prev, n, i);
        addr := Some(frame * PAGE);
        SpliceSorted(regions, i, i + 1, Rest(regions[i], n), pages.Length);
        SpliceThreaded(regions, i, i + 1, Rest(regions[i], n), old(head), old(pages[..]), head, pages[..]);
        regions := Take(regions, i, n);
      }
    }

    /** `dealloc_inner`. */
    method Dealloc(addr: nat, n: nat)
      requires Valid() && addr / PAGE + n <= pages.Length && NoneFree(regions, addr / PAGE, n)
      modifies this, pages
      ensures Valid()
      ensures forall p: nat :: IsFree(regions, p) <==> old(IsFree(regions, p)) || addr / PAGE <= p < addr / PAGE + n
    {
      if n != 0 {
        FreeRegion(addr / PAGE, n);
      }
    }

    /** `init`: exactly the whole pages of the usable entries become free. */
    constructor (memoryMap: seq<Entry>, size: nat)
      requires size * PAGE < NO_PAGE && Disjoint(memoryMap, size)
      ensures Valid() && fresh(pages) && pages.Length == size
      ensures forall p: nat :: IsFree(regions, p) <==> Usable(memoryMap, |memoryMap|, p)
    {
      head := NO_PAGE;
      pages := new Page[size](_ => CLEARED);
      regions := [];
      new;
      for k := 0 to |memoryMap|
        invariant Valid()
        invariant forall p: nat :: IsFree(regions, p) <==> Usable(memoryMap, k, p)
      {
        if memoryMap[k].length >= PAGE && memoryMap[k].usable {
          EntryUnused(memoryMap, size, k, regions);
          FreeRegion(memoryMap[k].address / PAGE, memoryMap[k].length / PAGE);
        }
      }
    }
  }

  /** An entry of the boot memory map. */
  datatype Entry = Entry(address: nat, length: nat, usable: bool)

  predicate Counts(e: Entry) {
    e.usable && e.length >= PAGE
  }

  /** Frame `p` is one of those that `init` makes of the entry. */
  predicate Covers(e: Entry, p: nat) {
    Counts(e) && e.address / PAGE <= p < e.address / PAGE + e.length / PAGE
  }

  ghost predicate Usable(entries: seq<Entry>, k: nat, p: nat)
    requires k <= |entries|
  {
    exists i :: 0 <= i < k && Covers(entries[i], p)
  }

  ghost predicate Disjoint(entries: seq<Entry>, size: nat) {
    && (forall i :: 0 <= i < |entries| && Counts(entries[i]) ==>
        entries[i].address / PAGE + entries[i].length / PAGE <= size)
    && (forall i, j, p: nat :: 0 <= i < j < |entries| && Covers(entries[i], p) ==> !Covers(entries[j], p))
  }

  lemma EntryUnused(entries: seq<Entry>, size: nat, k: nat, rs: seq<Region>)
    requires k < |entries| && Disjoint(entries, size) && Counts(entries[k])
    requires forall p: nat :: IsFree(rs, p) <==> Usable(entries, k, p)
    ensures NoneFree(rs, entries[k].address / PAGE, entries[k].length / PAGE)
  {
    forall p: nat | entries[k].address / PAGE <= p < entries[k].address / PAGE + entries[k].length / PAGE
      ensures !IsFree(rs, p)
    {
      assert Covers(entries[k], p);
    }
  }

  /** Two lists over the same frames that have the same free frames agree in every record: allocating and
      freeing again restores the list exactly. */
  lemma SameRecords(a: seq<Region>, heada: nat, pagesa: seq<Page>, b: seq<Region>, headb: nat, pagesb: seq<Page>)
    requires |pagesa| == |pagesb| && Sorted(a, |pagesa|) && Sorted(b, |pagesb|)
    requires Threaded(a, heada, pagesa) && Threaded(b, headb, pagesb) && SameFree(a, b)
    ensures heada == headb && pagesa == pagesb
  {
    Canonical(a, b, |pagesa|);
    forall p | 0 <= p < |pagesa|
      ensures pagesa[p] == pagesb[p]
    {
      assert RecordOk(a, p, pagesa[p]) && RecordOk(b, p, pagesb[p]);
    }
  }


  lemma SuitsIs(r: Region, n: nat, limit: nat)
    ensures Suits(r, n, limit) <==> r.count >= n && r.start * PAGE + n * PAGE % WORDS < limit
  {
  }

  lemma NotFreeAt(rs: seq<Region>, idx: nat, n: nat)
    requires NoneFree(rs, idx, n) && n > 0
    ensures !IsFree(rs, idx)
  {
  }
}
