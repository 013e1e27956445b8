/**
  Reading file pages from ext2 (`drivers/fs/ext2/src/inode.rs`): `fill_pages` gathers disk blocks into
  extents and reads each extent into a list of memory segments; `try_get_page` reads block by block.  Both
  are proved against the bytes of the file.
  */
module Ext2Pager {
  import opened Common
  import opened Ext2Layout
  import Arith

  /** The first logical block of a page, and the offset in the file of byte `o` of it. */
  function FirstBlock(v: Volume, page: nat): nat
    requires v.blockSize != 0
  {
    page * v.pageSize / v.blockSize
  }

  function OffsetOf(v: Volume, page: nat, o: nat): nat {
    page * v.pageSize + o
  }

  /** Everything that the two readers look at: the device, the sizes, and the block map of the file. */
  datatype Volume = Volume(device: seq<Byte>, lbaSize: nat, blockSize: nat, pageSize: nat, resolve: nat -> nat)

  /** The `fast` guard of `try_get_pages`. */
  predicate Fast(v: Volume) {
    && v.lbaSize != 0 && v.blockSize != 0 && v.pageSize != 0
    && v.blockSize % v.lbaSize == 0 && v.pageSize % v.blockSize == 0
  }

  /** Every mapped block lies on the device. */
  ghost predicate OnDevice(v: Volume) {
    forall l: nat :: v.resolve(l) != 0 ==> Arith.Times(v.resolve(l), v.blockSize) + v.blockSize <= |v.device|
  }

  function Disk(v: Volume, block: nat): seq<Byte>
    requires Arith.Times(block, v.blockSize) + v.blockSize <= |v.device|
  {
    v.device[Arith.Times(block, v.blockSize)..Arith.Times(block, v.blockSize) + v.blockSize]
  }

  /** Logical block `l` of the file; a hole reads as zeros. */
  ghost function Block(v: Volume, l: nat): (b: seq<Byte>)
    requires OnDevice(v)
    ensures |b| == v.blockSize
  {
    if v.resolve(l) == 0 then Zeros(v.blockSize) else Disk(v, v.resolve(l))
  }

  /** Byte `x` of the file. */
  ghost function FileByte(v: Volume, x: nat): Byte
    requires OnDevice(v) && v.blockSize > 0
  {
    Block(v, x / v.blockSize)[x % v.blockSize]
  }

  // ----- memory

  datatype Segment = Segment(phys: nat, len: nat)

  function Write(m: seq<Byte>, at: nat, data: seq<Byte>): (r: seq<Byte>)
    requires at + |data| <= |m|
    ensures |r| == |m|
  {
    m[..at] + data + m[at + |data|..]
  }

  predicate InMemory(m: seq<Byte>, segs: seq<Segment>) {
    forall i :: 0 <= i < |segs| ==> segs[i].phys + segs[i].len <= |m|
  }

  function Length(segs: seq<Segment>): nat {
    if segs == [] then 0 else segs[0].len + Length(segs[1..])
  }

  /** What the device does with one request: the bytes go to the segments in order. */
  function Scatter(m: seq<Byte>, segs: seq<Segment>, data: seq<Byte>): (r: seq<Byte>)
    requires InMemory(m, segs) && Length(segs) == |data|
    ensures |r| == |m|
    decreases |segs|
  {
    if segs == [] then m
    else Scatter(Write(m, segs[0].phys, data[..segs[0].len]), segs[1..], data[segs[0].len..])
  }

  lemma {:induction false} LengthSnoc(segs: seq<Segment>, s: Segment)
    ensures Length(segs + [s]) == Length(segs) + s.len
  {
    if segs == [] {
      assert segs + [s] == [s];
    } else {
      LengthSnoc(segs[1..], s);
      assert (segs + [s])[1..] == segs[1..] + [s];
    }
  }

  /** One more segment is one more write. */
  lemma {:induction false} ScatterSnoc(m: seq<Byte>, segs: seq<Segment>, data: seq<Byte>, s: Segment, more: seq<Byte>)
    requires InMemory(m, segs + [s]) && Length(segs) == |data| && s.len == |more|
    ensures Length(segs + [s]) == |data + more| && InMemory(m, segs) && s.phys + s.len <= |m|
    ensures Scatter(m, segs + [s], data + more) == Write(Scatter(m, segs, data), s.phys, more)
    decreases |segs|
  {
    LengthSnoc(segs, s);
    assert (segs + [s])[|segs|] == s;
    assert forall i :: 0 <= i < |segs| ==> segs[i] == (segs + [s])[i];
    if segs == [] {
      assert segs + [s] == [s] && data + more == more;
      assert more[..s.len] == more;
      assert Scatter(m, [s], more) == Scatter(Write(m, s.phys, more), [], []);
    } else {
      var n := segs[0].len;
      assert (segs + [s])[1..] == segs[1..] + [s] && (data + more)[n..] == data[n..] + more
          && (data + more)[..n] == data[..n];
      ScatterSnoc(Write(m, segs[0].phys, data[..n]), segs[1..], data[n..], s, more);
    }
  }

  lemma WriteTwice(m: seq<Byte>, at: nat, x: seq<Byte>, y: seq<Byte>)
    requires at + |x| + |y| <= |m|
    ensures Write(Write(m, at, x), at + |x|, y) == Write(m, at, x + y)
  {
  }

  /** Making the last segment longer is one more write as well. */
  lemma ScatterGrow(m: seq<Byte>, segs: seq<Segment>, data: seq<Byte>, more: seq<Byte>)
    requires segs != [] && Length(segs) == |data| && InMemory(m, Grown(segs, |more|))
    ensures Length(Grown(segs, |more|)) == |data + more| && InMemory(m, segs)
    ensures segs[|segs| - 1].phys + segs[|segs| - 1].len + |more| <= |m|
    ensures var last := segs[|segs| - 1];
            Scatter(m, Grown(segs, |more|), data + more) == Write(Scatter(m, segs, data), last.phys + last.len, more)
  {
    hide Scatter, Length, Write, InMemory;
    var front, last := segs[..|segs| - 1], segs[|segs| - 1];
    assert segs == front + [last];
    LengthSnoc(front, last);
    var d1, d2 := SplitData(data, Length(front), more);
    GrowLast(m, front, last, d1, d2, more);
  }

  lemma SplitData(data: seq<Byte>, n: nat, more: seq<Byte>) returns (d1: seq<Byte>, d2: seq<Byte>)
    requires n <= |data|
    ensures |d1| == n && data == d1 + d2 && data + more == d1 + (d2 + more)
  {
    d1, d2 := data[..n], data[n..];
  }

  lemma GrowLast(m: seq<Byte>, front: seq<Segment>, last: Segment, d1: seq<Byte>, d2: seq<Byte>, more: seq<Byte>)
    requires Length(front) == |d1| && last.len == |d2| && InMemory(m, front + [Segment(last.phys, last.len + |more|)])
    ensures InMemory(m, front + [last]) && last.phys + last.len + |more| <= |m|
    ensures Length(front + [last]) == |d1 + d2|
    ensures Length(front + [Segment(last.phys, last.len + |more|)]) == |d1 + (d2 + more)|
    ensures Scatter(m, front + [Segment(last.phys, last.len + |more|)], d1 + (d2 + more))
         == Write(Scatter(m, front + [last], d1 + d2), last.phys + last.len, more)
  {
    hide Scatter, Length, Write;
    var longer := Segment(last.phys, last.len + |more|);
    assert (front + [longer])[|front|] == longer;
    assert forall i :: 0 <= i < |front| ==> front[i] == (front + [longer])[i];
    ScatterSnoc(m, front, d1, last, d2);
    ScatterSnoc(m, front, d1, longer, d2 + more);
    WriteTwice(Scatter(m, front, d1), last.phys, d2, more);
  }

  function Grown(segs: seq<Segment>, n: nat): seq<Segment>
    requires segs != []
  {
    segs[..|segs| - 1] + [Segment(segs[|segs| - 1].phys, segs[|segs| - 1].len + n)]
  }

  // ----- block by block

  function BlocksPerPage(v: Volume): nat
    requires v.blockSize != 0
  {
    if v.pageSize / v.blockSize == 0 then 1 else v.pageSize / v.blockSize
  }

  ghost predicate PagesIn(v: Volume, m: seq<Byte>, pages: seq<nat>) {
    forall i :: 0 <= i < |pages| ==> pages[i] + v.pageSize <= |m|
  }

  /** Where block `b` of the request goes. */
  function Place(v: Volume, pages: seq<nat>, b: nat): nat
    requires Fast(v) && b / BlocksPerPage(v) < |pages|
  {
    pages[b / BlocksPerPage(v)] + Arith.Times(b % BlocksPerPage(v), v.blockSize)
  }

  lemma PlaceIn(v: Volume, m: seq<Byte>, pages: seq<nat>, b: nat)
    requires Fast(v) && PagesIn(v, m, pages) && b < Arith.Times(|pages|, BlocksPerPage(v))
    ensures b / BlocksPerPage(v) < |pages|
    ensures Arith.Times(b % BlocksPerPage(v), v.blockSize) + v.blockSize <= v.pageSize
    ensures Place(v, pages, b) + v.blockSize <= |m|
  {
    hide Arith.Times, Fast, BlocksPerPage;
    PageSizeIs(v);
    var n := BlocksPerPage(v);
    Quotient(b, n, |pages|);
    Arith.RowFits(b % n, n, v.blockSize);
  }

  lemma PageSizeIs(v: Volume)
    requires Fast(v)
    ensures v.blockSize > 0 && v.lbaSize > 0 && BlocksPerPage(v) > 0
    ensures v.pageSize == Arith.Times(BlocksPerPage(v), v.blockSize)
  {
    var q := v.pageSize / v.blockSize;
    assert v.pageSize == q * v.blockSize;
  }

  lemma Quotient(b: nat, n: nat, p: nat)
    requires n > 0 && b < Arith.Times(p, n)
    ensures b / n < p
  {
    if b / n >= p {
      Arith.MulMono(p, b / n, n);
    }
  }

  /** The memory after the first `b` blocks are read one at a time. */
  ghost function Naive(v: Volume, m: seq<Byte>, pages: seq<nat>, first: nat, b: nat): (r: seq<Byte>)
    requires Fast(v) && OnDevice(v) && PagesIn(v, m, pages) && b <= Arith.Times(|pages|, BlocksPerPage(v))
    ensures |r| == |m|
  {
    if b == 0 then m
    else
      var r := Naive(v, m, pages, first, b - 1);
      PlaceIn(v, m, pages, b - 1);
      if v.resolve(first + b - 1) == 0 then r
      else Write(r, Place(v, pages, b - 1), Block(v, first + b - 1))
  }

  /** The memory after all pages are read one block at a time. */
  ghost function Filled(v: Volume, m: seq<Byte>, pages: seq<nat>, pageIndex: nat): (r: seq<Byte>)
    requires Fast(v) && OnDevice(v) && PagesIn(v, m, pages)
    ensures |r| == |m|
  {
    Naive(v, m, pages, FirstBlock(v, pageIndex), Arith.Times(|pages|, BlocksPerPage(v)))
  }

  // ----- extents

  /** `count` blocks of the device from `base` on. */
  function Run(v: Volume, base: nat, count: nat): seq<Byte>
    requires Arith.Times(base, v.blockSize) <= Arith.Times(base + count, v.blockSize) <= |v.device|
  {
    v.device[Arith.Times(base, v.blockSize)..Arith.Times(base + count, v.blockSize)]
  }

  lemma RunNext(v: Volume, base: nat, count: nat)
    requires Arith.Times(base + count, v.blockSize) + v.blockSize <= |v.device|
    ensures Arith.Times(base, v.blockSize) <= Arith.Times(base + count, v.blockSize)
    ensures Arith.Times(base + count + 1, v.blockSize) == Arith.Times(base + count, v.blockSize) + v.blockSize
    ensures Run(v, base, count + 1) == Run(v, base, count) + Disk(v, base + count)
  {
    Arith.TimesAdd(base, count, v.blockSize);
    Arith.TimesAdd(base + count, 1, v.blockSize);
    Arith.TimesOne(v.blockSize);
  }

  /** The reads still to be made: the extent starts at disk block `base` and has `count` blocks. */
  ghost predicate Pending(v: Volume, m: seq<Byte>, base: nat, count: nat, segs: seq<Segment>, goal: seq<Byte>) {
    && count > 0 && segs != [] && InMemory(m, segs)
    && Arith.Times(base, v.blockSize) <= Arith.Times(base + count, v.blockSize) <= |v.device|
    && Length(segs) == Arith.Times(base + count, v.blockSize) - Arith.Times(base, v.blockSize)
    && Scatter(m, segs, Run(v, base, count)) == goal
  }

  /** The extent that starts with one block. */
  lemma PendingStart(v: Volume, m: seq<Byte>, disk: nat, at: nat)
    requires Arith.Times(disk, v.blockSize) + v.blockSize <= |v.device| && at + v.blockSize <= |m|
    ensures Pending(v, m, disk, 1, [Segment(at, v.blockSize)], Write(m, at, Disk(v, disk)))
  {
    var s := Segment(at, v.blockSize);
    RunNext(v, disk, 0);
    assert Run(v, disk, 0) == [];
    assert [] + [s] == [s] && [] + Disk(v, disk) == Disk(v, disk);
    ScatterSnoc(m, [], [], s, Disk(v, disk));
  }

  /** The extent that takes in the next block, in a new segment or at the end of the last one. */
  lemma PendingNext(v: Volume, m: seq<Byte>, base: nat, count: nat, segs: seq<Segment>, goal: seq<Byte>, at: nat)
    requires Pending(v, m, base, count, segs, goal)
              && Arith.Times(base + count, v.blockSize) + v.blockSize <= |v.device|
    requires at + v.blockSize <= |m| && |goal| == |m|
    ensures Pending(v, m, base, count + 1, segs + [Segment(at, v.blockSize)], Write(goal, at, Disk(v, base + count)))
    ensures segs[|segs| - 1].phys + segs[|segs| - 1].len == at ==>
              Pending(v, m, base, count + 1, Grown(segs, v.blockSize), Write(goal, at, Disk(v, base + count)))
  {
    hide Scatter, Length, Run, Disk;
    RunNext(v, base, count);
    RunLength(v, base, count);
    var more := Disk(v, base + count);
    ScatterSnoc(m, segs, Run(v, base, count), Segment(at, v.blockSize), more);
    if segs[|segs| - 1].phys + segs[|segs| - 1].len == at {
      ScatterGrow(m, segs, Run(v, base, count), more);
    }
  }

  lemma RunLength(v: Volume, base: nat, count: nat)
    requires Arith.Times(base, v.blockSize) <= Arith.Times(base + count, v.blockSize)
    requires Arith.Times(base + count, v.blockSize) + v.blockSize <= |v.device|
    ensures |Run(v, base, count)| == Arith.Times(base + count, v.blockSize) - Arith.Times(base, v.blockSize)
    ensures |Disk(v, base + count)| == v.blockSize
  {
  }

  /** `read_extent`: a single request to the device. */
  method ReadExtent(v: Volume, m: seq<Byte>, startLba: nat, lbas: nat, segs: seq<Segment>,
                    ghost base: nat, ghost count: nat, ghost goal: seq<Byte>)
    returns (r: seq<Byte>)
    requires Fast(v) && Pending(v, m, base, count, segs, goal)
    requires startLba == Arith.Times(base, v.blockSize / v.lbaSize)
              && lbas == Arith.Times(count, v.blockSize / v.lbaSize)
    ensures r == goal
  {
    hide Scatter, Length;
    if segs == [] {
      return m;
    }
    LbaBytes(v, base);
    LbaBytes(v, count);
    Arith.TimesAdd(base, count, v.blockSize);
    r := Scatter(m, segs, v.device[startLba * v.lbaSize..startLba * v.lbaSize + lbas * v.lbaSize]);
  }

  lemma LbaBytes(v: Volume, n: nat)
    requires Fast(v)
    ensures Arith.Times(n, v.blockSize / v.lbaSize) * v.lbaSize == Arith.Times(n, v.blockSize)
  {
    var q := v.blockSize / v.lbaSize;
    assert q * v.lbaSize == v.blockSize;
    assert (n * q) * v.lbaSize == n * (q * v.lbaSize);
  }

  lemma NaiveNext(v: Volume, m: seq<Byte>, pages: seq<nat>, first: nat, b: nat)
    requires Fast(v) && OnDevice(v) && PagesIn(v, m, pages) && b < Arith.Times(|pages|, BlocksPerPage(v))
    ensures b / BlocksPerPage(v) < |pages| && Place(v, pages, b) + v.blockSize <= |m|
    ensures v.resolve(first + b) == 0 ==> Naive(v, m, pages, first, b + 1) == Naive(v, m, pages, first, b)
    ensures v.resolve(first + b) != 0 ==>
              && Arith.Times(v.resolve(first + b), v.blockSize) + v.blockSize <= |v.device|
              && Naive(v, m, pages, first, b + 1) ==
                  Write(Naive(v, m, pages, first, b), Place(v, pages, b), Disk(v, v.resolve(first + b)))
  {
    PlaceIn(v, m, pages, b);
  }

  /** `fill_pages`: reading whole extents leaves in memory what reading block by block leaves, for every
      block map and for pages anywhere in memory. */
  method FillPages(v: Volume, memory: seq<Byte>, pageIndex: nat, pages: seq<nat>) returns (m: seq<Byte>)
    requires Fast(v) && OnDevice(v) && PagesIn(v, memory, pages)
    ensures m == Filled(v, memory, pages, pageIndex)
  {
    hide Fast, Scatter, Length, Write, Naive, Disk, OnDevice, PagesIn, Arith.Times, Run, Pending, BlocksPerPage;
    PageSizeIs(v);
    var perPage := BlocksPerPage(v);
    var lbasPerBlock := v.blockSize / v.lbaSize;
    var total := Arith.Times(|pages|, perPage);
    var first := FirstBlock(v, pageIndex);
    var have, startLba, nextDisk, lbas := false, 0, 0, 0;
    var segs: seq<Segment> := [];
    ghost var base, count := 0, 0;
    m := memory;
    NaiveNone(v, memory, pages, first);
    for b := 0 to total
      invariant have ==> Pending(v, m, base, count, segs, Naive(v, memory, pages, first, b)) && nextDisk == base + count
      invariant have ==> startLba == Arith.Times(base, lbasPerBlock) && lbas == Arith.Times(count, lbasPerBlock)
      invariant !have ==> m == Naive(v, memory, pages, first, b) && segs == []
      invariant |m| == |memory|
    {
      var disk := v.resolve(first + b);
      NaiveNext(v, memory, pages, first, b);
      ghost var goal := Naive(v, memory, pages, first, b);
      if disk == 0 {
        if have {
          m := ReadExtent(v, m, startLba, lbas, segs, base, count, goal);
          have, segs := false, [];
        }
        continue;
      }
      var at := pages[b / perPage] + Arith.Times(b % perPage, v.blockSize);
      if have && disk == nextDisk {
        Nonempty(v, m, base, count, segs, goal);
        PendingNext(v, m, base, count, segs, goal, at);
        var last := segs[|segs| - 1];
        if last.phys + last.len == at {
          segs := Grown(segs, v.blockSize);
        } else {
          segs := segs + [Segment(at, v.blockSize)];
        }
        Arith.TimesAdd(count, 1, lbasPerBlock);
        Arith.TimesOne(lbasPerBlock);
        nextDisk := nextDisk + 1;
        lbas := lbas + lbasPerBlock;
        count := count + 1;
      } else {
        if have {
          m := ReadExtent(v, m, startLba, lbas, segs, base, count, goal);
          segs := [];
        }
        PendingStart(v, m, disk, at);
        Arith.TimesOne(lbasPerBlock);
        startLba := Arith.Times(disk, lbasPerBlock);
        nextDisk := disk + 1;
        lbas := lbasPerBlock;
        segs := segs + [Segment(at, v.blockSize)];
        have := true;
        base, count := disk, 1;
        assert segs == [Segment(at, v.blockSize)];
      }
    }
    if have {
      m := ReadExtent(v, m, startLba, lbas, segs, base, count, Naive(v, memory, pages, first, total));
    }
  }

  lemma NaiveNone(v: Volume, m: seq<Byte>, pages: seq<nat>, first: nat)
    requires Fast(v) && OnDevice(v) && PagesIn(v, m, pages)
    ensures 0 <= Arith.Times(|pages|, BlocksPerPage(v)) && Naive(v, m, pages, first, 0) == m
  {
  }

  lemma Nonempty(v: Volume, m: seq<Byte>, base: nat, count: nat, segs: seq<Segment>, goal: seq<Byte>)
    requires Pending(v, m, base, count, segs, goal)
    ensures segs != []
  {
  }

  // ----- the bytes that end up in the pages

  /** Different frames, freshly zeroed by the allocator. */
  ghost predicate Blank(v: Volume, m: seq<Byte>, pages: seq<nat>) {
    && PagesIn(v, m, pages)
    && (forall i, j :: 0 <= i < |pages| && 0 <= j < |pages| && i != j ==>
          pages[i] + v.pageSize <= pages[j] || pages[j] + v.pageSize <= pages[i])
    && (forall i, a :: 0 <= i < |pages| && pages[i] <= a < pages[i] + v.pageSize ==> m[a] == 0)
  }

  lemma PlaceApart(v: Volume, m: seq<Byte>, pages: seq<nat>, b: nat, c: nat)
    requires Fast(v) && Blank(v, m, pages) && b != c
    requires b < Arith.Times(|pages|, BlocksPerPage(v)) && c < Arith.Times(|pages|, BlocksPerPage(v))
    ensures b / BlocksPerPage(v) < |pages| && c / BlocksPerPage(v) < |pages|
    ensures Place(v, pages, b) + v.blockSize <= Place(v, pages, c)
              || Place(v, pages, c) + v.blockSize <= Place(v, pages, b)
  {
    hide Arith.Times, Fast, BlocksPerPage;
    PageSizeIs(v);
    PlaceIn(v, m, pages, b);
    PlaceIn(v, m, pages, c);
    var n := BlocksPerPage(v);
    if b / n == c / n {
      SamePage(b, c, n);
      if b % n < c % n {
        Arith.RowFits(b % n, c % n, v.blockSize);
      } else {
        Arith.RowFits(c % n, b % n, v.blockSize);
      }
    }
  }

  lemma SamePage(b: nat, c: nat, n: nat)
    requires n > 0 && b / n == c / n && b != c
    ensures b % n != c % n
  {
    assert b == b / n * n + b % n && c == c / n * n + c % n;
  }

  /** Byte `x` of the place of block `c`, after the first `b` blocks are read. */
  lemma {:induction false} NaiveAt(v: Volume, m: seq<Byte>, pages: seq<nat>, first: nat, b: nat, c: nat, x: nat)
    requires Fast(v) && OnDevice(v) && Blank(v, m, pages) && x < v.blockSize
    requires b <= Arith.Times(|pages|, BlocksPerPage(v)) && c < Arith.Times(|pages|, BlocksPerPage(v))
    ensures c / BlocksPerPage(v) < |pages| && Place(v, pages, c) + x < |m|
    ensures Naive(v, m, pages, first, b)[Place(v, pages, c) + x] == if c < b then Block(v, first + c)[x] else 0
  {
    hide Arith.Times, Fast, BlocksPerPage, Place, OnDevice, Blank, Block, Naive, Write;
    BlankIn(v, m, pages);
    NaiveNext(v, m, pages, first, c);
    if b == 0 {
      BlankAt(v, m, pages, c, x);
      NaiveNone(v, m, pages, first);
    } else {
      NaiveAt(v, m, pages, first, b - 1, c, x);
      NaiveStep(v, m, pages, first, b - 1, c, x);
    }
  }

  lemma NaiveStep(v: Volume, m: seq<Byte>, pages: seq<nat>, first: nat, b: nat, c: nat, x: nat)
    requires Fast(v) && OnDevice(v) && Blank(v, m, pages) && x < v.blockSize
    requires b < Arith.Times(|pages|, BlocksPerPage(v)) && c < Arith.Times(|pages|, BlocksPerPage(v))
    requires c / BlocksPerPage(v) < |pages| && Place(v, pages, c) + x < |m|
    requires c == b ==> Naive(v, m, pages, first, b)[Place(v, pages, c) + x] == 0
    ensures Naive(v, m, pages, first, b + 1)[Place(v, pages, c) + x]
         == if c == b then Block(v, first + c)[x] else Naive(v, m, pages, first, b)[Place(v, pages, c) + x]
  {
    hide Arith.Times, Fast, BlocksPerPage, Place, OnDevice, Blank, Naive, Write;
    BlankIn(v, m, pages);
    NaiveNext(v, m, pages, first, b);
    if c != b {
      PlaceApart(v, m, pages, b, c);
    }
    if v.resolve(first + b) != 0 {
      WriteAt(Naive(v, m, pages, first, b), Place(v, pages, b), Disk(v, v.resolve(first + b)), Place(v, pages, c) + x);
    }
  }

  lemma WriteAt(m: seq<Byte>, at: nat, data: seq<Byte>, a: nat)
    requires at + |data| <= |m| && a < |m|
    ensures Write(m, at, data)[a] == if at <= a < at + |data| then data[a - at] else m[a]
  {
  }

  /** Memory outside the pages is left alone. */
  lemma {:induction false} OutsideKept(v: Volume, m: seq<Byte>, pages: seq<nat>, first: nat, b: nat, a: nat)
    requires Fast(v) && OnDevice(v) && PagesIn(v, m, pages) && b <= Arith.Times(|pages|, BlocksPerPage(v)) && a < |m|
    requires forall i :: 0 <= i < |pages| ==> !(pages[i] <= a < pages[i] + v.pageSize)
    ensures Naive(v, m, pages, first, b)[a] == m[a]
  {
    hide Arith.Times, Fast, BlocksPerPage, OnDevice, Naive, Write;
    if b == 0 {
      NaiveNone(v, m, pages, first);
    } else {
      OutsideKept(v, m, pages, first, b - 1, a);
      NaiveNext(v, m, pages, first, b - 1);
      PlaceIn(v, m, pages, b - 1);
      PageSizeIs(v);
      var i := (b - 1) / BlocksPerPage(v);
      assert !(pages[i] <= a < pages[i] + v.pageSize);
      if v.resolve(first + b - 1) != 0 {
        WriteAt(Naive(v, m, pages, first, b - 1), Place(v, pages, b - 1), Disk(v, v.resolve(first + b - 1)), a);
      }
    }
  }

  lemma BlankAt(v: Volume, m: seq<Byte>, pages: seq<nat>, c: nat, x: nat)
    requires Fast(v) && Blank(v, m, pages) && x < v.blockSize && c < Arith.Times(|pages|, BlocksPerPage(v))
    ensures c / BlocksPerPage(v) < |pages| && Place(v, pages, c) + x < |m| && m[Place(v, pages, c) + x] == 0
  {
    PlaceIn(v, m, pages, c);
  }

  /** Which block, and which byte of it, offset `o` of page `i` is. */
  lemma Locate(v: Volume, pages: seq<nat>, pageIndex: nat, i: nat, o: nat) returns (c: nat)
    requires Fast(v) && i < |pages| && o < v.pageSize
    ensures c < Arith.Times(|pages|, BlocksPerPage(v)) && c / BlocksPerPage(v) == i
    ensures Place(v, pages, c) + o % v.blockSize == pages[i] + o
    ensures OffsetOf(v, pageIndex + i, o) / v.blockSize == FirstBlock(v, pageIndex) + c
    ensures OffsetOf(v, pageIndex + i, o) % v.blockSize == o % v.blockSize
  {
    hide Fast, BlocksPerPage;
    PageSizeIs(v);
    var n, s := BlocksPerPage(v), v.blockSize;
    var j, x := o / s, o % s;
    assert o == j * s + x;
    Quotient(o, s, n);
    c := i * n + j;
    Arith.DivModUnique(i, n, j);
    Arith.MulStep(i, n);
    Arith.MulMono(i + 1, |pages|, n);
    Offsets(pageIndex, i, n, s, j, x);
  }

  lemma Offsets(k: nat, i: nat, n: nat, s: nat, j: nat, x: nat)
    requires x < s
    ensures ((k + i) * (n * s) + j * s + x) / s == k * (n * s) / s + (i * n + j)
    ensures ((k + i) * (n * s) + j * s + x) % s == x
  {
    var q := k * n + (i * n + j);
    assert (k + i) * (n * s) + j * s + x == q * s + x by {
      assert (k + i) * (n * s) == ((k + i) * n) * s;
      assert (k + i) * n == k * n + i * n;
    }
    Arith.DivModUnique(q, s, x);
    assert k * (n * s) == (k * n) * s + 0;
    Arith.DivModUnique(k * n, s, 0);
  }

  lemma BlankIn(v: Volume, m: seq<Byte>, pages: seq<nat>)
    requires Blank(v, m, pages)
    ensures PagesIn(v, m, pages)
  {
  }

  /** Each page that `fill_pages` fills holds the bytes of the file at its place. */
  lemma PagesHoldFile(v: Volume, m: seq<Byte>, pages: seq<nat>, pageIndex: nat, i: nat, o: nat)
    requires Fast(v) && OnDevice(v) && Blank(v, m, pages) && i < |pages| && o < v.pageSize
    ensures pages[i] + o < |m|
    ensures Filled(v, m, pages, pageIndex)[pages[i] + o]
         == FileByte(v, OffsetOf(v, pageIndex + i, o))
  {
    hide Fast, BlocksPerPage, Arith.Times, OnDevice, Naive, Place, Blank, Block, FirstBlock, OffsetOf;
    PageSizeIs(v);
    BlankIn(v, m, pages);
    var c := Locate(v, pages, pageIndex, i, o);
    NaiveAt(v, m, pages, FirstBlock(v, pageIndex), Arith.Times(|pages|, BlocksPerPage(v)), c, o % v.blockSize);
  }

  // ----- one page at a time

  /** `try_get_page`: with blocks no larger than a page, the bytes of the file at the page's place; a larger
      block is read from its start, wherever in the block the page lies. */
  method TryGetPage(v: Volume, fileSize: nat, pageIndex: nat) returns (page: seq<Byte>)
    requires v.blockSize > 0 && OnDevice(v)
    ensures |page| == v.pageSize
    ensures OffsetOf(v, pageIndex, 0) >= fileSize ==> page == Zeros(v.pageSize)
    ensures OffsetOf(v, pageIndex, 0) < fileSize ==> forall o :: 0 <= o < v.pageSize ==>
              page[o] == PageByte(v, pageIndex, o)
  {
    hide Arith.Times, OnDevice, PageByte, Block;
    page := Zeros(v.pageSize);
    var offset := OffsetOf(v, pageIndex, 0);
    if offset >= fileSize {
      return;
    }
    var first := FirstBlock(v, pageIndex);
    var pageOffset := 0;
    for b := 0 to BlocksPerPage(v)
      invariant pageOffset == b * v.blockSize && |page| == v.pageSize
      invariant forall o :: 0 <= o < v.pageSize ==> page[o] == if o < pageOffset then PageByte(v, pageIndex, o) else 0
    {
      Arith.MulStep(b, v.blockSize);
      page := ReadPart(v, page, first + b, pageOffset);
      forall o | pageOffset <= o < pageOffset + v.blockSize
        ensures PageByte(v, pageIndex, o) == Block(v, first + b)[o - pageOffset]
      {
        PageByteIn(v, pageIndex, b, o);
      }
      pageOffset := pageOffset + v.blockSize;
      if pageOffset >= v.pageSize {
        return;
      }
    }
    forall o | pageOffset <= o < v.pageSize
      ensures PageByte(v, pageIndex, o) == 0
    {
      PageByteBeyond(v, pageIndex, o);
    }
  }

  /** One turn of the loop: a mapped block is copied, as far as the page goes. */
  method ReadPart(v: Volume, page: seq<Byte>, l: nat, at: nat) returns (r: seq<Byte>)
    requires v.blockSize > 0 && OnDevice(v) && |page| == v.pageSize
    requires forall o :: at <= o < |page| ==> page[o] == 0
    ensures |r| == |page|
    ensures forall o :: 0 <= o < |page| ==> r[o] == if at <= o < at + v.blockSize then Block(v, l)[o - at] else page[o]
  {
    hide Arith.Times;
    var disk := v.resolve(l);
    r := page;
    if disk != 0 {
      var end := if at + v.blockSize < v.pageSize then at + v.blockSize else v.pageSize;
      if end > at {
        var start := Arith.Times(disk, v.blockSize);
        r := Write(page, at, v.device[start..start + (end - at)]);
      }
    }
  }

  lemma PageByteIn(v: Volume, pageIndex: nat, b: nat, o: nat)
    requires v.blockSize > 0 && OnDevice(v) && b < BlocksPerPage(v)
              && b * v.blockSize <= o < b * v.blockSize + v.blockSize
    ensures PageByte(v, pageIndex, o) == Block(v, FirstBlock(v, pageIndex) + b)[o - b * v.blockSize]
  {
    Arith.DivModUnique(b, v.blockSize, o - b * v.blockSize);
  }

  lemma PageByteBeyond(v: Volume, pageIndex: nat, o: nat)
    requires v.blockSize > 0 && OnDevice(v) && o >= BlocksPerPage(v) * v.blockSize
    ensures PageByte(v, pageIndex, o) == 0
  {
    hide FirstBlock, Block, BlocksPerPage;
    var q := o / v.blockSize;
    if q < BlocksPerPage(v) {
      Arith.MulMono(q + 1, BlocksPerPage(v), v.blockSize);
      Arith.MulStep(q, v.blockSize);
    }
  }

  /** Byte `o` of the page as `try_get_page` reads it. */
  ghost function PageByte(v: Volume, pageIndex: nat, o: nat): Byte
    requires v.blockSize > 0 && OnDevice(v)
  {
    if o / v.blockSize < BlocksPerPage(v) then Block(v, FirstBlock(v, pageIndex) + o / v.blockSize)[o % v.blockSize]
    else 0
  }

  /** Under the `fast` guard the two readers agree: page `i` of a request has, byte by byte, what
      `try_get_page` returns for that page, and both are the bytes of the file. */
  lemma ReadersAgree(v: Volume, m: seq<Byte>, pages: seq<nat>, pageIndex: nat, i: nat, o: nat)
    requires Fast(v) && OnDevice(v) && Blank(v, m, pages) && i < |pages| && o < v.pageSize
    ensures pages[i] + o < |m|
    ensures Filled(v, m, pages, pageIndex)[pages[i] + o]
         == PageByte(v, pageIndex + i, o) == FileByte(v, OffsetOf(v, pageIndex + i, o))
  {
    hide Fast, BlocksPerPage, Arith.Times, OnDevice, Filled, Place, Blank, Block, FirstBlock, OffsetOf;
    PageSizeIs(v);
    BlankIn(v, m, pages);
    PagesHoldFile(v, m, pages, pageIndex, i, o);
    var c := Locate(v, [0], pageIndex + i, 0, o);
    OnePage(v, o, c);
  }

  lemma OnePage(v: Volume, o: nat, c: nat)
    requires Fast(v) && o < v.pageSize && c < Arith.Times(1, BlocksPerPage(v)) && c / BlocksPerPage(v) < 1
    requires Place(v, [0], c) + o % v.blockSize == o
    ensures o / v.blockSize == c < BlocksPerPage(v)
  {
    var x := o % v.blockSize;
    assert c % BlocksPerPage(v) == c;
    Arith.DivModUnique(c, v.blockSize, x);
  }

  // ----- blocks of any size

  /** The page starts with a block, and is part of that block or made of whole blocks. */
  predicate Aligned(pageSize: nat, blockSize: nat, pageIndex: nat)
    requires blockSize > 0
  {
    Arith.Times(pageIndex, pageSize) % blockSize == 0 && (pageSize <= blockSize || pageSize % blockSize == 0)
  }

  /** On every device and with every block map `try_get_page` gives the bytes of the file. */
  ghost predicate AlwaysRight(pageSize: nat, blockSize: nat, pageIndex: nat) {
    forall v: Volume :: v.pageSize == pageSize && v.blockSize == blockSize && blockSize > 0 && OnDevice(v) ==>
        Right(v, pageIndex)
  }

  ghost predicate Right(v: Volume, pageIndex: nat)
    requires v.blockSize > 0 && OnDevice(v)
  {
    forall o :: 0 <= o < v.pageSize ==> PageByte(v, pageIndex, o) == FileByte(v, OffsetOf(v, pageIndex, o))
  }

  lemma AlignedRight(v: Volume, pageIndex: nat, o: nat)
    requires v.blockSize > 0 && OnDevice(v) && Aligned(v.pageSize, v.blockSize, pageIndex) && o < v.pageSize
    ensures PageByte(v, pageIndex, o) == FileByte(v, OffsetOf(v, pageIndex, o))
  {
    hide Block, OnDevice;
    var f, q, x := FirstBlock(v, pageIndex), o / v.blockSize, o % v.blockSize;
    assert Arith.Times(pageIndex, v.pageSize) == f * v.blockSize;
    assert (f + q) * v.blockSize + x == f * v.blockSize + o;
    Arith.DivModUnique(f + q, v.blockSize, x);
    WholeBlocks(v, o);
  }

  lemma WholeBlocks(v: Volume, o: nat)
    requires v.blockSize > 0 && o < v.pageSize && (v.pageSize <= v.blockSize || v.pageSize % v.blockSize == 0)
    ensures o / v.blockSize < BlocksPerPage(v)
  {
    var q := o / v.blockSize;
    if v.pageSize <= v.blockSize {
      Arith.DivModUnique(0, v.blockSize, o);
    } else if q >= v.pageSize / v.blockSize {
      Arith.MulMono(v.pageSize / v.blockSize, q, v.blockSize);
    }
  }

  /** Every block of the file is the one block with a one in front and zeros behind. */
  function OneInFront(pageSize: nat, blockSize: nat): Volume {
    Volume(seq(2 * blockSize, i => if i == blockSize then 1 else 0), 1, blockSize, pageSize, (l: nat) => 1)
  }

  lemma MisalignedWrong(pageSize: nat, blockSize: nat, pageIndex: nat)
    requires 0 < pageSize && 0 < blockSize && !Aligned(pageSize, blockSize, pageIndex)
    ensures OnDevice(OneInFront(pageSize, blockSize)) && !Right(OneInFront(pageSize, blockSize), pageIndex)
  {
    hide OnDevice, Block, BlocksPerPage, FirstBlock, OneInFront;
    var v := OneInFront(pageSize, blockSize);
    InFront(pageSize, blockSize);
    var start := Arith.Times(pageIndex, pageSize);
    PerPage(v);
    if start % blockSize != 0 {
      assert PageByte(v, pageIndex, 0) != FileByte(v, OffsetOf(v, pageIndex, 0));
    } else {
      Remainder(pageSize, blockSize);
      var q := pageSize / blockSize;
      var o := q * blockSize;
      Arith.DivModUnique(q, blockSize, 0);
      assert start + o == (start / blockSize + q) * blockSize + 0;
      Arith.DivModUnique(start / blockSize + q, blockSize, 0);
      assert PageByte(v, pageIndex, o) != FileByte(v, OffsetOf(v, pageIndex, o));
    }
  }

  lemma PerPage(v: Volume)
    requires v.blockSize > 0
    ensures BlocksPerPage(v) > 0 && (v.pageSize > v.blockSize ==> BlocksPerPage(v) == v.pageSize / v.blockSize)
  {
  }

  lemma InFront(pageSize: nat, blockSize: nat)
    requires 0 < blockSize
    ensures var v := OneInFront(pageSize, blockSize);
            && v.pageSize == pageSize && v.blockSize == blockSize && OnDevice(v)
            && forall l, x :: 0 <= l && 0 <= x < blockSize ==> Block(v, l)[x] == if x == 0 then 1 else 0
  {
  }

  lemma Remainder(pageSize: nat, blockSize: nat)
    requires 0 < blockSize < pageSize && pageSize % blockSize != 0
    ensures pageSize / blockSize * blockSize < pageSize && pageSize / blockSize > 0
  {
  }

  /** `try_get_page` gives the bytes of the file, whatever is on the device, exactly for pages that are aligned
      with the blocks. */
  lemma RightIff(pageSize: nat, blockSize: nat, pageIndex: nat)
    requires 0 < pageSize && 0 < blockSize
    ensures AlwaysRight(pageSize, blockSize, pageIndex) <==> Aligned(pageSize, blockSize, pageIndex)
  {
    hide OnDevice, PageByte, FileByte;
    if Aligned(pageSize, blockSize, pageIndex) {
      forall v: Volume | v.pageSize == pageSize && v.blockSize == blockSize && OnDevice(v)
        ensures Right(v, pageIndex)
      {
        forall o | 0 <= o < v.pageSize
          ensures PageByte(v, pageIndex, o) == FileByte(v, OffsetOf(v, pageIndex, o))
        {
          AlignedRight(v, pageIndex, o);
        }
      }
    } else {
      MisalignedWrong(pageSize, blockSize, pageIndex);
      InFront(pageSize, blockSize);
      assert !Right(OneInFront(pageSize, blockSize), pageIndex);
    }
  }

  /** With blocks larger than a page, that is every page that starts its block and no other. */
  lemma LargeBlocks(pageSize: nat, blockSize: nat, pageIndex: nat)
    requires 0 < pageSize < blockSize
    ensures AlwaysRight(pageSize, blockSize, pageIndex) <==> pageIndex * pageSize % blockSize == 0
  {
    hide AlwaysRight;
    RightIff(pageSize, blockSize, pageIndex);
  }

  /** The second page of an 8 KiB block starts with the first byte of the block. */
  lemma SecondPageWrong()
    ensures var v := OneInFront(4096, 8192);
            OnDevice(v) && PageByte(v, 1, 0) == 1 && FileByte(v, OffsetOf(v, 1, 0)) == 0
  {
    hide Block, OneInFront;
    InFront(4096, 8192);
  }
}
