/**
  The page cache of `kernel/src/memory/cache.rs` over an abstract pager.  The view of the file is, page by
  page, the cached frame if there is one and the pager's page otherwise.  Lookups, read-ahead and write-back
  leave the view alone; a write changes exactly its bytes; direct reads see what cached reads see.
  */
module PageCache {
  import opened Common
  import opened FlatBytes
  import Arith

  const RA_MIN_PAGES: nat := 8
  const RA_MAX_PAGES: nat := 64

  /** How a call of the pager turns out. */
  datatype Outcome = Fine | OutOfMemory | IoError

  /** How the pager answers for a page: the call for the whole window, and the call for that page alone that
      follows when memory is short. */
  datatype Answer = Answer(first: Outcome, retry: Outcome)

  // ----- the file view

  /** What the cache holds: frames by page index, and the contents of the frames it has obtained. */
  datatype Cache = Cache(pages: map<nat, nat>, frames: map<nat, seq<Byte>>)

  ghost predicate CacheOk(c: Cache, store: seq<seq<Byte>>, size: nat) {
    && (forall i :: 0 <= i < |store| ==> |store[i]| == size)
    && (forall i :: i in c.pages ==> i < |store| && c.pages[i] in c.frames && |c.frames[c.pages[i]]| == size)
    && (forall i, j :: i in c.pages && j in c.pages && i != j ==> c.pages[i] != c.pages[j])
  }

  /** Every frame obtained is in the map or among `loose`. */
  ghost predicate Accounted(c: Cache, loose: set<nat>) {
    forall f :: f in c.frames ==> f in loose || f in c.pages.Values
  }

  ghost function PageView(c: Cache, store: seq<seq<Byte>>, i: nat): seq<Byte>
    requires i < |store| && (i in c.pages ==> c.pages[i] in c.frames)
  {
    if i in c.pages then c.frames[c.pages[i]] else store[i]
  }

  ghost function FileView(c: Cache, store: seq<seq<Byte>>, size: nat): (v: seq<seq<Byte>>)
    requires CacheOk(c, store, size)
    ensures |v| == |store|
    ensures forall i :: 0 <= i < |v| ==> v[i] == PageView(c, store, i) && |v[i]| == size
  {
    seq(|store|, i requires 0 <= i < |store| => PageView(c, store, i))
  }

  /** Pages that are not dirty are as the pager has them. */
  ghost predicate Synced(c: Cache, store: seq<seq<Byte>>, dirty: set<nat>) {
    forall i :: i in c.pages && i !in dirty ==>
        i < |store| && c.pages[i] in c.frames && c.frames[c.pages[i]] == store[i]
  }

  // ----- flat bytes

  predicate Paged(pages: seq<seq<Byte>>, size: nat) {
    size > 0 && forall i :: 0 <= i < |pages| ==> |pages[i]| == size
  }

  lemma {:induction false} FlatLength(pages: seq<seq<Byte>>, size: nat)
    requires Paged(pages, size)
    ensures |Flat(pages)| == Arith.Times(|pages|, size)
  {
    if pages != [] {
      FlatLength(pages[1..], size);
      Arith.TimesAdd(|pages[1..]|, 1, size);
      Arith.TimesOne(size);
    }
  }

  lemma FlatAround(pages: seq<seq<Byte>>, size: nat, p: nat, page: seq<Byte>)
    requires Paged(pages, size) && p < |pages|
    ensures Flat(pages[p := page]) == Flat(pages[..p]) + page + Flat(pages[p + 1..])
    ensures |Flat(pages[..p])| == Arith.Times(p, size)
  {
    FlatSplit(pages, p, page);
    FlatLength(pages[..p], size);
  }

  /** A piece of one page is a piece of the file. */
  lemma Piece(pages: seq<seq<Byte>>, size: nat, cur: nat, n: nat)
    requires Paged(pages, size) && cur / size < |pages| && cur % size + n <= size
    ensures cur + n <= |Flat(pages)|
    ensures Flat(pages)[cur..cur + n] == pages[cur / size][cur % size..cur % size + n]
  {
    hide Flat, Arith.Times;
    var p, o := cur / size, cur % size;
    FlatAround(pages, size, p, pages[p]);
    assert pages[p := pages[p]] == pages;
    DivSum(cur, size);
    PieceOf(Flat(pages[..p]), pages[p], Flat(pages[p + 1..]), o, n);
  }

  lemma DivSum(x: nat, size: nat)
    requires size > 0
    ensures x == Arith.Times(x / size, size) + x % size
  {
  }

  /** Changing a piece of one page changes that piece of the file. */
  lemma PatchPage(pages: seq<seq<Byte>>, size: nat, cur: nat, data: seq<Byte>)
    requires Paged(pages, size) && cur / size < |pages| && cur % size + |data| <= size
    ensures cur + |data| <= |Flat(pages)|
    ensures Flat(pages[cur / size := Patch(pages[cur / size], cur % size, data)]) == Patch(Flat(pages), cur, data)
  {
    hide Flat, Arith.Times, Patch;
    var p, o := cur / size, cur % size;
    FlatAround(pages, size, p, pages[p]);
    FlatAround(pages, size, p, Patch(pages[p], o, data));
    assert pages[p := pages[p]] == pages;
    DivSum(cur, size);
    PatchOf(Flat(pages[..p]), pages[p], Flat(pages[p + 1..]), o, data);
  }

  /** How far a request of `n` bytes at `offset` gets in a file of `len` bytes. */
  function Reach(len: nat, offset: nat, n: nat): nat {
    if offset >= len then 0 else if offset + n > len then len - offset else n
  }

  function PageOf(x: nat, size: nat): nat {
    if size == 0 then 0 else x / size
  }

  /** A page index lies in the file exactly when its bytes do. */
  lemma InFile(pages: seq<seq<Byte>>, size: nat, cur: nat)
    requires Paged(pages, size)
    ensures cur / size < |pages| <==> cur < |Flat(pages)|
  {
    FlatLength(pages, size);
    if cur / size < |pages| {
      Arith.RowFits(cur / size, |pages|, size);
    } else {
      Arith.MulMono(|pages|, cur / size, size);
    }
    DivSum(cur, size);
  }

  // ----- which pages a lookup obtains

  /** What decides the next lookup: the pages cached, the read-ahead window and the page expected next. */
  datatype Look = Look(keys: set<nat>, window: nat, next: int)

  /** How many pages are wanted from `index` on. */
  function Wanted(ahead: bool, l: Look, index: nat): nat {
    if !ahead then 1
    else if index != l.next then RA_MIN_PAGES
    else if l.window * 2 < RA_MAX_PAGES then l.window * 2 else RA_MAX_PAGES
  }

  /** The first of the pages from `index + i` on, below `index + count`, that is cached. */
  function CutAt(keys: set<nat>, index: nat, i: nat, count: nat): nat
    decreases count - i
  {
    if i >= count then count else if index + i in keys then i else CutAt(keys, index, i + 1, count)
  }

  lemma {:induction false} CutIs(keys: set<nat>, index: nat, i: nat, count: nat, c: nat)
    requires i <= c <= count && (c == count || index + c in keys)
    requires forall j :: index + i <= j < index + c ==> j !in keys
    ensures CutAt(keys, index, i, count) == c
    decreases count - i
  {
    if i < c {
      CutIs(keys, index, i + 1, count, c);
    }
  }

  function Planned(ahead: bool, l: Look, index: nat): nat {
    CutAt(l.keys, index, 1, Wanted(ahead, l, index))
  }

  /** More than one page is asked for exactly when there is read-ahead and the next page is not cached. */
  lemma PlannedMany(ahead: bool, l: Look, index: nat)
    requires RA_MIN_PAGES <= l.window <= RA_MAX_PAGES
    ensures Planned(ahead, l, index) > 1 <==> ahead && index + 1 !in l.keys
    ensures Planned(ahead, l, index) > 0
  {
    if ahead {
      CutAbove(l.keys, index, 2, Wanted(ahead, l, index));
    }
  }

  lemma {:induction false} CutAbove(keys: set<nat>, index: nat, i: nat, count: nat)
    requires i <= count
    ensures i <= CutAt(keys, index, i, count) <= count
    decreases count - i
  {
    if i < count {
      CutAbove(keys, index, i + 1, count);
    }
  }

  /** The page can be had: it is cached, the pager answers, or it does so for the page alone. */
  predicate Gets(ahead: bool, l: Look, index: nat, a: Answer) {
    || index in l.keys || a.first == Fine
    || (a.first == OutOfMemory && a.retry == Fine && ahead && index + 1 !in l.keys)
  }

  function Span(index: nat, n: nat): set<nat> {
    if n == 0 then {} else Span(index, n - 1) + {index + n - 1}
  }

  /** How many of `count` pages from `index` on are in a file of `total` pages. */
  function Within(index: nat, count: nat, total: nat): nat {
    if index >= total then 0 else if count < total - index then count else total - index
  }

  /** The answer that decides a lookup: the first one, or the one for a single page after memory ran out for more. */
  function Final(ahead: bool, l: Look, index: nat, a: Answer): Outcome {
    if a.first == OutOfMemory && Planned(ahead, l, index) > 1 then a.retry else a.first
  }

  function Code(io: Outcome): Errno {
    if io == IoError then EIO else ENOMEM
  }

  /** What a lookup that is answered leaves. */
  function Looked(ahead: bool, total: nat, l: Look, index: nat, a: Answer): Look {
    if index in l.keys then l
    else
      var wanted := Wanted(ahead, l, index);
      var n := if a.first == Fine then Planned(ahead, l, index) else 1;
      Look(l.keys + Span(index, Within(index, n, total)), if ahead then wanted else l.window,
           if ahead then index + wanted else l.next)
  }

  /** The first of the pages from `p` on that is at `end`, past the file, or cannot be had. */
  function Stop(ahead: bool, total: nat, l: Look, p: nat, end: nat, io: nat -> Answer): nat
    decreases end - p
  {
    if p >= end || p >= total || !Gets(ahead, l, p, io(p)) then p
    else Stop(ahead, total, Looked(ahead, total, l, p, io(p)), p + 1, end, io)
  }

  /** A copy that stops there has met no error: it is through, or has found the end of the file. */
  predicate Through(ahead: bool, total: nat, stop: nat, end: nat, io: nat -> Answer) {
    stop >= end || (stop >= total && Gets(ahead, Look({}, 0, 0), stop, io(stop)))
  }

  /** Without read-ahead a copy gets through exactly when each of its pages is cached or can be read in. */
  lemma {:induction false} PlainThrough(total: nat, l: Look, p: nat, end: nat, io: nat -> Answer)
    requires p <= end <= total
    ensures Through(false, total, Stop(false, total, l, p, end, io), end, io) <==>
            forall q :: p <= q < end ==> q in l.keys || io(q).first == Fine
    decreases end - p
  {
    if p < end && Gets(false, l, p, io(p)) {
      var m := Looked(false, total, l, p, io(p));
      PlainThrough(total, m, p + 1, end, io);
      assert Planned(false, l, p) == 1 && Within(p, 1, total) == 1 && Span(p, 0) == {};
      assert m.keys == l.keys + {p};
    }
  }

  /** The changes that `data` at `offset` makes lie in pages that are dirty. */
  ghost predicate Covered(bytes: seq<Byte>, size: nat, dirty: set<nat>, offset: nat, data: seq<Byte>)
    requires data != [] ==> offset + |data| <= |bytes|
  {
    forall i :: 0 <= i < |data| && PageOf(offset + i, size) !in dirty ==> data[i] == bytes[offset + i]
  }

  // ----- histories

  datatype Op =
    | Reads(n: nat, offset: nat, io: nat -> Answer)
    | Writes(data: seq<Byte>, offset: nat, io: nat -> Answer)
    | Syncs(fails: set<nat>)
    | ReadsDirect(n: nat, offset: nat, fails: set<nat>, io: nat -> Answer)

  /** A write cannot fail half way: the pager has each of its pages but the first. */
  ghost predicate Harmless(op: Op, size: nat) {
    op.Writes? ==>
      forall q :: PageOf(op.offset, size) < q < Arith.DivCeil(op.offset + |op.data|, size) ==> op.io(q).first == Fine
  }

  /** Where the pager has all pages, a copy gets through. */
  lemma {:induction false} AllThrough(ahead: bool, total: nat, l: Look, p: nat, end: nat, io: nat -> Answer)
    requires p <= end && forall q :: p <= q < end ==> io(q).first == Fine
    ensures Through(ahead, total, Stop(ahead, total, l, p, end, io), end, io)
    decreases end - p
  {
    if p < end && p < total {
      AllThrough(ahead, total, Looked(ahead, total, l, p, io(p)), p + 1, end, io);
    }
  }

  // ----- how far a copy has come

  /** The bytes of a request of `n` at `offset` that lie before page `p`. */
  function Reached(size: nat, offset: nat, n: nat, p: nat): nat {
    if p <= PageOf(offset, size) then 0 else Min(n, Arith.Times(p, size) - offset)
  }

  function Min(a: int, b: int): nat {
    if a < 0 || b < 0 then 0 else if a < b then a else b
  }

  /** How much of `n` bytes at `cur` one page of a file of `total` pages takes. */
  function PieceLen(total: nat, size: nat, cur: nat, n: nat): nat {
    if size == 0 || cur / size >= total then 0 else Min(size - cur % size, n)
  }

  /** After `done` of `n` bytes, page `p` is next. */
  ghost predicate At(size: nat, offset: nat, n: nat, p: nat, done: nat) {
    && PageOf(offset, size) <= p <= Arith.DivCeil(offset + n, size)
    && done == Reached(size, offset, n, p)
    && (if done < n then p == PageOf(offset + done, size) < Arith.DivCeil(offset + n, size)
        else p == Arith.DivCeil(offset + n, size))
  }

  lemma Starts(size: nat, offset: nat, n: nat)
    requires size > 0
    ensures n > 0 ==> At(size, offset, n, PageOf(offset, size), 0)
  {
    if n > 0 {
      BelowCeil(offset / size, offset + n, size);
    }
  }

  lemma AtPage(size: nat, offset: nat, n: nat, p: nat, done: nat)
    requires At(size, offset, n, p, done) && done < n
    ensures p == PageOf(offset + done, size) < Arith.DivCeil(offset + n, size) && done == Reached(size, offset, n, p)
  {
  }

  lemma AtEnd(size: nat, offset: nat, n: nat, p: nat)
    requires At(size, offset, n, p, n)
    ensures p == Arith.DivCeil(offset + n, size)
  {
  }

  lemma AtNext(size: nat, offset: nat, n: nat, p: nat, done: nat, total: nat)
    requires size > 0 && At(size, offset, n, p, done) && done < n && p < total
    ensures At(size, offset, n, p + 1, done + PieceLen(total, size, offset + done, n - done))
  {
    hide Arith.DivCeil, PageOf;
    var cur := offset + done;
    var piece := PieceLen(total, size, cur, n - done);
    PieceEnds(size, cur, n - done, p, total);
    ReachedStart(size, offset, n, p, done);
    if done + piece < n {
      PageOfStart(p + 1, size);
      BelowCeil(p + 1, offset + n, size);
    } else {
      CeilIs(offset + n, p, size);
    }
  }

  lemma ReachedStart(size: nat, offset: nat, n: nat, p: nat, done: nat)
    requires size > 0 && PageOf(offset, size) <= p == PageOf(offset + done, size) && done < n
    ensures Reached(size, offset, n, p + 1) == Min(n, Arith.Times(p + 1, size) - offset)
    ensures Arith.Times(p + 1, size) > offset + done
  {
    DivSum(offset + done, size);
    Arith.TimesAdd(p, 1, size);
  }

  /** A piece goes to the end of its page or of the request. */
  lemma PieceEnds(size: nat, cur: nat, n: nat, p: nat, total: nat)
    requires size > 0 && p == PageOf(cur, size) < total
    ensures PieceLen(total, size, cur, n) == Min(n, Arith.Times(p + 1, size) - cur)
    ensures Arith.Times(p, size) <= cur < Arith.Times(p + 1, size)
  {
    DivSum(cur, size);
    Arith.TimesAdd(p, 1, size);
  }

  lemma PieceNone(total: nat, size: nat, cur: nat, n: nat)
    requires size > 0 && n > 0
    ensures PieceLen(total, size, cur, n) == 0 <==> PageOf(cur, size) >= total
    ensures PieceLen(total, size, cur, n) <= n
  {
  }

  lemma PageOfStart(p: nat, size: nat)
    requires size > 0
    ensures PageOf(Arith.Times(p, size), size) == p
  {
    Arith.DivModUnique(p, size, 0);
  }

  lemma CeilIs(e: nat, p: nat, size: nat)
    requires size > 0 && Arith.Times(p, size) < e <= Arith.Times(p + 1, size)
    ensures Arith.DivCeil(e, size) == p + 1
  {
    var x := e - p * size - 1;
    Arith.MulStep(p, size);
    Arith.DivModUnique(p + 1, size, x);
  }

  lemma StopEnd(ahead: bool, total: nat, l: Look, end: nat, io: nat -> Answer)
    ensures Stop(ahead, total, l, end, end, io) == end && Through(ahead, total, end, end, io)
  {
  }

  // ----- steps on the map and the frames

  /** Page `i` gets the frame `f`, unless it has one by now; then `f` is freed. */
  function Install(c: Cache, i: nat, f: nat): Cache {
    if i in c.pages then c.(frames := c.frames - {f}) else c.(pages := c.pages[i := f])
  }

  /** The frame is held by nobody, and holds what the pager has unless the page is cached. */
  ghost predicate Fetched(c: Cache, store: seq<seq<Byte>>, size: nat, i: nat, f: nat) {
    && i < |store| && f in c.frames && |c.frames[f]| == size && f !in c.pages.Values
    && (i in c.pages || c.frames[f] == store[i])
  }

  lemma InstallKeeps(c: Cache, store: seq<seq<Byte>>, size: nat, i: nat, f: nat, dirty: set<nat>, loose: set<nat>)
    requires CacheOk(c, store, size) && Fetched(c, store, size, i, f) && Accounted(c, loose)
    ensures CacheOk(Install(c, i, f), store, size)
    ensures FileView(Install(c, i, f), store, size) == FileView(c, store, size)
    ensures Synced(c, store, dirty) ==> Synced(Install(c, i, f), store, dirty)
    ensures Accounted(Install(c, i, f), loose - {f})
    ensures i in Install(c, i, f).pages
  {
    var d := Install(c, i, f);
    forall j | j in c.pages
      ensures c.pages[j] != f
    {
      assert c.pages[j] in c.pages.Values;
    }
    forall g | g in d.frames
      ensures g in loose - {f} || g in d.pages.Values
    {
      if g in c.pages.Values {
        var j :| j in c.pages && c.pages[j] == g;
        assert d.pages[j] == g;
      } else if g == f {
        assert d.pages[i] == f;
      }
    }
  }

  /** The other frames of a batch stay as they are. */
  lemma InstallOther(c: Cache, store: seq<seq<Byte>>, size: nat, i: nat, f: nat, j: nat, g: nat)
    requires Fetched(c, store, size, i, f) && Fetched(c, store, size, j, g) && f != g
    ensures Fetched(Install(c, i, f), store, size, j, g)
  {
    var d := Install(c, i, f);
    forall k | k in d.pages
      ensures d.pages[k] != g
    {
      if k in c.pages {
        assert c.pages[k] in c.pages.Values;
      }
    }
  }

  /** A frame nobody has. */
  lemma Unused(s: set<nat>)
    ensures exists f: nat :: f !in s
  {
    var f := Above(s);
    assert f !in s;
  }

  lemma {:induction false} Above(s: set<nat>) returns (f: nat)
    ensures forall g :: g in s ==> g < f
    decreases s
  {
    if s == {} {
      f := 0;
    } else {
      var x :| x in s;
      var h := Above(s - {x});
      f := if x < h then h else x + 1;
      forall g | g in s
        ensures g < f
      {
        assert g == x || g in s - {x};
      }
    }
  }

  /** Obtaining frames that nobody has changes nothing. */
  lemma FetchKeeps(c: Cache, d: Cache, store: seq<seq<Byte>>, size: nat, index: nat, batch: seq<nat>, dirty: set<nat>)
    requires CacheOk(c, store, size) && Accounted(c, {}) && d.pages == c.pages && index + |batch| <= |store|
    requires forall i :: 0 <= i < |batch| ==>
              batch[i] !in c.frames && batch[i] in d.frames && d.frames[batch[i]] == store[index + i]
    requires forall f :: f in c.frames ==> f in d.frames && d.frames[f] == c.frames[f]
    requires forall f :: f in d.frames ==> f in c.frames || f in batch
    ensures CacheOk(d, store, size) && FileView(d, store, size) == FileView(c, store, size)
    ensures Synced(d, store, dirty) <==> Synced(c, store, dirty)
    ensures Accounted(d, Arith.Elements(batch))
    ensures forall i :: 0 <= i < |batch| ==> Fetched(d, store, size, index + i, batch[i])
  {
  }

  /** The frame of page `p` gets new contents. */
  lemma FrameWritten(c: Cache, store: seq<seq<Byte>>, size: nat, p: nat, page: seq<Byte>, dirty: set<nat>)
    requires CacheOk(c, store, size) && Accounted(c, {}) && p in c.pages && |page| == size
    ensures var d := Cache(c.pages, c.frames[c.pages[p] := page]);
            && CacheOk(d, store, size) && Accounted(d, {})
            && FileView(d, store, size) == FileView(c, store, size)[p := page]
            && (Synced(c, store, dirty) ==> Synced(d, store, dirty + {p}))
  {
  }

  /** The pager's page `p` becomes what the frame holds. */
  lemma PagePut(c: Cache, store: seq<seq<Byte>>, size: nat, p: nat, dirty: set<nat>)
    requires CacheOk(c, store, size) && p in c.pages
    ensures var store' := store[p := c.frames[c.pages[p]]];
            && CacheOk(c, store', size) && FileView(c, store', size) == FileView(c, store, size)
            && (Synced(c, store, dirty) ==> Synced(c, store', dirty - {p}))
  {
  }

  /** What a request of `n` bytes at `offset` gets. */
  function Window(bytes: seq<Byte>, offset: nat, n: nat): (r: seq<Byte>)
    ensures |r| == Reach(|bytes|, offset, n)
  {
    if offset >= |bytes| then [] else bytes[offset..offset + Reach(|bytes|, offset, n)]
  }

  class PagedMemoryObject {
    const pageSize: nat
    const readahead: bool
    var pages: map<nat, nat>
    var frames: map<nat, seq<Byte>>
    var dirty: set<nat>
    var window: nat
    var nextExpected: int
    var store: seq<seq<Byte>>

    ghost function C(): Cache
      reads this`pages, this`frames
    {
      Cache(pages, frames)
    }

    ghost predicate Valid()
      reads this`pages, this`frames, this`store, this`window
    {
      pageSize > 0 && RA_MIN_PAGES <= window <= RA_MAX_PAGES && CacheOk(C(), store, pageSize) && Accounted(C(), {})
    }

    /** The file as its users see it. */
    ghost function View(): (v: seq<seq<Byte>>)
      reads this`pages, this`frames, this`store, this`window
      requires Valid()
      ensures |v| == |store| && Paged(v, pageSize)
    {
      FileView(C(), store, pageSize)
    }

    ghost function L(): Look
      reads this`pages, this`window, this`nextExpected
    {
      Look(pages.Keys, window, nextExpected)
    }

    ghost predicate Clean()
      reads this
      requires Valid()
    {
      Synced(C(), store, dirty)
    }

    constructor (pageSize: nat, readahead: bool, store: seq<seq<Byte>>)
      requires Paged(store, pageSize)
      ensures Valid() && Clean() && View() == store
      ensures this.pageSize == pageSize && this.readahead == readahead && this.store == store && pages == map[]
                && dirty == {}
    {
      this.pageSize, this.readahead, this.store := pageSize, readahead, store;
      pages, frames, dirty := map[], map[], {};
      window, nextExpected := RA_MIN_PAGES, -1;
    }

    /** The pager's `try_get_pages`: frames that hold the pages from `index` on, as far as there are any. */
    method Fetch(index: nat, count: nat) returns (batch: seq<nat>)
      requires forall i :: 0 <= i < |store| ==> |store[i]| == pageSize
      modifies this`frames
      ensures |batch| == Within(index, count, |store|)
      ensures forall i :: 0 <= i < |batch| ==>
                batch[i] !in old(frames) && batch[i] in frames && frames[batch[i]] == store[index + i]
      ensures forall i, j :: 0 <= i < j < |batch| ==> batch[i] != batch[j]
      ensures forall f :: f in old(frames) ==> f in frames && frames[f] == old(frames)[f]
      ensures forall f :: f in frames ==> f in old(frames) || f in batch
    {
      batch := [];
      while |batch| < count && index + |batch| < |store|
        invariant |batch| <= count && (index >= |store| ==> batch == [])
                  && (index < |store| ==> index + |batch| <= |store|)
        invariant forall i :: 0 <= i < |batch| ==>
                  batch[i] !in old(frames) && batch[i] in frames && frames[batch[i]] == store[index + i]
        invariant forall i, j :: 0 <= i < j < |batch| ==> batch[i] != batch[j]
        invariant forall f :: f in old(frames) ==> f in frames && frames[f] == old(frames)[f]
        invariant forall f :: f in frames ==> f in old(frames) || f in batch
      {
        Unused(frames.Keys);
        var f: nat :| f !in frames.Keys;
        frames := frames[f := store[index + |batch|]];
        batch := batch + [f];
      }
    }

    /** How many pages to ask for: the read-ahead window, cut at the next cached page.  The window doubles, up to
        its limit, while pages are asked for in order, and starts again otherwise. */
    method Plan(index: nat) returns (count: nat)
      requires RA_MIN_PAGES <= window <= RA_MAX_PAGES
      modifies this`window, this`nextExpected
      ensures RA_MIN_PAGES <= window <= RA_MAX_PAGES && count > 0
      ensures readahead && index == old(nextExpected) && old(window) * 2 <= RA_MAX_PAGES ==> window == old(window) * 2
      ensures readahead && index != old(nextExpected) ==> window == RA_MIN_PAGES
      ensures readahead ==> nextExpected == index + window && count <= window
      ensures !readahead ==> count == 1 && window == old(window) && nextExpected == old(nextExpected)
      ensures forall j :: index < j < index + count ==> j !in pages
      ensures readahead && count < window ==> index + count in pages
      ensures count == Planned(readahead, old(L()), index)
                && (readahead ==> window == Wanted(readahead, old(L()), index))
    {
      count := 1;
      if readahead {
        window := if index == nextExpected then (if window * 2 < RA_MAX_PAGES then window * 2 else RA_MAX_PAGES)
            else RA_MIN_PAGES;
        count := window;
        nextExpected := index + count;
      }
      ghost var wanted := count;
      var i := 1;
      while i < count
        invariant 0 < i <= count == wanted
        invariant forall j :: index < j < index + i ==> j !in pages
        decreases count - i
      {
        if index + i in pages {
          count := i;
          break;
        }
        i := i + 1;
      }
      CutIs(pages.Keys, index, 1, wanted, count);
    }

    /** The end of `try_get_page`: the frames obtained go into the map, or back where another thread has been
        faster.  The frames of `loose` are those that other threads have obtained and not yet installed. */
    method InstallBatch(index: nat, batch: seq<nat>, ghost marked: set<nat>, ghost loose: set<nat>)
      requires CacheOk(C(), store, pageSize) && Accounted(C(), Arith.Elements(batch) + loose)
      requires forall i :: 0 <= i < |batch| ==> Fetched(C(), store, pageSize, index + i, batch[i]) && batch[i] !in loose
      requires forall i, j :: 0 <= i < j < |batch| ==> batch[i] != batch[j]
      modifies this`pages, this`frames
      ensures CacheOk(C(), store, pageSize) && Accounted(C(), loose)
      ensures FileView(C(), store, pageSize) == old(FileView(C(), store, pageSize))
      ensures old(Synced(C(), store, marked)) ==> Synced(C(), store, marked)
      ensures pages.Keys == old(pages).Keys + Span(index, |batch|)
    {
      hide CacheOk, Accounted, Fetched, Synced, FileView, Install, Arith.Elements, Span;
      ghost var held := Arith.Elements(batch) + loose;
      assert batch[0..] == batch;
      SpanNone(index, pages.Keys);
      for k := 0 to |batch|
        invariant CacheOk(C(), store, pageSize) && Accounted(C(), held)
        invariant held == Arith.Elements(batch[k..]) + loose
        invariant FileView(C(), store, pageSize) == old(FileView(C(), store, pageSize))
        invariant old(Synced(C(), store, marked)) ==> Synced(C(), store, marked)
        invariant forall i :: k <= i < |batch| ==> Fetched(C(), store, pageSize, index + i, batch[i])
        invariant pages.Keys == old(pages).Keys + Span(index, k)
      {
        InstallKeeps(C(), store, pageSize, index + k, batch[k], marked, held);
        forall i | k < i < |batch|
          ensures Fetched(Install(C(), index + k, batch[k]), store, pageSize, index + i, batch[i])
        {
          InstallOther(C(), store, pageSize, index + k, batch[k], index + i, batch[i]);
        }
        InstallIs(C(), index + k, batch[k]);
        SpanNext(index, k, old(pages).Keys, pages.Keys);
        if index + k in pages {
          frames := frames - {batch[k]};
        } else {
          pages := pages[index + k := batch[k]];
        }
        Rest(batch, k, loose);
        held := held - {batch[k]};
      }
      AllPlaced(batch, loose);
    }

    /** `try_get_page`.  Read-ahead changes no byte of the view; what is cached afterwards is exact. */
    method TryGetPage(index: nat, io: Answer, ghost marked: set<nat>) returns (r: Result<Option<nat>>)
      requires Valid()
      modifies this`pages, this`frames, this`window, this`nextExpected
      ensures Valid() && View() == old(View()) && (old(Synced(C(), store, marked)) ==> Synced(C(), store, marked))
      ensures r.Ok? <==> Gets(readahead, old(L()), index, io)
      ensures r.Ok? ==> (r.value.Some? <==> index < |store|)
      ensures r.Ok? && r.value.Some? ==> index in pages && r.value.value == pages[index]
      ensures r.Ok? ==> L() == Looked(readahead, |store|, old(L()), index, io)
      ensures r.Err? ==> pages == old(pages) && frames == old(frames)
      ensures r.Err? ==> r.error == Code(Final(readahead, old(L()), index, io))
    {
      hide CacheOk, Accounted, Synced, FileView, Planned, Wanted, Span, Within;
      Indexes();
      if index in pages {
        return Ok(Some(pages[index]));
      }
      PlannedMany(readahead, L(), index);
      var count := Plan(index);
      if io.first == OutOfMemory && count > 1 && io.retry == Fine {
        count := 1;
      } else if io.first == OutOfMemory && count > 1 {
        return Err(if io.retry == IoError then EIO else ENOMEM);
      } else if io.first != Fine {
        return Err(if io.first == IoError then EIO else ENOMEM);
      }
      var got := Obtain(index, count, marked);
      r := Ok(got);
    }

    /** The frames of `count` pages are obtained and put into the map. */
    method Obtain(index: nat, count: nat, ghost marked: set<nat>) returns (r: Option<nat>)
      requires Valid() && count > 0
      modifies this`pages, this`frames
      ensures Valid() && View() == old(View()) && (old(Synced(C(), store, marked)) ==> Synced(C(), store, marked))
      ensures r.Some? <==> index < |store|
      ensures r.Some? ==> index in pages && r.value == pages[index]
      ensures pages.Keys == old(pages).Keys + Span(index, Within(index, count, |store|))
    {
      hide CacheOk, Accounted, Fetched, Synced, FileView, Span;
      Indexes();
      ghost var c := C();
      var batch := Fetch(index, count);
      if batch == [] {
        Same(c, C());
        SpanNone(index, pages.Keys);
        return None;
      }
      FetchKeeps(c, C(), store, pageSize, index, batch, marked);
      assert Arith.Elements(batch) + {} == Arith.Elements(batch);
      InstallBatch(index, batch, marked, {});
      SpanHas(index, |batch|);
      r := Some(pages[index]);
    }

    lemma Indexes()
      requires Valid()
      ensures forall i :: 0 <= i < |store| ==> |store[i]| == pageSize
      ensures forall i :: i in pages ==> i < |store| && pages[i] in frames && |frames[pages[i]]| == pageSize
      ensures forall i :: i in pages ==> frames[pages[i]] == View()[i]
    {
    }

    /** The page at which a copy from `offset` on comes to a stop. */
    ghost function StopOf(offset: nat, n: nat, io: nat -> Answer): nat
      reads this`pages, this`window, this`nextExpected, this`store
    {
      Stop(readahead, |store|, L(), PageOf(offset, pageSize), Arith.DivCeil(offset + n, pageSize), io)
    }

    /** It meets no error on its way. */
    ghost predicate Passes(offset: nat, n: nat, io: nat -> Answer)
      reads this`pages, this`window, this`nextExpected, this`store
    {
      n == 0 || Through(readahead, |store|, StopOf(offset, n, io), Arith.DivCeil(offset + n, pageSize), io)
    }

    /** `MemoryObject::read`. */
    method Read(n: nat, offset: nat, io: nat -> Answer) returns (r: Result<seq<Byte>>)
      requires Valid()
      modifies this`pages, this`frames, this`window, this`nextExpected
      ensures Valid() && View() == old(View()) && (old(Clean()) ==> Clean())
      ensures r.Ok? <==> old(Passes(offset, n, io))
      ensures r.Ok? ==> r.value == Window(Flat(View()), offset, n)
    {
      hide Valid, View, Clean, Flat, Window, Stop, Through, Reached, Gets, Arith.DivCeil, Looked, PieceLen;
      var out: seq<Byte> := [];
      ghost var flat := Flat(View());
      ghost var end, p := Arith.DivCeil(offset + n, pageSize), PageOf(offset, pageSize);
      PageSizePositive();
      Starts(pageSize, offset, n);
      while |out| < n
        invariant Valid() && View() == old(View()) && (old(Clean()) ==> Clean())
        invariant |out| <= n && (out != [] ==> offset < |flat|)
        invariant offset < |flat| ==> offset + |out| <= |flat| && out == flat[offset..offset + |out|]
        invariant n > 0 ==> At(pageSize, offset, n, p, |out|)
        invariant old(StopOf(offset, n, io)) == Stop(readahead, |store|, L(), p, end, io)
        decreases n - |out|
      {
        StopNext(p, end, io);
        AtPage(pageSize, offset, n, p, |out|);
        PieceNone(|store|, pageSize, offset + |out|, n - |out|);
        var piece := ReadPiece(offset + |out|, n - |out|, io);
        if piece.Err? {
          return Err(piece.error);
        }
        if piece.value == [] {
          break;
        }
        AtNext(pageSize, offset, n, p, |out|, |store|);
        p := p + 1;
        Continues(flat, offset, out, piece.value);
        out := out + piece.value;
      }
      WindowIs(flat, offset, n, out);
      if n > 0 && |out| == n {
        AtEnd(pageSize, offset, n, p);
        StopEnd(readahead, |store|, L(), end, io);
      }
      r := Ok(out);
    }

    /** One turn of the copy loop: the rest of the page that holds byte `cur`; nothing past the end. */
    method ReadPiece(cur: nat, limit: nat, io: nat -> Answer) returns (r: Result<seq<Byte>>)
      requires Valid() && limit > 0
      modifies this`pages, this`frames, this`window, this`nextExpected
      ensures Valid() && View() == old(View()) && (old(Clean()) ==> Clean())
      ensures r.Ok? <==> Gets(readahead, old(L()), PageOf(cur, pageSize), io(PageOf(cur, pageSize)))
      ensures r.Ok? ==> L() == Looked(readahead, |store|, old(L()), PageOf(cur, pageSize), io(PageOf(cur, pageSize)))
      ensures r.Ok? ==> |r.value| == PieceLen(|store|, pageSize, cur, limit)
      ensures r.Ok? ==> (r.value == [] <==> cur >= |Flat(View())|)
      ensures r.Ok? && r.value != [] ==>
                cur + |r.value| <= |Flat(View())| && r.value == Flat(View())[cur..cur + |r.value|]
      ensures r.Err? ==>
                r.error == Code(Final(readahead, old(L()), PageOf(cur, pageSize), io(PageOf(cur, pageSize))))
    {
      hide CacheOk, Accounted, Synced, FileView, Flat, Gets, Looked, Final, Code;
      var misalign, index := cur % pageSize, cur / pageSize;
      var copy := if pageSize - misalign < limit then pageSize - misalign else limit;
      InFile(View(), pageSize, cur);
      var page := TryGetPage(index, io(index), dirty);
      if page.Err? {
        return Err(page.error);
      }
      if page.value.None? {
        return Ok([]);
      }
      Indexes();
      Piece(View(), pageSize, cur, copy);
      r := Ok(frames[page.value.value][misalign..misalign + copy]);
    }

    /** One turn of the loop of `MemoryObject::write`: as much as the page of byte `cur` takes. */
    method WritePiece(cur: nat, data: seq<Byte>, io: nat -> Answer, ghost marked: set<nat>) returns (r: Result<nat>)
      requires Valid() && data != []
      modifies this`pages, this`frames, this`window, this`nextExpected
      ensures Valid() && |Flat(View())| == |Flat(old(View()))|
      ensures r.Ok? <==> Gets(readahead, old(L()), PageOf(cur, pageSize), io(PageOf(cur, pageSize)))
      ensures r.Ok? ==> L() == Looked(readahead, |store|, old(L()), PageOf(cur, pageSize), io(PageOf(cur, pageSize)))
      ensures r.Ok? ==> r.value == PieceLen(|store|, pageSize, cur, |data|) <= |data|
      ensures r.Ok? ==> (r.value == 0 <==> cur >= |Flat(View())|)
      ensures r.Ok? && r.value > 0 ==>
                cur + r.value <= |Flat(View())| && Flat(View()) == Patch(Flat(old(View())), cur, data[..r.value])
      ensures r.Err? || r.value == 0 ==> View() == old(View())
      ensures r.Err? ==>
                r.error == Code(Final(readahead, old(L()), PageOf(cur, pageSize), io(PageOf(cur, pageSize))))
      ensures old(Synced(C(), store, marked)) ==>
                Synced(C(), store, if r.Ok? && r.value > 0 then marked + {PageOf(cur, pageSize)} else marked)
    {
      hide CacheOk, Accounted, FileView, Flat, Synced, Gets, Looked, Final, Code;
      var misalign, index := cur % pageSize, cur / pageSize;
      var copy := if pageSize - misalign < |data| then pageSize - misalign else |data|;
      InFile(View(), pageSize, cur);
      var page := TryGetPage(index, io(index), marked);
      if page.Err? {
        return Err(page.error);
      }
      if page.value.None? {
        return Ok(0);
      }
      Indexes();
      var f := page.value.value;
      var bytes := Patch(frames[f], misalign, data[..copy]);
      PatchPage(View(), pageSize, cur, data[..copy]);
      FrameWritten(C(), store, pageSize, index, bytes, marked);
      frames := frames[f := bytes];
      r := Ok(copy);
    }

    /** The write gets through, and not all of it lies past the end. */
    ghost predicate Succeeds(data: seq<Byte>, offset: nat, io: nat -> Answer)
      reads this`pages, this`window, this`nextExpected, this`store
    {
      data == [] || (PageOf(offset, pageSize) < |store| && Passes(offset, |data|, io))
    }

    /** How many bytes it writes. */
    ghost function Takes(data: seq<Byte>, offset: nat, io: nat -> Answer): nat
      reads this`pages, this`window, this`nextExpected, this`store
    {
      if data == [] then 0 else Reached(pageSize, offset, |data|, StopOf(offset, |data|, io))
    }

    /** A write followed by `mark_dirty` on its pages, as the file system does it.  It changes exactly the bytes
        up to the first page that cannot be had.  After an error the pages are not marked, so all pages that are
        not dirty are in step with the pager exactly when the bytes changed lie in pages dirty before. */
    method WriteFile(data: seq<Byte>, offset: nat, io: nat -> Answer) returns (r: Result<nat>, ghost done: nat)
      requires Valid()
      modifies this`pages, this`frames, this`window, this`nextExpected, this`dirty
      ensures Valid() && done == old(Takes(data, offset, io)) <= |data|
      ensures r.Ok? <==> old(Succeeds(data, offset, io))
      ensures r.Ok? ==> r.value == done == Reach(|Flat(old(View()))|, offset, |data|)
      ensures done == 0 ==> View() == old(View())
      ensures done > 0 ==>
                offset + done <= |Flat(old(View()))| && Flat(View()) == Patch(Flat(old(View())), offset, data[..done])
      ensures old(Clean()) ==> 
                (Clean() <==> r.Ok? || Covered(Flat(old(View())), pageSize, old(dirty), offset, data[..done]))
      // the pages of the bytes written are dirty, and no other becomes so
      ensures dirty == old(dirty) + if r.Ok? then PagesOf(offset, done, pageSize) else {}
    {
      hide Valid, View, Flat, Synced, Patch, Stop, Through, Reached, Gets, Arith.DivCeil, Looked, PieceLen, Covered;
      hide PagesOf, Final, Code;
      var actual := 0;
      done := 0;
      PageSizePositive();
      Opened();
      ghost var marked: set<nat> := dirty;
      ghost var flat := Flat(View());
      ghost var end, p := Arith.DivCeil(offset + |data|, pageSize), PageOf(offset, pageSize);
      Starts(pageSize, offset, |data|);
      while actual < |data|
        invariant Valid() && actual == done <= |data| && |Flat(View())| == |flat|
        invariant done == 0 ==> View() == old(View()) && marked == dirty
        invariant done > 0 ==> offset + done <= |flat| && Flat(View()) == Patch(flat, offset, data[..done])
        invariant dirty == old(dirty) && (old(Synced(C(), store, dirty)) ==> Synced(C(), store, marked))
        invariant forall q :: q in marked && q !in dirty ==>
                  PageOf(offset, pageSize) <= q && Arith.Times(q, pageSize) < offset + done
        invariant data != [] ==> At(pageSize, offset, |data|, p, done)
        invariant done > 0 ==> PageOf(offset, pageSize) < |store|
        invariant old(StopOf(offset, |data|, io)) == Stop(readahead, |store|, L(), p, end, io)
        decreases |data| - actual
      {
        ghost var before := Flat(View());
        StopNext(p, end, io);
        AtPage(pageSize, offset, |data|, p, done);
        PieceNone(|store|, pageSize, offset + done, |data| - done);
        var n := WritePiece(offset + actual, data[actual..], io, marked);
        if n.Err? {
          Opened();
          CleanAfter(old(C()), C(), store, pageSize, dirty, offset, data[..done]);
          return Err(n.error), done;
        }
        if n.value == 0 {
          break;
        }
        AtNext(pageSize, offset, |data|, p, done, |store|);
        p := p + 1;
        if done == 0 {
          InFile(View(), pageSize, offset);
        }
        Touched(offset, offset + done, pageSize);
        marked := marked + {PageOf(offset + done, pageSize)};
        if done == 0 {
          PatchNone(flat, offset, data);
        }
        Extended(flat, before, offset, data, done, n.value);
        actual := actual + n.value;
        done := actual;
      }
      if actual == 0 && data != [] {
        Opened();
        CleanAfter(old(C()), C(), store, pageSize, dirty, offset, data[..done]);
        return Err(EIO), done;
      }
      if data != [] && done == |data| {
        AtEnd(pageSize, offset, |data|, p);
        StopEnd(readahead, |store|, L(), end, io);
      }
      MarkPages(offset, actual, marked);
      if old(Clean()) {
        SyncedMore(C(), store, marked, dirty);
      }
      r := Ok(actual);
    }

    /** What the next page decides about where a copy stops. */
    lemma StopNext(p: nat, end: nat, io: nat -> Answer)
      requires Valid() && p < end
      ensures p >= |store| || !Gets(readahead, L(), p, io(p)) ==> Stop(readahead, |store|, L(), p, end, io) == p
      ensures p >= |store| || !Gets(readahead, L(), p, io(p)) ==>
                (Through(readahead, |store|, p, end, io) <==> Gets(readahead, L(), p, io(p)))
      ensures p < |store| && Gets(readahead, L(), p, io(p)) ==>
                Stop(readahead, |store|, L(), p, end, io) ==
                Stop(readahead, |store|, Looked(readahead, |store|, L(), p, io(p)), p + 1, end, io)
    {
    }

    lemma Opened()
      requires Valid()
      ensures CacheOk(C(), store, pageSize) && View() == FileView(C(), store, pageSize)
    {
    }

    lemma CleanView()
      requires Valid() && Clean() && dirty == {}
      ensures View() == store
    {
    }

    lemma PageSizePositive()
      requires Valid()
      ensures pageSize > 0
    {
    }

    /** `mark_dirty` on every page of a write. */
    method MarkPages(offset: nat, n: nat, ghost marked: set<nat>)
      requires pageSize > 0
      requires forall p :: p in marked && p !in dirty ==>
                PageOf(offset, pageSize) <= p && Arith.Times(p, pageSize) < offset + n
      modifies this`dirty
      ensures dirty == old(dirty) + PagesOf(offset, n, pageSize) && marked <= dirty
    {
      var start, end := PageOf(offset, pageSize), Arith.DivCeil(offset + n, pageSize);
      var p: nat := start;
      while p < end
        invariant start <= p && if start < end then p <= end else p == start
        invariant dirty == old(dirty) + Span(start, p - start)
        decreases end - p
      {
        dirty := dirty + {p};
        p := p + 1;
      }
      forall q | q in marked
        ensures q in dirty
      {
        if q !in old(dirty) {
          SpanIs(start, p - start, q);
          BelowCeil(q, offset + n, pageSize);
        }
      }
    }

    /** The pages of `todo` that are cached and that the pager refuses. */
    ghost function Refused(todo: set<nat>, fails: set<nat>): set<nat>
      reads this`pages
    {
      set p | p in todo && p in pages && p in fails
    }

    /** Those that are cached and that it takes. */
    ghost function Accepted(todo: set<nat>, fails: set<nat>): set<nat>
      reads this`pages
    {
      set p | p in todo && p in pages && p !in fails
    }

    /** One turn of `writeback`. */
    method PutPage(p: nat, fails: set<nat>, ghost left: set<nat>) returns (ok: bool)
      requires Valid() && p in left
      modifies this`store, this`dirty
      ensures Valid() && View() == old(View()) && |store| == |old(store)| == |View()|
      ensures ok <==> !(p in pages && p in fails)
      ensures dirty == old(dirty) + if ok then {} else {p}
      ensures p in pages ==> p < |store|
      ensures store == if p in pages && p !in fails then old(store)[p := View()[p]] else old(store)
      ensures old(Synced(C(), store, dirty + left)) ==> Synced(C(), store, dirty + (left - {p}))
    {
      hide CacheOk, Accounted, FileView, Synced;
      ok := true;
      StorePaged();
      Indexes();
      if p in pages && p in fails {
        assert (dirty + {p}) + (left - {p}) == dirty + left;
        dirty := dirty + {p};
        ok := false;
      } else if p in pages {
        PagePut(C(), store, pageSize, p, dirty + left);
        store := store[p := frames[pages[p]]];
        if old(Synced(C(), store, dirty + left)) {
          SyncedMore(C(), store, (dirty + left) - {p}, dirty + (left - {p}));
        }
      } else if old(Synced(C(), store, dirty + left)) {
        SyncedLess(C(), store, dirty + left, dirty + (left - {p}), p);
      }
    }

    /** `writeback`: the view stays, and exactly the pages that fail are dirty again. */
    method Writeback(todo: set<nat>, fails: set<nat>) returns (ok: bool)
      requires Valid()
      modifies this`store, this`dirty
      ensures Valid() && View() == old(View()) && |store| == |old(store)|
      ensures dirty == old(dirty) + Refused(todo, fails) && (ok <==> Refused(todo, fails) == {})
      ensures old(Synced(C(), store, dirty + todo)) ==> Clean()
      // exactly the others that are cached reach the pager
      ensures store == Saved(View(), old(store), Accepted(todo, fails))
    {
      hide Valid, View, Synced, Saved, Accepted, Refused;
      var left := todo;
      ok := true;
      NoneYet(todo - left, fails);
      SavedNone(View(), store, Accepted(todo - left, fails));
      while left != {}
        invariant Valid() && View() == old(View()) && |store| == |old(store)| && left <= todo
        invariant dirty == old(dirty) + Refused(todo - left, fails)
        invariant ok <==> Refused(todo - left, fails) == {}
        invariant store == Saved(View(), old(store), Accepted(todo - left, fails))
        invariant old(Synced(C(), store, dirty + todo)) ==> Synced(C(), store, dirty + left)
        decreases left
      {
        var p :| p in left;
        RefusedNext(todo, left, p, fails);
        AcceptedNext(todo, left, p, fails);
        var put := PutPage(p, fails, left);
        if p in pages && p !in fails {
          SavedNext(View(), old(store), Accepted(todo - left, fails), p);
        }
        ok := ok && put;
        left := left - {p};
      }
      assert todo - left == todo && dirty + left == dirty;
    }

    lemma NoneYet(todo: set<nat>, fails: set<nat>)
      requires todo == {}
      ensures Refused(todo, fails) == {} && Accepted(todo, fails) == {}
    {
    }

    lemma AcceptedNext(todo: set<nat>, left: set<nat>, p: nat, fails: set<nat>)
      requires p in left && left <= todo
      ensures Accepted(todo - (left - {p}), fails) ==
                if p in pages && p !in fails then Accepted(todo - left, fails) + {p} else Accepted(todo - left, fails)
    {
    }

    lemma RefusedNext(todo: set<nat>, left: set<nat>, p: nat, fails: set<nat>)
      requires p in left && left <= todo
      ensures Refused(todo - (left - {p}), fails) ==
                if p in pages && p in fails then Refused(todo - left, fails) + {p} else Refused(todo - left, fails)
    {
    }

    /** `sync`. */
    method Sync(fails: set<nat>) returns (ok: bool)
      requires Valid()
      modifies this`store, this`dirty
      ensures Valid() && View() == old(View()) && (old(Clean()) ==> Clean())
      ensures dirty == Refused(old(dirty), fails) && (ok <==> dirty == {})
    {
      hide Valid, View, Synced;
      var todo := dirty;
      dirty := {};
      assert {} + todo == todo;
      ok := Writeback(todo, fails);
    }

    /** `sync_range`: the dirty pages of the range are written back, and no other page is touched.  Those that the
        pager refuses stay dirty, and it fails exactly when there is one. */
    method SyncRange(start: nat, end: nat, fails: set<nat>) returns (ok: bool)
      requires Valid()
      modifies this`store, this`dirty
      ensures Valid() && View() == old(View()) && |store| == |old(store)| && (old(Clean()) ==> Clean())
      ensures forall p :: p < start || p >= end ==> (p in dirty <==> p in old(dirty))
      ensures forall p :: start <= p < end ==> (p in dirty <==> p in old(dirty) && p in pages && p in fails)
      ensures ok <==> forall p :: start <= p < end ==> p !in dirty
      ensures store == Saved(View(), old(store), Accepted(Between(old(dirty), start, end), fails))
    {
      hide Valid, View, Synced, Saved;
      var todo := Between(dirty, start, end);
      assert (dirty - todo) + todo == dirty;
      dirty := dirty - todo;
      ok := Writeback(todo, fails);
    }

    /** `read_direct`: past the cache, after writing back what is dirty in the range.  It returns the bytes
        that a cached read returns, if every page that is not dirty is in step with the pager, and it keeps
        no frame. */
    method ReadDirect(n: nat, offset: nat, fails: set<nat>, io: nat -> Answer) returns (r: Result<seq<Byte>>)
      requires Valid()
      modifies this`store, this`dirty, this`frames
      ensures Valid() && View() == old(View()) && frames == old(frames) && (old(Clean()) ==> Clean())
      ensures r.Ok? ==> r.value == Window(Flat(if old(Clean()) then View() else store), offset, n)
      // it succeeds exactly when no dirty page of the range is refused and each batch can be read
      ensures r.Ok? <==> n == 0 || (Refused(InReach(old(dirty), offset, n), fails) == {}
                                    && Batches(|store|, PageOf(offset, pageSize),
                                               Arith.DivCeil(offset + n, pageSize), io))
      // nothing outside the range is written
      ensures |store| == |old(store)|
      ensures store == if n == 0 then old(store)
                       else Saved(View(), old(store), Accepted(InReach(old(dirty), offset, n), fails))
    {
      hide Valid, View, Flat, Synced, Window, Saved, Batches;
      ghost var clean := Clean();
      if n == 0 {
        WindowIs(Flat(if clean then View() else store), offset, 0, []);
        return Ok([]);
      }
      PageSizePositive();
      var start, end := PageOf(offset, pageSize), Arith.DivCeil(offset + n, pageSize);
      var ok := SyncRange(start, end, fails);
      SyncFails(old(dirty), start, end, fails);
      if !ok {
        return Err(EIO);
      }
      if clean {
        CleanRange(start, end);
      }
      StorePaged();
      ghost var now := C();
      r := DirectLoop(n, offset, io, if clean then View() else store);
      Same(now, C());
    }

    /** The dirty pages that the bytes from `offset` on touch. */
    ghost function InReach(dirty: set<nat>, offset: nat, n: nat): set<nat> {
      Between(dirty, PageOf(offset, pageSize), Arith.DivCeil(offset + n, pageSize))
    }

    /** The batches of `read_direct`. */
    method DirectLoop(n: nat, offset: nat, io: nat -> Answer, ghost view: seq<seq<Byte>>) returns (r: Result<seq<Byte>>)
      requires n > 0 && Paged(view, pageSize) && Paged(store, pageSize) && |view| == |store|
      requires forall p :: PageOf(offset, pageSize) <= p < Arith.DivCeil(offset + n, pageSize) && p < |store| ==>
                store[p] == view[p]
      modifies this`frames
      ensures frames == old(frames)
      ensures r.Ok? ==> r.value == Window(Flat(view), offset, n)
      ensures r.Ok? <==> Batches(|store|, PageOf(offset, pageSize), Arith.DivCeil(offset + n, pageSize), io)
    {
      hide Flat, Window, Arith.DivCeil, EndsAt, NextStart, PageOf;
      SizePositive(view, pageSize);
      ghost var start, end := PageOf(offset, pageSize), Arith.DivCeil(offset + n, pageSize);
      var out: seq<Byte> := [];
      ghost var flat, p := Flat(view), start;
      Starts(pageSize, offset, n);
      while |out| < n
        invariant frames == old(frames)
        invariant |out| <= n && (out != [] ==> offset < |flat|)
        invariant offset < |flat| ==> offset + |out| <= |flat| && out == flat[offset..offset + |out|]
        invariant |out| < n ==> p == PageOf(offset + |out|, pageSize) < end
        invariant |out| == n ==> p >= end
        invariant Batches(|store|, start, end, io) == Batches(|store|, p, end, io)
        decreases n - |out|
      {
        Touched(offset, offset + |out|, pageSize);
        var piece := DirectPiece(offset + |out|, n - |out|, start, end, io, view);
        if piece.Err? {
          return Err(piece.error);
        }
        if piece.value == [] {
          PastEnd(view, pageSize, offset + |out|);
          break;
        }
        Continues(flat, offset, out, piece.value);
        NextBatch(|store|, p, end, offset + |out|, |piece.value|, n - |out|, pageSize);
        p := NextStart(|store|, p);
        out := out + piece.value;
      }
      WindowIs(flat, offset, n, out);
      r := Ok(out);
    }

    lemma SyncFails(was: set<nat>, start: nat, end: nat, fails: set<nat>)
      ensures Refused(Between(was, start, end), fails) == {} <==>
                forall p :: start <= p < end ==> !(p in was && p in pages && p in fails)
    {
      if p :| start <= p < end && p in was && p in pages && p in fails {
        assert p in Refused(Between(was, start, end), fails);
      }
    }

    /** A history in which no write can fail half way: direct reads return what cached reads return, at each
        point, and pages that are not dirty stay in step with the pager. */
    method Run(ops: seq<Op>) returns (direct: seq<Result<seq<Byte>>>, cached: seq<Result<seq<Byte>>>)
      requires Valid()
      modifies this
      ensures Valid() && |direct| == |cached| == |ops|
      ensures old(Clean()) && (forall k :: 0 <= k < |ops| ==> Harmless(ops[k], pageSize)) ==>
                Clean() && forall k :: 0 <= k < |ops| && ops[k].ReadsDirect? ==> Agree(direct[k], cached[k])
    {
      hide Valid, View, Clean, Harmless, Window, Flat, Patch, Agree;
      direct, cached := [], [];
      for k := 0 to |ops|
        invariant Valid() && |direct| == |cached| == k
        invariant old(Clean()) && (forall i :: 0 <= i < |ops| ==> Harmless(ops[i], pageSize)) ==>
                  Clean() && forall i :: 0 <= i < k && ops[i].ReadsDirect? ==> Agree(direct[i], cached[i])
      {
        var d, c := Do(ops[k]);
        direct, cached := direct + [d], cached + [c];
      }
    }

    /** What one operation of a history returns; a direct read is followed by a cached one for comparison. */
    method Do(op: Op) returns (direct: Result<seq<Byte>>, cached: Result<seq<Byte>>)
      requires Valid()
      modifies this
      ensures Valid()
      ensures old(Clean()) && Harmless(op, pageSize) ==> Clean()
      ensures old(Clean()) && op.ReadsDirect? ==>
                && Agree(direct, cached)
                && (direct.Ok? ==> direct.value == Window(Flat(old(View())), op.offset, op.n))
                && (cached.Ok? ==> cached.value == Window(Flat(old(View())), op.offset, op.n))
    {
      hide Valid, View, Clean, Harmless, Window, Flat, Patch, Covered;
      direct, cached := Ok([]), Ok([]);
      match op
      case Reads(n, offset, io) =>
        cached := Read(n, offset, io);
      case Writes(data, offset, io) =>
        if Harmless(op, pageSize) {
          HarmlessWrite(op);
        }
        ghost var done;
        var r;
        ghost var flat := Flat(View());
        r, done := WriteFile(data, offset, io);
        if done == 0 {
          CoveredNone(flat, pageSize, old(dirty), offset, data);
        }
      case Syncs(fails) =>
        var ok := Sync(fails);
      case ReadsDirect(n, offset, fails, io) =>
        direct := ReadDirect(n, offset, fails, io);
        cached := Read(n, offset, io);
    }

    /** It gets through, or writes nothing. */
    lemma HarmlessWrite(op: Op)
      requires Valid() && op.Writes? && Harmless(op, pageSize)
      ensures Succeeds(op.data, op.offset, op.io) || Takes(op.data, op.offset, op.io) == 0
    {
      hide Arith.DivCeil, Looked, Gets;
      if op.data != [] {
        var p, end := PageOf(op.offset, pageSize), Arith.DivCeil(op.offset + |op.data|, pageSize);
        Starts(pageSize, op.offset, |op.data|);
        StopNext(p, end, op.io);
        if p < |store| && Gets(readahead, L(), p, op.io(p)) {
          AllThrough(readahead, |store|, Looked(readahead, |store|, L(), p, op.io(p)), p + 1, end, op.io);
        }
      }
    }

    lemma StorePaged()
      requires Valid()
      ensures Paged(store, pageSize) && |View()| == |store| && Paged(View(), pageSize)
    {
    }

    lemma CleanRange(start: nat, end: nat)
      requires Valid() && Clean() && forall p :: start <= p < end && p in pages ==> p !in dirty
      ensures forall p :: start <= p < end && p < |store| ==> store[p] == View()[p]
    {
    }

    /** One batch of `read_direct`. */
    method DirectPiece(cur: nat, limit: nat, ghost start: nat, ghost end: nat, io: nat -> Answer,
        ghost view: seq<seq<Byte>>)
      returns (r: Result<seq<Byte>>)
      requires Paged(view, pageSize) && Paged(store, pageSize) && |view| == |store| && limit > 0
      requires start <= PageOf(cur, pageSize) && end == Arith.DivCeil(cur + limit, pageSize)
      requires forall p :: start <= p < end && p < |store| ==> store[p] == view[p]
      modifies this`frames
      ensures frames == old(frames)
      ensures r.Ok? ==> (r.value == [] <==> cur >= |Flat(view)|)
      ensures r.Ok? && r.value != [] ==>
                |r.value| <= limit && cur + |r.value| <= |Flat(view)| && r.value == Flat(view)[cur..cur + |r.value|]
      ensures r.Ok? <==> io(PageOf(cur, pageSize)).first == Fine
      ensures r.Err? ==> r.error == Code(io(PageOf(cur, pageSize)).first)
      ensures r.Ok? && r.value != [] ==>
                EndsAt(|store|, PageOf(cur, pageSize), end, cur, |r.value|, limit, pageSize)
    {
      hide Flat, Arith.DivCeil, EndsAt;
      var index, misalign := cur / pageSize, cur % pageSize;
      var want := Arith.DivCeil(misalign + limit, pageSize);
      want := if want < RA_MAX_PAGES then want else RA_MAX_PAGES;
      if io(index).first != Fine {
        return Err(if io(index).first == IoError then EIO else ENOMEM);
      }
      InFile(view, pageSize, cur);
      WithinRange(cur, limit, pageSize);
      var out := FetchAndCopy(cur, limit, want, view);
      if out != [] {
        Ends(|store|, index, end, cur, |out|, limit, want, pageSize);
      }
      r := Ok(out);
    }

    /** The frames of a batch are obtained, copied and freed. */
    method FetchAndCopy(cur: nat, limit: nat, want: nat, ghost view: seq<seq<Byte>>) returns (out: seq<Byte>)
      requires Paged(view, pageSize) && Paged(store, pageSize) && |view| == |store| && limit > 0 && want > 0
      requires forall p :: PageOf(cur, pageSize) <= p < PageOf(cur, pageSize) + want && p < |store| ==>
                store[p] == view[p]
      modifies this`frames
      ensures frames == old(frames)
      ensures |out| <= limit && (out == [] <==> PageOf(cur, pageSize) >= |store|)
      ensures out != [] ==> cur + |out| <= |Flat(view)| && out == Flat(view)[cur..cur + |out|]
      ensures out != [] ==>
                var last := Arith.Times(PageOf(cur, pageSize) + Within(PageOf(cur, pageSize), want, |store|), pageSize);
                cur + |out| <= last && (|out| == limit || cur + |out| == last)
    {
      hide Flat, PageOf;
      ghost var c := C();
      var batch := Fetch(PageOf(cur, pageSize), want);
      out := CopyBatch(cur, limit, batch, view);
      FreeAll(batch);
      Same(c, C());
    }

    /** The copy loop over the frames of a batch. */
    method CopyBatch(cur: nat, limit: nat, batch: seq<nat>, ghost view: seq<seq<Byte>>) returns (out: seq<Byte>)
      requires Paged(view, pageSize) && limit > 0 && (batch != [] ==> PageOf(cur, pageSize) + |batch| <= |view|)
      requires forall i :: 0 <= i < |batch| ==>
                batch[i] in frames && frames[batch[i]] == view[PageOf(cur, pageSize) + i]
      ensures |out| <= limit && (out == [] <==> batch == [])
      ensures out != [] ==> cur + |out| <= |Flat(view)| && out == Flat(view)[cur..cur + |out|]
      ensures out != [] ==>
                var last := Arith.Times(PageOf(cur, pageSize) + |batch|, pageSize);
                cur + |out| <= last && (|out| == limit || cur + |out| == last)
    {
      hide Flat, Arith.Times;
      var index, misalign := PageOf(cur, pageSize), cur % pageSize;
      out := [];
      DivSum(cur, pageSize);
      for i := 0 to |batch|
        invariant |out| <= limit && (out == [] <==> i == 0)
        invariant out != [] ==> cur + |out| <= |Flat(view)| && out == Flat(view)[cur..cur + |out|]
        invariant |out| < limit ==> cur + |out| == if i == 0 then cur else Arith.Times(index + i, pageSize)
        invariant i > 0 ==> cur + |out| <= Arith.Times(index + i, pageSize)
      {
        if |out| >= limit {
          LaterPage(index + i, index + |batch|, pageSize);
          break;
        }
        var off := if i == 0 then misalign else 0;
        var copy := if pageSize - off < limit - |out| then pageSize - off else limit - |out|;
        NextPage(cur, i, cur + |out|, pageSize);
        Piece(view, pageSize, cur + |out|, copy);
        Arith.TimesAdd(index + i, 1, pageSize);
        Arith.TimesOne(pageSize);
        PieceNext(Flat(view), cur, out, frames[batch[i]][off..off + copy]);
        out := out + frames[batch[i]][off..off + copy];
      }
    }

    /** The frames go back to the allocator. */
    method FreeAll(batch: seq<nat>)
      modifies this`frames
      ensures forall f :: f in frames <==> f in old(frames) && f !in batch
      ensures forall f :: f in frames ==> frames[f] == old(frames)[f]
    {
      for i := 0 to |batch|
        invariant forall f :: f in frames <==> f in old(frames) && f !in batch[..i]
        invariant forall f :: f in frames ==> frames[f] == old(frames)[f]
      {
        frames := frames - {batch[i]};
        assert batch[..i + 1] == batch[..i] + [batch[i]];
      }
      assert batch[..|batch|] == batch;
    }
  }

  /** A write whose second page cannot be read in leaves its first byte in a page that is neither dirty nor
      in step with the pager: a cached read sees it, a direct read does not. */
  method FailedWriteUnseen() returns (r: Result<nat>, cached: Result<seq<Byte>>, direct: Result<seq<Byte>>)
    ensures r.Err? && cached == Ok([1]) && direct == Ok([0])
  {
    hide Flat, Window, Patch, Stop, Through, Gets, Looked, Reached, Covered, PagesOf;
    TwoPagesFlat();
    PatchFirst();
    WindowFirst(1);
    var o := new PagedMemoryObject(1, false, TwoPages());
    ghost var done;
    SecondFails(o.L());
    r, done := o.WriteFile([1, 1], 0, SecondPageFails);
    FirstFine(o.L());
    cached := o.Read(1, 0, AllFine);
    if o.Clean() {
      o.CleanView();
    }
    direct := DirectFirst(o);
  }

  /** A direct read of the first byte, with nothing dirty. */
  method DirectFirst(o: PagedMemoryObject) returns (direct: Result<seq<Byte>>)
    requires o.Valid() && o.pageSize == 1 && o.store == TwoPages() && o.dirty == {} && !o.Clean()
    modifies o`store, o`dirty, o`frames
    ensures direct == Ok([0])
  {
    hide Flat, Window, Saved, Batches, Synced, FileView, CacheOk, Accounted;
    ghost var store := o.store;
    FirstFine(o.L());
    TwoPagesFlat();
    WindowFirst(0);
    direct := o.ReadDirect(1, 0, {}, AllFine);
    SavedNone(o.View(), store, o.Accepted(o.InReach({}, 0, 1), {}));
  }

  function SecondPageFails(p: nat): Answer {
    Answer(if p == 1 then IoError else Fine, Fine)
  }

  function AllFine(p: nat): Answer {
    Answer(Fine, Fine)
  }

  lemma SecondFails(l: Look)
    requires l.keys == {}
    ensures Stop(false, 2, l, 0, 2, SecondPageFails) == 1 && !Through(false, 2, 1, 2, SecondPageFails)
    ensures PageOf(0, 1) == 0 && Arith.DivCeil(2, 1) == 2 && Reached(1, 0, 2, 1) == 1
  {
    assert Planned(false, l, 0) == 1 && Span(0, 0) == {};
    var m := Looked(false, 2, l, 0, SecondPageFails(0));
    assert m.keys == {0};
    assert !Gets(false, m, 1, SecondPageFails(1));
  }

  lemma FirstFine(l: Look)
    ensures Stop(false, 2, l, 0, 1, AllFine) == 1 && Through(false, 2, 1, 1, AllFine)
    ensures PageOf(0, 1) == 0 && Arith.DivCeil(1, 1) == 1 && Batches(2, 0, 1, AllFine)
  {
  }

  function TwoPages(): (r: seq<seq<Byte>>)
    ensures Paged(r, 1) && |r| == 2
  {
    [[0], [0]]
  }

  lemma TwoPagesFlat()
    ensures Flat(TwoPages()) == [0, 0]
  {
    var p: seq<Byte> := [0];
    assert TwoPages() == [p] + [p];
    FlatConcat([p], [p]);
    FlatOne(p);
  }

  lemma PatchFirst()
    ensures Patch([0, 0], 0, [1, 1][..1]) == [1, 0]
  {
  }

  lemma WindowFirst(x: Byte)
    ensures Window([x, 0], 0, 1) == [x]
  {
  }

  /** The pages of a batch lie in the range that was written back. */
  lemma WithinRange(cur: nat, limit: nat, size: nat)
    requires size > 0 && limit > 0
    ensures Arith.DivCeil(cur % size + limit, size) > 0
    ensures cur / size + Arith.DivCeil(cur % size + limit, size) == Arith.DivCeil(cur + limit, size)
  {
    var q, m := cur / size, cur % size + limit + size - 1;
    assert cur + limit + size - 1 == q * size + m;
    var k, x := m / size, m % size;
    assert m == k * size + x;
    assert cur + limit + size - 1 == (q + k) * size + x;
    Arith.DivModUnique(q + k, size, x);
  }

  /** Where the copy stands after `i` pages of a batch. */
  lemma NextPage(cur: nat, i: nat, at: nat, size: nat)
    requires size > 0 && at == if i == 0 then cur else Arith.Times(cur / size + i, size)
    ensures at / size == cur / size + i && at % size == if i == 0 then cur % size else 0
  {
    if i > 0 {
      Arith.DivModUnique(cur / size + i, size, 0);
    }
  }

  lemma LaterPage(a: nat, b: nat, size: nat)
    requires a <= b
    ensures Arith.Times(a, size) <= Arith.Times(b, size)
  {
    Arith.MulMono(a, b, size);
  }

  /** The pages that hold the bytes from `offset` on. */
  ghost function PagesOf(offset: nat, n: nat, size: nat): set<nat> {
    var start, end := PageOf(offset, size), Arith.DivCeil(offset + n, size);
    if end <= start then {} else Span(start, end - start)
  }

  lemma {:induction false} SpanIs(index: nat, n: nat, p: nat)
    ensures p in Span(index, n) <==> index <= p < index + n
  {
    if n > 0 {
      SpanIs(index, n - 1, p);
    }
  }

  function Between(dirty: set<nat>, start: nat, end: nat): set<nat> {
    set p | p in dirty && start <= p < end
  }

  /** What the pager has once the pages of `todo` have been written to it. */
  ghost function Saved(view: seq<seq<Byte>>, store: seq<seq<Byte>>, todo: set<nat>): seq<seq<Byte>> {
    seq(|store|, p requires 0 <= p < |store| => if p in todo && p < |view| then view[p] else store[p])
  }

  lemma SavedNone(view: seq<seq<Byte>>, store: seq<seq<Byte>>, todo: set<nat>)
    requires todo == {}
    ensures Saved(view, store, todo) == store
  {
  }

  lemma SavedNext(view: seq<seq<Byte>>, store: seq<seq<Byte>>, todo: set<nat>, p: nat)
    requires p < |store| && p < |view|
    ensures |Saved(view, store, todo)| == |store|
    ensures Saved(view, store, todo + {p}) == Saved(view, store, todo)[p := view[p]]
  {
  }

  predicate Agree(a: Result<seq<Byte>>, b: Result<seq<Byte>>) {
    a.Ok? && b.Ok? ==> a.value == b.value
  }

  /** Where the batch after the one at page `p` begins. */
  function NextStart(total: nat, p: nat): nat {
    if p + RA_MAX_PAGES < total then p + RA_MAX_PAGES else if p < total then total else p
  }

  /** Every batch of a direct read from page `p` on can be read; the one at or past the end of the file is empty
      and the last. */
  predicate Batches(total: nat, p: nat, end: nat, io: nat -> Answer)
    decreases if end > p then end - p else 0
  {
    p < end ==> io(p).first == Fine && (p < total ==> Batches(total, NextStart(total, p), end, io))
  }

  /** Where a batch of `got` bytes from `cur` on ends: with what was asked for, or with the batch. */
  predicate EndsAt(total: nat, p: nat, end: nat, cur: nat, got: nat, limit: nat, size: nat) {
    && p < total
    && (got == limit ==> NextStart(total, p) >= end)
    && (got < limit ==> cur + got == Arith.Times(NextStart(total, p), size))
  }

  lemma Ends(total: nat, p: nat, end: nat, cur: nat, got: nat, limit: nat, want: nat, size: nat)
    requires size > 0 && p < total && p < end == Arith.DivCeil(cur + limit, size) && got <= limit
    requires want == if end - p < RA_MAX_PAGES then end - p else RA_MAX_PAGES
    requires var last := Arith.Times(p + Within(p, want, total), size);
             cur + got <= last && (got == limit || cur + got == last)
    ensures EndsAt(total, p, end, cur, got, limit, size)
  {
    var q := p + Within(p, want, total);
    if got == limit {
      CeilBelow(q, cur + limit, size);
    } else {
      BelowCeil(q, cur + limit, size);
    }
  }

  lemma CeilBelow(q: nat, e: nat, size: nat)
    requires size > 0 && e <= Arith.Times(q, size)
    ensures Arith.DivCeil(e, size) <= q
  {
    var c := (e + size - 1) / size;
    if c > q {
      Arith.MulStep(q, size);
      Arith.MulMono(q + 1, c, size);
    }
  }

  lemma PastEnd(view: seq<seq<Byte>>, size: nat, cur: nat)
    requires Paged(view, size) && cur >= |Flat(view)|
    ensures PageOf(cur, size) >= |view|
  {
    InFile(view, size, cur);
  }

  lemma SizePositive(view: seq<seq<Byte>>, size: nat)
    requires Paged(view, size)
    ensures size > 0
  {
  }

  lemma NextBatch(total: nat, p: nat, end: nat, cur: nat, got: nat, limit: nat, size: nat)
    requires size > 0 && EndsAt(total, p, end, cur, got, limit, size) && got <= limit
    requires end == Arith.DivCeil(cur + limit, size)
    ensures got < limit ==> PageOf(cur + got, size) < end
    ensures p < total && NextStart(total, p) > p
    ensures got < limit ==> PageOf(cur + got, size) == NextStart(total, p)
    ensures got == limit ==> NextStart(total, p) >= end
  {
    if got < limit {
      Arith.DivModUnique(NextStart(total, p), size, 0);
      BelowCeil(NextStart(total, p), cur + limit, size);
    }
  }

  lemma PieceNext(bytes: seq<Byte>, cur: nat, out: seq<Byte>, piece: seq<Byte>)
    requires cur + |out| + |piece| <= |bytes| && (out != [] ==> out == bytes[cur..cur + |out|])
    requires piece == bytes[cur + |out|..cur + |out| + |piece|]
    ensures out + piece == bytes[cur..cur + |out + piece|]
  {
  }

  lemma BelowCeil(q: nat, e: nat, size: nat)
    requires size > 0 && Arith.Times(q, size) < e
    ensures q < Arith.DivCeil(e, size)
  {
    var c := (e + size - 1) / size;
    if c <= q {
      Arith.MulMono(c, q, size);
    }
  }

  lemma Touched(offset: nat, cur: nat, size: nat)
    requires size > 0 && offset <= cur
    ensures PageOf(offset, size) <= PageOf(cur, size) && Arith.Times(PageOf(cur, size), size) <= cur
  {
    if cur / size < offset / size {
      Arith.MulStep(cur / size, size);
      Arith.MulMono(cur / size + 1, offset / size, size);
    }
  }

  /** Pages that are not dirty are in step exactly when their view is what the pager has. */
  lemma SyncedView(c: Cache, store: seq<seq<Byte>>, size: nat, dirty: set<nat>)
    requires CacheOk(c, store, size)
    ensures Synced(c, store, dirty) <==> forall q :: 0 <= q < |store| && q !in dirty ==>
              FileView(c, store, size)[q] == store[q]
  {
    var v := FileView(c, store, size);
    if forall q :: 0 <= q < |store| && q !in dirty ==> v[q] == store[q] {
      forall i | i in c.pages && i !in dirty
        ensures i < |store| && c.pages[i] in c.frames && c.frames[c.pages[i]] == store[i]
      {
        assert v[i] == store[i];
      }
    }
  }

  /** Two files have the same page exactly when they have the same bytes there. */
  lemma SamePage(v: seq<seq<Byte>>, w: seq<seq<Byte>>, size: nat, q: nat)
    requires Paged(v, size) && Paged(w, size) && q < |v| == |w|
    ensures |Flat(v)| == |Flat(w)|
    ensures v[q] == w[q] <==> forall x :: 0 <= x < |Flat(v)| && PageOf(x, size) == q ==> Flat(v)[x] == Flat(w)[x]
  {
    hide Flat;
    FlatLength(v, size);
    FlatLength(w, size);
    forall x: nat | PageOf(x, size) == q
      ensures x < |Flat(v)| && Flat(v)[x] == v[q][x % size] && Flat(w)[x] == w[q][x % size]
    {
      ByteOf(v, size, x);
      ByteOf(w, size, x);
    }
    if forall x :: 0 <= x < |Flat(v)| && PageOf(x, size) == q ==> Flat(v)[x] == Flat(w)[x] {
      forall o | 0 <= o < size
        ensures v[q][o] == w[q][o]
      {
        var x := Place(q, size, o);
        assert Flat(v)[x] == Flat(w)[x];
      }
    }
  }

  lemma Place(q: nat, size: nat, o: nat) returns (x: nat)
    requires o < size
    ensures PageOf(x, size) == q && x % size == o
  {
    x := q * size + o;
    Arith.DivModUnique(q, size, o);
  }

  lemma ByteOf(v: seq<seq<Byte>>, size: nat, x: nat)
    requires Paged(v, size) && x / size < |v|
    ensures x < |Flat(v)| && Flat(v)[x] == v[x / size][x % size]
  {
    hide Flat;
    Piece(v, size, x, 1);
    assert Flat(v)[x..x + 1][0] == v[x / size][x % size..x % size + 1][0];
  }

  /** After bytes have changed without a mark, pages that are not dirty are in step exactly when none of the
      changes is in such a page. */
  lemma CleanAfter(c: Cache, d: Cache, store: seq<seq<Byte>>, size: nat, dirty: set<nat>, offset: nat, data: seq<Byte>)
    requires size > 0 && CacheOk(c, store, size) && CacheOk(d, store, size)
    requires data == [] ==> FileView(d, store, size) == FileView(c, store, size)
    requires data != [] ==> offset + |data| <= |Flat(FileView(c, store, size))|
    requires data != [] ==> Flat(FileView(d, store, size)) == Patch(Flat(FileView(c, store, size)), offset, data)
    ensures Synced(c, store, dirty) ==>
              (Synced(d, store, dirty) <==>
               Covered(Flat(FileView(c, store, size)), size, dirty, offset, data))
  {
    hide Flat, CacheOk, Synced, Patch;
    var v, w := FileView(c, store, size), FileView(d, store, size);
    SyncedView(c, store, size, dirty);
    SyncedView(d, store, size, dirty);
    if Synced(c, store, dirty) && data != [] {
      PatchDiffers(Flat(v), offset, data);
      if Covered(Flat(v), size, dirty, offset, data) {
        forall q | 0 <= q < |store| && q !in dirty
          ensures w[q] == store[q]
        {
          SamePage(v, w, size, q);
          assert v[q] == store[q];
        }
      }
      if Synced(d, store, dirty) {
        forall i | 0 <= i < |data| && PageOf(offset + i, size) !in dirty
          ensures data[i] == Flat(v)[offset + i]
        {
          InFile(v, size, offset + i);
          SamePage(v, w, size, PageOf(offset + i, size));
          assert Flat(w)[offset + i] == data[i];
        }
      }
    }
  }

  lemma CoveredNone(bytes: seq<Byte>, size: nat, dirty: set<nat>, offset: nat, data: seq<Byte>)
    ensures Covered(bytes, size, dirty, offset, data[..0])
  {
  }

  lemma PatchDiffers(bytes: seq<Byte>, at: nat, data: seq<Byte>)
    requires at + |data| <= |bytes|
    ensures forall x :: 0 <= x < |bytes| ==>
                Patch(bytes, at, data)[x] == if at <= x < at + |data| then data[x - at] else bytes[x]
  {
  }

  lemma SyncedMore(c: Cache, store: seq<seq<Byte>>, marked: set<nat>, dirty: set<nat>)
    requires Synced(c, store, marked) && marked <= dirty
    ensures Synced(c, store, dirty)
  {
  }

  lemma SyncedLess(c: Cache, store: seq<seq<Byte>>, marked: set<nat>, dirty: set<nat>, p: nat)
    requires Synced(c, store, marked) && p !in c.pages && marked - {p} <= dirty
    ensures Synced(c, store, dirty)
  {
  }

  lemma Extended(flat: seq<Byte>, before: seq<Byte>, offset: nat, data: seq<Byte>, done: nat, n: nat)
    requires done + n <= |data| && offset + done + n <= |flat| == |before|
    requires before == Patch(flat, offset, data[..done])
    ensures Patch(before, offset + done, data[done..][..n]) == Patch(flat, offset, data[..done + n])
  {
    var a, b := Patch(before, offset + done, data[done..][..n]), Patch(flat, offset, data[..done + n]);
    assert |a| == |b|;
    forall i | 0 <= i < |a|
      ensures a[i] == b[i]
    {
    }
  }

  lemma PatchNone(flat: seq<Byte>, offset: nat, data: seq<Byte>)
    requires offset <= |flat|
    ensures Patch(flat, offset, data[..0]) == flat
  {
  }

  lemma Continues(bytes: seq<Byte>, offset: nat, out: seq<Byte>, piece: seq<Byte>)
    requires offset + |out| + |piece| <= |bytes| && out == bytes[offset..offset + |out|]
    requires piece == bytes[offset + |out|..offset + |out| + |piece|]
    ensures out + piece == bytes[offset..offset + |out + piece|]
  {
  }

  lemma WindowIs(bytes: seq<Byte>, offset: nat, n: nat, out: seq<Byte>)
    requires |out| <= n && (out != [] ==> offset < |bytes|)
    requires offset < |bytes| ==> offset + |out| <= |bytes| && out == bytes[offset..offset + |out|]
    requires |out| < n ==> offset + |out| >= |bytes|
    ensures out == Window(bytes, offset, n)
  {
  }

  lemma Same(c: Cache, d: Cache)
    requires d.pages == c.pages && (forall f :: f in c.frames ==> f in d.frames && d.frames[f] == c.frames[f])
    requires forall f :: f in d.frames ==> f in c.frames
    ensures c == d
  {
    assert c.frames == d.frames;
  }

  lemma InstallIs(c: Cache, i: nat, f: nat)
    ensures Install(c, i, f) == if i in c.pages then Cache(c.pages, c.frames - {f})
              else Cache(c.pages[i := f], c.frames)
  {
  }

  lemma Rest(batch: seq<nat>, k: nat, loose: set<nat>)
    requires k < |batch| && batch[k] !in loose
    requires forall i, j :: 0 <= i < j < |batch| ==> batch[i] != batch[j]
    ensures Arith.Elements(batch[k..]) + loose - {batch[k]} == Arith.Elements(batch[k + 1..]) + loose
  {
    assert batch[k..] == [batch[k]] + batch[k + 1..];
  }

  lemma AllPlaced(batch: seq<nat>, loose: set<nat>)
    ensures Arith.Elements(batch[|batch|..]) + loose == loose
  {
  }

  lemma SpanNone(index: nat, keys: set<nat>)
    ensures keys + Span(index, 0) == keys
  {
  }

  lemma {:induction false} SpanHas(index: nat, n: nat)
    requires n > 0
    ensures index in Span(index, n)
  {
    if n > 1 {
      SpanHas(index, n - 1);
    }
  }

  lemma SpanNext(index: nat, k: nat, keys: set<nat>, more: set<nat>)
    requires more == keys + Span(index, k)
    ensures more + {index + k} == keys + Span(index, k + 1)
  {
    assert Span(index, k + 1) == Span(index, k) + {index + k};
  }
}
