/**
  The page cache under several threads.  `try_get_page` takes no lock while the pager reads, so other threads
  look up, write and write back pages between the moment a frame is filled and the moment it is installed.  A
  step here is one critical section or one call of the pager, and the steps of all threads interleave freely.
  */
module CacheThreads {
  import opened Common
  import opened PageCache
  import Arith

  /** The cache, the pager's pages, and the frames in flight with the page that each was filled for. */
  datatype World = World(c: Cache, store: seq<seq<Byte>>, flying: map<nat, nat>)

  datatype Step =
    | Obtain(i: nat, f: nat)            // the pager fills a new frame
    | Place(f: nat)                     // a frame is installed, or freed because its page is cached by now
    | Release(f: nat)                   // a direct read frees its frame
    | Alter(p: nat, page: seq<Byte>)    // a cached page gets new contents
    | Put(p: nat)                       // a cached page is written back

  predicate Can(w: World, size: nat, s: Step) {
    match s
    case Obtain(i, f) => i < |w.store| && f !in w.c.frames
    case Place(f) => f in w.flying
    case Release(f) => f in w.flying
    case Alter(p, page) => p in w.c.pages && |page| == size
    case Put(p) => p < |w.store| && p in w.c.pages && w.c.pages[p] in w.c.frames
  }

  function Next(w: World, size: nat, s: Step): World
    requires Can(w, size, s)
  {
    match s
    case Obtain(i, f) => World(w.c.(frames := w.c.frames[f := w.store[i]]), w.store, w.flying[f := i])
    case Place(f) => World(Install(w.c, w.flying[f], f), w.store, w.flying - {f})
    case Release(f) => World(w.c.(frames := w.c.frames - {f}), w.store, w.flying - {f})
    case Alter(p, page) => w.(c := w.c.(frames := w.c.frames[w.c.pages[p] := page]))
    case Put(p) => w.(store := w.store[p := w.c.frames[w.c.pages[p]]])
  }

  /** Each frame in flight holds what the pager has, unless its page is cached; no other frame is lost. */
  ghost predicate Inv(w: World, size: nat) {
    && CacheOk(w.c, w.store, size) && Accounted(w.c, w.flying.Keys)
    && forall f :: f in w.flying ==> Fetched(w.c, w.store, size, w.flying[f], f)
  }

  ghost function View(w: World, size: nat): seq<seq<Byte>>
    requires Inv(w, size)
  {
    FileView(w.c, w.store, size)
  }

  /** What a step does to the file as its users see it. */
  function Effect(v: seq<seq<Byte>>, s: Step): seq<seq<Byte>> {
    if s.Alter? && s.p < |v| then v[s.p := s.page] else v
  }

  lemma StepKeeps(w: World, size: nat, s: Step)
    requires Inv(w, size) && Can(w, size, s)
    ensures Inv(Next(w, size, s), size)
    ensures View(Next(w, size, s), size) == Effect(View(w, size), s)
  {
    hide FileView;
    match s {
      case Obtain(i, f) => ObtainKeeps(w, size, i, f);
      case Place(f) => PlaceKeeps(w, size, f);
      case Release(f) => ReleaseKeeps(w, size, f);
      case Alter(p, page) => AlterKeeps(w, size, p, page);
      case Put(p) => PutKeeps(w, size, p);
    }
  }

  lemma ObtainKeeps(w: World, size: nat, i: nat, f: nat)
    requires Inv(w, size) && Can(w, size, Obtain(i, f))
    ensures Inv(Next(w, size, Obtain(i, f)), size)
    ensures View(Next(w, size, Obtain(i, f)), size) == View(w, size)
  {
    var x := Next(w, size, Obtain(i, f));
    assert x.flying.Keys == w.flying.Keys + {f};
    forall j | j in w.c.pages
      ensures w.c.pages[j] != f
    {
    }
  }

  lemma PlaceKeeps(w: World, size: nat, f: nat)
    requires Inv(w, size) && f in w.flying
    ensures Inv(Next(w, size, Place(f)), size)
    ensures View(Next(w, size, Place(f)), size) == View(w, size)
  {
    hide CacheOk, Accounted, Fetched, Install, FileView;
    var x := Next(w, size, Place(f));
    InstallKeeps(w.c, w.store, size, w.flying[f], f, {}, w.flying.Keys);
    assert x.flying.Keys == w.flying.Keys - {f};
    forall g | g in x.flying
      ensures Fetched(x.c, x.store, size, x.flying[g], g)
    {
      InstallOther(w.c, w.store, size, w.flying[f], f, w.flying[g], g);
    }
  }

  lemma ReleaseKeeps(w: World, size: nat, f: nat)
    requires Inv(w, size) && f in w.flying
    ensures Inv(Next(w, size, Release(f)), size)
    ensures View(Next(w, size, Release(f)), size) == View(w, size)
  {
    var x := Next(w, size, Release(f));
    assert x.flying.Keys == w.flying.Keys - {f};
    forall j | j in w.c.pages
      ensures w.c.pages[j] != f
    {
      assert w.c.pages[j] in w.c.pages.Values;
    }
  }

  lemma AlterKeeps(w: World, size: nat, p: nat, page: seq<Byte>)
    requires Inv(w, size) && Can(w, size, Alter(p, page))
    ensures Inv(Next(w, size, Alter(p, page)), size)
    ensures View(Next(w, size, Alter(p, page)), size) == Effect(View(w, size), Alter(p, page))
  {
    var x := Next(w, size, Alter(p, page));
    assert w.c.pages[p] in w.c.pages.Values;
    assert View(x, size) == View(w, size)[p := page];
  }

  lemma PutKeeps(w: World, size: nat, p: nat)
    requires Inv(w, size) && Can(w, size, Put(p))
    ensures Inv(Next(w, size, Put(p)), size)
    ensures View(Next(w, size, Put(p)), size) == View(w, size)
  {
    PagePut(w.c, w.store, size, p, {});
  }

  // ----- runs

  predicate Runs(ws: seq<World>, size: nat, steps: seq<Step>) {
    && |ws| == |steps| + 1
    && forall k :: 0 <= k < |steps| ==> Can(ws[k], size, steps[k]) && ws[k + 1] == Next(ws[k], size, steps[k])
  }

  function Effects(v: seq<seq<Byte>>, steps: seq<Step>): seq<seq<Byte>> {
    if steps == [] then v else Effect(Effects(v, steps[..|steps| - 1]), steps[|steps| - 1])
  }

  /** In every interleaving the users see the writes to cached pages, in their order, and nothing else. */
  lemma {:induction false} RunView(ws: seq<World>, size: nat, steps: seq<Step>)
    requires Runs(ws, size, steps) && Inv(ws[0], size)
    ensures Inv(ws[|steps|], size) && View(ws[|steps|], size) == Effects(View(ws[0], size), steps)
  {
    hide Inv, View, Can, Next, Effect;
    if steps != [] {
      var n := |steps| - 1;
      RunView(ws[..n + 1], size, steps[..n]);
      StepKeeps(ws[n], size, steps[n]);
    }
  }

  /** The frames that a thread has in flight can be installed at any point of a run; `InstallBatch` is told of
      those that the other threads have. */
  lemma BatchReady(w: World, size: nat, index: nat, batch: seq<nat>)
    requires Inv(w, size)
    requires forall i :: 0 <= i < |batch| ==> batch[i] in w.flying && w.flying[batch[i]] == index + i
    ensures Accounted(w.c, Arith.Elements(batch) + (w.flying.Keys - Arith.Elements(batch)))
    ensures forall i :: 0 <= i < |batch| ==>
                Fetched(w.c, w.store, size, index + i, batch[i]) && batch[i] !in w.flying.Keys - Arith.Elements(batch)
    ensures forall i, j :: 0 <= i < j < |batch| ==> batch[i] != batch[j]
  {
    assert forall i :: 0 <= i < |batch| ==> batch[i] in Arith.Elements(batch);
    assert Arith.Elements(batch) + (w.flying.Keys - Arith.Elements(batch)) == w.flying.Keys;
  }

  /** `InstallBatch` after any run: the view is that of the writes made meanwhile. */
  method InstallLate(o: PagedMemoryObject, index: nat, batch: seq<nat>, ghost ws: seq<World>, ghost steps: seq<Step>)
    requires Runs(ws, o.pageSize, steps) && Inv(ws[0], o.pageSize)
    requires ws[|steps|].c == o.C() && ws[|steps|].store == o.store
    requires forall i :: 0 <= i < |batch| ==>
              batch[i] in ws[|steps|].flying && ws[|steps|].flying[batch[i]] == index + i
    modifies o`pages, o`frames
    ensures CacheOk(o.C(), o.store, o.pageSize)
    ensures FileView(o.C(), o.store, o.pageSize) == Effects(View(ws[0], o.pageSize), steps)
    ensures Accounted(o.C(), ws[|steps|].flying.Keys - Arith.Elements(batch))
    ensures o.pages.Keys == old(o.pages).Keys + Span(index, |batch|)
  {
    hide CacheOk, Accounted, Fetched, FileView, Next, Can, Effects, Span;
    RunView(ws, o.pageSize, steps);
    BatchReady(ws[|steps|], o.pageSize, index, batch);
    ghost var w := ws[|steps|];
    o.InstallBatch(index, batch, {}, w.flying.Keys - Arith.Elements(batch));
  }
}
