/**
  The block map of a file as one flat map.

  A tree address is a place where a block pointer can stand: one of the fifteen slots of an inode, or
  entry `idx` of the indirect block at another address.  The whole block map of a file system is then
  one map from tree addresses to block numbers; a hole is an absent address.  `resolve_block`,
  `map_indirect` and `truncate_indirect` are three ways to read and change that map.
  */
module Ext2Tree {
  import opened Arith

  const NDIR: nat := 12
  const IND: nat := 12
  const DIND: nat := 13
  const TIND: nat := 14
  const NSLOTS: nat := 15

  datatype Addr = Root(ino: nat, slot: nat) | Kid(parent: Addr, idx: nat)

  /** Data blocks below a pointer at indirection level `level`: `ptrs.pow(level)`. */
  function Span(p: nat, level: nat): nat {
    if level == 0 then 1 else Times(p, Span(p, level - 1))
  }

  function SlotLevel(slot: nat): nat {
    if slot < NDIR then 0 else slot - 11
  }

  /** First logical block that a slot maps. */
  function SlotBase(p: nat, slot: nat): nat {
    if slot <= IND then slot else if slot == DIND then NDIR + p else NDIR + p + p * p
  }

  function Level(a: Addr): int {
    match a
    case Root(_, slot) => SlotLevel(slot)
    case Kid(q, _) => Level(q) - 1
  }

  function Ino(a: Addr): nat {
    match a
    case Root(ino, _) => ino
    case Kid(q, _) => Ino(q)
  }

  /** First logical block below an address. */
  function Base(p: nat, a: Addr): nat {
    match a
    case Root(_, slot) => SlotBase(p, slot)
    case Kid(q, i) => Base(p, q) + Times(i, Span(p, if Level(q) >= 1 then Level(q) - 1 else 0))
  }

  predicate Proper(p: nat, a: Addr) {
    match a
    case Root(_, slot) => slot < NSLOTS
    case Kid(q, i) => Proper(p, q) && Level(q) >= 1 && i < p
  }

  /** First logical block number that no tree reaches. */
  function Limit(p: nat): nat {
    NDIR + p + p * p + p * p * p
  }

  // ----- from logical block numbers to addresses and back

  /** The leaf below `a`, `offset` data blocks in. */
  function Descend(p: nat, a: Addr, level: nat, offset: nat): Addr
    requires p > 0
    decreases level
  {
    if level == 0 then a
    else
      SpanPositive(p, level - 1);
      Descend(p, Kid(a, offset / Span(p, level - 1)), level - 1, offset % Span(p, level - 1))
  }

  /** The address of logical block `lb`. */
  function Leaf(p: nat, ino: nat, lb: nat): Addr
    requires p > 0
  {
    if lb < NDIR then Root(ino, lb)
    else if lb < NDIR + p then Descend(p, Root(ino, IND), 1, lb - NDIR)
    else if lb < NDIR + p + p * p then Descend(p, Root(ino, DIND), 2, lb - NDIR - p)
    else Descend(p, Root(ino, TIND), 3, lb - NDIR - p - p * p)
  }

  lemma {:induction false} SpanPositive(p: nat, level: nat)
    requires p > 0
    ensures Span(p, level) > 0
  {
    if level > 0 {
      SpanPositive(p, level - 1);
      MulMono(1, p, Span(p, level - 1));
    }
  }

  lemma SpanTop(p: nat, level: nat)
    requires level >= 1
    ensures Times(Span(p, level - 1), p) == Span(p, level)
  {
  }

  lemma Spans(p: nat)
    ensures Span(p, 0) == 1 && Span(p, 1) == p && Span(p, 2) == p * p && Span(p, 3) == p * p * p
  {
    assert Span(p, 1) == p * 1;
    assert Span(p, 3) == p * (p * p);
  }

  lemma QuotientBound(p: nat, s: nat, offset: nat)
    requires s > 0 && offset < Times(p, s)
    ensures offset / s < p && offset % s < s
    ensures offset == Times(offset / s, s) + offset % s
  {
    if offset / s >= p {
      MulMono(p, offset / s, s);
    }
  }

  /** Descending reaches a leaf of the same file whose logical block number is the one asked for. */
  lemma {:induction false} DescendReaches(p: nat, a: Addr, level: nat, offset: nat)
    requires p > 0 && Proper(p, a) && Level(a) == level && offset < Span(p, level)
    ensures Proper(p, Descend(p, a, level, offset))
    ensures Level(Descend(p, a, level, offset)) == 0
    ensures Ino(Descend(p, a, level, offset)) == Ino(a)
    ensures Base(p, Descend(p, a, level, offset)) == Base(p, a) + offset
    ensures Under(Descend(p, a, level, offset), a)
    decreases level
  {
    if level > 0 {
      var s := Span(p, level - 1);
      SpanPositive(p, level - 1);
      QuotientBound(p, s, offset);
      hide Times;
      var k := Kid(a, offset / s);
      KidRange(p, a, offset / s);
      hide Span;
      DescendReaches(p, k, level - 1, offset % s);
      UnderKid(Descend(p, a, level, offset), a, offset / s);
    }
  }

  lemma LeafReaches(p: nat, ino: nat, lb: nat)
    requires p > 0 && lb < Limit(p)
    ensures Proper(p, Leaf(p, ino, lb)) && Level(Leaf(p, ino, lb)) == 0
    ensures Ino(Leaf(p, ino, lb)) == ino && Base(p, Leaf(p, ino, lb)) == lb
  {
    Spans(p);
    if lb < NDIR {
    } else if lb < NDIR + p {
      DescendReaches(p, Root(ino, IND), 1, lb - NDIR);
    } else if lb < NDIR + p + p * p {
      DescendReaches(p, Root(ino, DIND), 2, lb - NDIR - p);
    } else {
      DescendReaches(p, Root(ino, TIND), 3, lb - NDIR - p - p * p);
    }
  }

  /** Different logical blocks, or different files, have different addresses. */
  lemma LeafInjective(p: nat, ino: nat, lb: nat, ino': nat, lb': nat)
    requires p > 0 && lb < Limit(p) && lb' < Limit(p)
    ensures Leaf(p, ino, lb) == Leaf(p, ino', lb') <==> ino == ino' && lb == lb'
  {
    LeafReaches(p, ino, lb);
    LeafReaches(p, ino', lb');
  }

  lemma DescendLast(p: nat, a: Addr, offset: nat)
    requires p > 0 && offset < Span(p, 1)
    ensures offset < p && Descend(p, a, 1, offset) == Kid(a, offset)
  {
    Spans(p);
    assert Descend(p, a, 1, offset) == Descend(p, Kid(a, offset), 0, 0);
  }

  lemma DescendStep(p: nat, a: Addr, level: nat, offset: nat)
    requires p > 0 && Proper(p, a) && Level(a) == level >= 2 && offset < Span(p, level)
    ensures Span(p, level - 1) > 0
    ensures offset / Span(p, level - 1) < p && offset % Span(p, level - 1) < Span(p, level - 1)
    ensures Descend(p, a, level, offset)
         == Descend(p, Kid(a, offset / Span(p, level - 1)), level - 1, offset % Span(p, level - 1))
    ensures Level(Kid(a, offset / Span(p, level - 1))) == level - 1
    ensures Descend(p, a, level, offset) != Kid(a, offset / Span(p, level - 1))
    ensures Under(Descend(p, a, level, offset), Kid(a, offset / Span(p, level - 1)))
  {
    hide Times;
    SpanPositive(p, level - 1);
    QuotientBound(p, Span(p, level - 1), offset);
    DescendReaches(p, a, level, offset);
    KidFacts(p, a, offset / Span(p, level - 1));
    DescendReaches(p, Kid(a, offset / Span(p, level - 1)), level - 1, offset % Span(p, level - 1));
  }

  /** Which slot's subtree holds logical block `lb`, and how far in. */
  lemma LeafInSlot(p: nat, ino: nat, lb: nat, slot: nat, offset: nat)
    requires p > 0
    requires || (slot == IND && NDIR <= lb < NDIR + p && offset == lb - NDIR)
             || (slot == DIND && NDIR + p <= lb < NDIR + p + Times(p, p) && offset == lb - NDIR - p)
             || (slot == TIND && NDIR + p + Times(p, p) <= lb < Limit(p) && offset == lb - NDIR - p - Times(p, p))
    ensures offset < Span(p, SlotLevel(slot))
    ensures Leaf(p, ino, lb) == Descend(p, Root(ino, slot), SlotLevel(slot), offset)
  {
    Spans(p);
  }

  lemma LimitIs(p: nat)
    ensures Limit(p) == NDIR + p + Times(p, p) + Times(p, Times(p, p))
  {
  }

  lemma LimitPast(p: nat)
    ensures Limit(p) >= NDIR
  {
  }

  /** The explicit digits that `resolve_block` computes at each depth. */
  lemma LeafSingle(p: nat, ino: nat, lb: nat)
    requires p > 0 && NDIR <= lb < NDIR + p
    ensures Leaf(p, ino, lb) == Kid(Root(ino, IND), lb - NDIR)
  {
    Spans(p);
    assert Descend(p, Root(ino, IND), 1, lb - NDIR) == Descend(p, Kid(Root(ino, IND), lb - NDIR), 0, 0);
  }

  lemma LeafDouble(p: nat, ino: nat, lb: nat)
    requires p > 0 && NDIR + p <= lb < NDIR + p + p * p
    ensures var o := lb - NDIR - p;
            o / p < p && o % p < p && Leaf(p, ino, lb) == Kid(Kid(Root(ino, DIND), o / p), o % p)
  {
    Spans(p);
    var o := lb - NDIR - p;
    QuotientBound(p, p, o);
    var k := Kid(Root(ino, DIND), o / p);
    assert Descend(p, Root(ino, DIND), 2, o) == Descend(p, k, 1, o % p);
    assert Descend(p, k, 1, o % p) == Descend(p, Kid(k, o % p), 0, 0);
  }

  lemma LeafTriple(p: nat, pp: nat, ino: nat, o: nat)
    requires p > 0 && pp > 0 && pp == Times(p, p) && o < Times(p, pp)
    ensures var r := o % pp;
            && o / pp < p && r / p < p && r % p < p
            && Leaf(p, ino, NDIR + p + pp + o) == Kid(Kid(Kid(Root(ino, TIND), o / pp), r / p), r % p)
  {
    Spans(p);
    QuotientBound(p, pp, o);
    var r := o % pp;
    QuotientBound(p, p, r);
    var k := Kid(Root(ino, TIND), o / pp);
    var k2 := Kid(k, r / p);
    assert Descend(p, Root(ino, TIND), 3, o) == Descend(p, k, 2, r);
    assert Descend(p, k, 2, r) == Descend(p, k2, 1, r % p);
    assert Descend(p, k2, 1, r % p) == Descend(p, Kid(k2, r % p), 0, 0);
  }

  lemma LeafDirect(p: nat, ino: nat, lb: nat)
    requires p > 0 && lb < NDIR
    ensures Leaf(p, ino, lb) == Root(ino, lb)
  {
  }

  // ----- subtrees

  predicate Under(c: Addr, a: Addr) {
    c == a || (c.Kid? && Under(c.parent, a))
  }

  /** Below one of the first `n` entries of `a`. */
  predicate UnderKids(c: Addr, a: Addr, n: nat) {
    c.Kid? && ((c.parent == a && c.idx < n) || UnderKids(c.parent, a, n))
  }

  lemma {:induction false} UnderKid(c: Addr, a: Addr, i: nat)
    requires Under(c, Kid(a, i))
    ensures Under(c, a)
  {
    if c != Kid(a, i) {
      UnderKid(c.parent, a, i);
    }
  }

  lemma {:induction false} UnderDeep(c: Addr, a: Addr)
    requires Under(c, a)
    ensures Level(c) <= Level(a) && Ino(c) == Ino(a)
    ensures c != a ==> Level(c) < Level(a)
  {
    if c != a {
      UnderDeep(c.parent, a);
    }
  }

  /** Everything strictly below `a` is below exactly one entry of `a`. */
  lemma {:induction false} UnderKidsStep(c: Addr, a: Addr, n: nat)
    ensures UnderKids(c, a, n + 1) <==> UnderKids(c, a, n) || Under(c, Kid(a, n))
  {
    if c.Kid? && c.parent != a {
      UnderKidsStep(c.parent, a, n);
    } else if c.Kid? {
      if UnderKids(c.parent, a, n + 1) { UnderKidsDeep(c.parent, a, n + 1); }
      if UnderKids(c.parent, a, n) { UnderKidsDeep(c.parent, a, n); }
      if Under(c.parent, Kid(a, n)) { UnderDeep(c.parent, Kid(a, n)); }
    }
  }

  lemma {:induction false} UnderKidsDeep(c: Addr, a: Addr, n: nat)
    requires UnderKids(c, a, n)
    ensures Level(c) < Level(a) && Under(c, a) && c != a
  {
    if c.parent != a || c.idx >= n {
      UnderKidsDeep(c.parent, a, n);
    }
  }

  lemma {:induction false} UnderSplits(p: nat, c: Addr, a: Addr)
    requires Proper(p, c)
    ensures Under(c, a) <==> c == a || UnderKids(c, a, p)
  {
    if c != a && c.Kid? {
      UnderSplits(p, c.parent, a);
    }
  }

  lemma KidRange(p: nat, q: Addr, i: nat)
    requires Level(q) >= 1 && i < p
    ensures Base(p, q) <= Base(p, Kid(q, i)) == Base(p, q) + Times(i, Span(p, Level(q) - 1))
    ensures Base(p, Kid(q, i)) + Span(p, Level(q) - 1) <= Base(p, q) + Span(p, Level(q))
  {
    hide Times;
    RowFits(i, p, Span(p, Level(q) - 1));
  }

  lemma KidFacts(p: nat, q: Addr, i: nat)
    requires Proper(p, q) && Level(q) >= 1 && i < p
    ensures Proper(p, Kid(q, i)) && Level(Kid(q, i)) == Level(q) - 1 && Ino(Kid(q, i)) == Ino(q)
    ensures Base(p, Kid(q, i)) == Base(p, q) + Times(i, Span(p, Level(q) - 1))
  {
  }

  /** The logical blocks below an address are a contiguous range of the address's span. */
  lemma {:induction false} BaseRange(p: nat, c: Addr, a: Addr)
    requires Proper(p, c) && Proper(p, a) && Under(c, a)
    ensures Level(a) >= 0 && Level(c) >= 0
    ensures Base(p, a) <= Base(p, c)
    ensures Base(p, c) + Span(p, Level(c)) <= Base(p, a) + Span(p, Level(a))
  {
    LevelNonNegative(p, a);
    LevelNonNegative(p, c);
    if c != a {
      BaseRange(p, c.parent, a);
      KidRange(p, c.parent, c.idx);
    }
  }

  lemma LevelNonNegative(p: nat, a: Addr)
    requires Proper(p, a)
    ensures Level(a) >= 0
  {
  }

  // ----- the map

  type Tree = map<Addr, nat>

  function Get(t: Tree, a: Addr): nat {
    if a in t then t[a] else 0
  }

  /** The addresses of one file's blocks, data and indirect. */
  function FileAddrs(t: Tree, ino: nat): set<Addr> {
    set a | a in t && Ino(a) == ino
  }

  /** Cutting the file of `a` at `keep` below `a`. */
  predicate Cut(p: nat, c: Addr, a: Addr, keep: nat) {
    Under(c, a) && Base(p, c) >= keep
  }

  function Prune(p: nat, t: Tree, a: Addr, keep: nat): Tree {
    map c | c in t && !Cut(p, c, a, keep) :: t[c]
  }

  /** The part of the cut that lies below the first `n` entries of `a`. */
  function PruneKids(p: nat, t: Tree, a: Addr, n: nat, keep: nat): Tree {
    map c | c in t && !(UnderKids(c, a, n) && Base(p, c) >= keep) :: t[c]
  }

  predicate Shape(p: nat, n: nat, t: Tree) {
    && (forall a :: a in t ==> Proper(p, a) && 0 < t[a] < n && (a.Kid? ==> a.parent in t))
    && (forall a, b :: a in t && b in t && t[a] == t[b] ==> a == b)
  }

  /** The pointers on disk spell out `t`, except possibly those standing at a `stale` address. */
  predicate TreeOk(p: nat, words: seq<seq<nat>>, t: Tree, stale: set<Addr>) {
    && p > 0
    && (forall b :: 0 <= b < |words| ==> |words[b]| == p)
    && Shape(p, |words|, t)
    && (forall a, i :: a in t && Level(a) >= 1 && 0 <= i < p && Kid(a, i) !in stale
                 ==> words[t[a]][i] == Get(t, Kid(a, i)))
  }

  lemma {:induction false} UnderPresent(p: nat, n: nat, t: Tree, c: Addr, a: Addr)
    requires Shape(p, n, t) && c in t && Under(c, a)
    ensures a in t
  {
    if c != a {
      UnderPresent(p, n, t, c.parent, a);
    }
  }

  /** Nothing lies below a hole. */
  lemma PruneHole(p: nat, n: nat, t: Tree, a: Addr, keep: nat)
    requires Shape(p, n, t) && a !in t
    ensures Prune(p, t, a, keep) == t
  {
    forall c | c in t
      ensures !Under(c, a)
    {
      if Under(c, a) { UnderPresent(p, n, t, c, a); }
    }
  }

  lemma PruneStep(p: nat, t: Tree, a: Addr, i: nat, keep: nat)
    ensures Prune(p, PruneKids(p, t, a, i, keep), Kid(a, i), keep) == PruneKids(p, t, a, i + 1, keep)
  {
    forall c | c in t
      ensures UnderKids(c, a, i + 1) <==> UnderKids(c, a, i) || Under(c, Kid(a, i))
    {
      UnderKidsStep(c, a, i);
    }
  }

  lemma {:induction false} UnderKidsNone(c: Addr, a: Addr)
    ensures !UnderKids(c, a, 0)
  {
    if c.Kid? {
      UnderKidsNone(c.parent, a);
    }
  }

  lemma PruneStart(p: nat, t: Tree, a: Addr, keep: nat)
    ensures PruneKids(p, t, a, 0, keep) == t
  {
    forall c | c in t ensures !UnderKids(c, a, 0) { UnderKidsNone(c, a); }
  }

  lemma PruneSelf(p: nat, t: Tree, a: Addr, n: nat, keep: nat)
    requires a in t
    ensures a in PruneKids(p, t, a, n, keep) && PruneKids(p, t, a, n, keep)[a] == t[a]
  {
    if UnderKids(a, a, n) { UnderKidsDeep(a, a, n); }
  }

  /** A subtree that starts at or after `keep` is cut whole. */
  lemma PruneWhole(p: nat, n: nat, t: Tree, a: Addr, keep: nat)
    requires Shape(p, n, t) && a in t && Base(p, a) >= keep
    ensures Prune(p, t, a, keep) == Prune(p, t, a, 0)
  {
    forall c | c in t && Under(c, a)
      ensures Base(p, c) >= keep
    {
      BaseRange(p, c, a);
    }
  }

  /** A subtree that ends at or before `keep` is not touched. */
  lemma PruneNothing(p: nat, n: nat, t: Tree, a: Addr, keep: nat)
    requires p > 0 && Shape(p, n, t) && Proper(p, a) && Level(a) >= 0
    requires Base(p, a) + Span(p, Level(a)) <= keep
    ensures Prune(p, t, a, keep) == t
  {
    forall c | c in t && Under(c, a)
      ensures Base(p, c) < keep
    {
      BaseRange(p, c, a);
      SpanPositive(p, Level(c));
    }
  }

  lemma TopOrEntries(p: nat, n: nat, t: Tree, a: Addr)
    requires Shape(p, n, t)
    ensures forall c :: c in t ==> (Under(c, a) <==> c == a || UnderKids(c, a, p))
    ensures !UnderKids(a, a, p)
  {
    forall c | c in t
      ensures Under(c, a) <==> c == a || UnderKids(c, a, p)
    {
      UnderSplits(p, c, a);
    }
    if UnderKids(a, a, p) { UnderKidsDeep(a, a, p); }
  }

  /** Once the entries of `a` are cut, only `a` itself is left to decide. */
  lemma PruneEnd(p: nat, n: nat, t: Tree, a: Addr, keep: nat)
    requires Shape(p, n, t)
    ensures Prune(p, t, a, keep) == if Base(p, a) >= keep then PruneKids(p, t, a, p, keep) - {a}
                                    else PruneKids(p, t, a, p, keep)
  {
    hide Shape, Under, UnderKids, Base;
    TopOrEntries(p, n, t, a);
  }

  /** Cutting keeps the shape: no kept address loses its parent. */
  lemma PruneShape(p: nat, n: nat, t: Tree, a: Addr, keep: nat)
    requires p > 0 && Shape(p, n, t)
    ensures Shape(p, n, Prune(p, t, a, keep))
  {
    forall c | c in t && c.Kid? && Cut(p, c.parent, a, keep)
      ensures Cut(p, c, a, keep)
    {
      KidRange(p, c.parent, c.idx);
    }
  }

  // ----- whole files

  function RootOf(c: Addr): Addr {
    match c
    case Root(_, _) => c
    case Kid(q, _) => RootOf(q)
  }

  lemma {:induction false} UnderRoot(c: Addr, ino: nat, slot: nat)
    ensures Under(c, Root(ino, slot)) <==> RootOf(c) == Root(ino, slot)
    ensures RootOf(c).Root? && RootOf(c).ino == Ino(c)
  {
    if c.Kid? {
      UnderRoot(c.parent, ino, slot);
    }
  }

  lemma {:induction false} ProperRoot(p: nat, c: Addr)
    requires Proper(p, c)
    ensures RootOf(c).Root? && RootOf(c).slot < NSLOTS
  {
    if c.Kid? {
      ProperRoot(p, c.parent);
    }
  }

  /** The file system with file `ino` cut at logical block `keep`. */
  function Cutoff(p: nat, t: Tree, ino: nat, keep: nat): Tree {
    map c | c in t && !(Ino(c) == ino && Base(p, c) >= keep) :: t[c]
  }

  /** The same cut, done in the first `n` slots of the inode only. */
  function CutSlots(p: nat, t: Tree, ino: nat, n: nat, keep: nat): Tree {
    map c | c in t && !(Ino(c) == ino && RootOf(c).Root? && RootOf(c).slot < n && Base(p, c) >= keep) :: t[c]
  }

  lemma CutStart(p: nat, t: Tree, ino: nat, keep: nat)
    ensures CutSlots(p, t, ino, 0, keep) == t
  {
  }

  lemma CutStep(p: nat, t: Tree, ino: nat, slot: nat, keep: nat)
    ensures Prune(p, CutSlots(p, t, ino, slot, keep), Root(ino, slot), keep) == CutSlots(p, t, ino, slot + 1, keep)
  {
    hide Under, RootOf, Ino, Base;
    forall c
      ensures Under(c, Root(ino, slot)) <==> RootOf(c) == Root(ino, slot)
      ensures RootOf(c).Root? && RootOf(c).ino == Ino(c)
    {
      UnderRoot(c, ino, slot);
    }
  }

  lemma CutEnd(p: nat, n: nat, t: Tree, ino: nat, keep: nat)
    requires Shape(p, n, t)
    ensures CutSlots(p, t, ino, NSLOTS, keep) == Cutoff(p, t, ino, keep)
  {
    forall c | c in t
      ensures RootOf(c).Root? && RootOf(c).slot < NSLOTS
    {
      ProperRoot(p, c);
    }
  }

  /** After the cut, `resolve_block` finds what it found below `keep` and holes at and past it. */
  lemma CutResolves(p: nat, t: Tree, ino: nat, keep: nat, ino': nat, lb: nat)
    requires p > 0 && lb < Limit(p)
    ensures Get(Cutoff(p, t, ino, keep), Leaf(p, ino', lb))
         == if ino' == ino && lb >= keep then 0 else Get(t, Leaf(p, ino', lb))
  {
    LeafReaches(p, ino', lb);
  }

  /** The cut touches one file: it removes from the whole what it removes from that file. */
  lemma CutCounts(p: nat, t: Tree, ino: nat, keep: nat)
    ensures |FileAddrs(Cutoff(p, t, ino, keep), ino)| == |FileAddrs(t, ino)| - (|t| - |Cutoff(p, t, ino, keep)|)
    ensures forall i :: i != ino ==> FileAddrs(Cutoff(p, t, ino, keep), i) == FileAddrs(t, i)
  {
    var t' := Cutoff(p, t, ino, keep);
    var rest := set c | c in t && Ino(c) != ino;
    assert t.Keys == FileAddrs(t, ino) + rest;
    assert t'.Keys == FileAddrs(t', ino) + rest;
  }

  // ----- how many blocks a mapping needs

  /** The blocks missing on the way down to `c`, itself included. */
  function Gap(t: Tree, c: Addr): nat {
    if c in t then 0 else 1 + (if c.Kid? then Gap(t, c.parent) else 0)
  }

  /** Filling in the topmost missing block of the way lowers the gap by one. */
  lemma {:induction false} GapFill(p: nat, n: nat, t: Tree, k: Addr, v: nat, c: Addr)
    requires Shape(p, n, t) && k !in t && (k.Kid? ==> k.parent in t) && Under(c, k)
    ensures Gap(t, c) == Gap(t[k := v], c) + 1
  {
    if c != k {
      if c in t { UnderPresent(p, n, t, c, k); }
      GapFill(p, n, t, k, v, c.parent);
    }
  }

  lemma GapHole(t: Tree, c: Addr)
    requires c !in t
    ensures Gap(t, c) >= 1 && (c.Root? ==> Gap(t, c) == 1) && (c.Kid? && c.parent in t ==> Gap(t, c) == 1)
  {
  }
}
