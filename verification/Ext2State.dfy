/**
  The states of the ext2 block map as values, and what each elementary change does to them: taking and
  giving back a block, pointing an entry or a slot at a fresh block, rewriting an indirect block, and
  dropping a subtree.
  */
module Ext2State {
  import opened Common
  import opened Arith
  import opened Ext2Layout
  import opened Ext2Allocator
  import opened Ext2Tree

  datatype Kind = Regular | Directory | Symlink

  /** The fields of the raw inode that the block map depends on. */
  datatype Inode = Inode(kind: Kind, size: nat, blocks: nat, block: seq<nat>)
  {
    /** The target is stored in the pointer array itself. */
    predicate FastSymlink() {
      kind == Symlink && blocks == 0 && size <= 60
    }
  }

  function NoPointers(): (b: seq<nat>)
    ensures |b| == NSLOTS && forall s :: 0 <= s < NSLOTS ==> b[s] == 0
  {
    seq(NSLOTS, i => 0)
  }

  /** The pointer array of the inode spells out the top of file `ino`'s tree. */
  ghost predicate RawOk(t: Tree, ino: nat, raw: Inode) {
    && |raw.block| == NSLOTS
    && forall s :: 0 <= s < NSLOTS ==> raw.block[s] == Get(t, Root(ino, s))
  }

  lemma Slots(t: Tree, ino: nat, raw: Inode)
    requires RawOk(t, ino, raw)
    ensures |raw.block| == NSLOTS && raw.block[IND] == Get(t, Root(ino, IND))
    ensures raw.block[DIND] == Get(t, Root(ino, DIND)) && raw.block[TIND] == Get(t, Root(ino, TIND))
    ensures forall s :: 0 <= s < NSLOTS ==> raw.block[s] == Get(t, Root(ino, s))
  {
  }

  ghost predicate BitmapView(bitmap: seq<seq<bv8>>, bits: seq<seq<bool>>) {
    |bitmap| == |bits| && forall k :: 0 <= k < |bitmap| ==> bits[k] == Bits(bitmap[k])
  }

  lemma ViewStep(bitmap: seq<seq<bv8>>, bits: seq<seq<bool>>, k: nat, bytes: seq<bv8>)
    requires BitmapView(bitmap, bits) && k < |bitmap|
    ensures BitmapView(bitmap[k := bytes], bits[k := Bits(bytes)])
  {
  }

  lemma ViewAt(bitmap: seq<seq<bv8>>, bits: seq<seq<bool>>, k: nat)
    requires BitmapView(bitmap, bits) && k < |bits|
    ensures k < |bitmap| && bits[k] == Bits(bitmap[k])
  {
  }

  ghost predicate DiskView(disk: seq<seq<Byte>>, words: seq<seq<nat>>, size: nat) {
    && |disk| == |words|
    && (forall b :: 0 <= b < |disk| ==> |disk[b]| == size)
    && (forall b :: 0 <= b < |disk| ==> words[b] == Words(disk[b]))
  }

  function SetEntry(words: seq<seq<nat>>, block: nat, index: nat, value: nat): seq<seq<nat>>
    requires block < |words| && index < |words[block]|
  {
    var row: seq<nat> := words[block][index := value];
    words[block := row]
  }

  /** Exactly the held blocks and the blocks in the tree are in use, and no block is both. */
  ghost predicate OwnOk(g: Geometry, bits: seq<seq<bool>>, t: Tree, held: set<nat>) {
    && (forall v: nat :: Used(g, bits, v) <==> v in held || v in t.Values)
    && (forall a :: a in t ==> t[a] !in held)
    && (0 in held || 0 < g.first)
  }

  datatype Records = Records(bits: seq<seq<bool>>, groupFree: seq<nat>, superFree: nat)

  /** `r1` is `r0` with one free block taken: its bit set, both counters one lower. */
  ghost predicate Took(g: Geometry, r0: Records, r1: Records, block: nat) {
    && g.Valid() && g.first <= block
    && var k, i := GroupOf(g, block), IndexOf(g, block);
    && k < |r1.bits| == |r1.groupFree| && i < |r1.bits[k]|
    && r0 == Records(r1.bits[k := r1.bits[k][i := false]], r1.groupFree[k := r1.groupFree[k] + 1], r1.superFree + 1)
  }

  /** Setting a clear bit takes a free block: every record follows, and the step can be undone. */
  lemma TakeKeeps(g: Geometry, bits: seq<seq<bool>>, groupFree: seq<nat>, superFree: nat, t: Tree, held: set<nat>,
                  group: nat, index: nat)
    requires CountersOk(g, bits, groupFree, superFree) && OwnOk(g, bits, t, held)
    requires group < g.groups && index < 32 * g.ptrs && !bits[group][index]
    ensures group < |bits| == |groupFree| && index < |bits[group]| && groupFree[group] > 0 && superFree > 0
    ensures g.first <= BlockNum(g, group, index) && !Used(g, bits, BlockNum(g, group, index))
    ensures BlockNum(g, group, index) !in held
    ensures 0 < BlockNum(g, group, index) < g.first + g.groups * g.perGroup
    ensures GroupOf(g, BlockNum(g, group, index)) == group && IndexOf(g, BlockNum(g, group, index)) == index
    ensures CountersOk(g, bits[group := bits[group][index := true]], groupFree[group := groupFree[group] - 1],
              superFree - 1)
    ensures OwnOk(g, bits[group := bits[group][index := true]], t, held + {BlockNum(g, group, index)})
    ensures Took(g, Records(bits, groupFree, superFree),
                 Records(bits[group := bits[group][index := true]], groupFree[group := groupFree[group] - 1],
                     superFree - 1),
                 BlockNum(g, group, index))
  {
    assert index < g.perGroup;
    var block := BlockNum(g, group, index);
    NumberInverse(g, group, index);
    NumberInRange(g, group, index);
    FlipKeeps(g, bits, groupFree, superFree, group, index, true);
    forall x: nat
      ensures Used(g, bits[group := bits[group][index := true]], x) == (x == block || Used(g, bits, x))
    {
      FlipUsed(g, bits, group, index, true, x);
    }
    assert Used(g, bits, 0) || 0 < g.first;
    assert bits[group] == bits[group][index := true][index := false];
  }

  /** Clearing the bit of a held block gives it back. */
  lemma GiveKeeps(g: Geometry, bits: seq<seq<bool>>, groupFree: seq<nat>, superFree: nat, t: Tree, held: set<nat>,
                  block: nat)
    requires CountersOk(g, bits, groupFree, superFree) && OwnOk(g, bits, t, held)
    requires block in held && block != 0
    ensures g.Valid() && g.first <= block && GroupOf(g, block) < |bits| == |groupFree|
    ensures IndexOf(g, block) < |bits[GroupOf(g, block)]|
    ensures CountersOk(g, bits[GroupOf(g, block) := bits[GroupOf(g, block)][IndexOf(g, block) := false]],
                       groupFree[GroupOf(g, block) := groupFree[GroupOf(g, block)] + 1], superFree + 1)
    ensures OwnOk(g, bits[GroupOf(g, block) := bits[GroupOf(g, block)][IndexOf(g, block) := false]], t, held - {block})
    ensures Took(g, Records(bits[GroupOf(g, block) := bits[GroupOf(g, block)][IndexOf(g, block) := false]],
                            groupFree[GroupOf(g, block) := groupFree[GroupOf(g, block)] + 1], superFree + 1),
                 Records(bits, groupFree, superFree), block)
  {
    assert Used(g, bits, block);
    var group, index := GroupOf(g, block), IndexOf(g, block);
    InverseNumber(g, block);
    FlipKeeps(g, bits, groupFree, superFree, group, index, false);
    forall x: nat
      ensures Used(g, bits[group := bits[group][index := false]], x) == (x != block && Used(g, bits, x))
    {
      FlipUsed(g, bits, group, index, false, x);
    }
  }

  /** The first `n` entries of the indirect block at `a`. */
  ghost function Kids(a: Addr, n: nat): set<Addr> {
    set j | 0 <= j < n :: Kid(a, j)
  }

  lemma KidsApart(a: Addr, i: nat, stale: set<Addr>)
    requires forall c :: c in stale ==> !Under(c, a)
    ensures forall c :: c in stale + Kids(a, i) ==> !Under(c, Kid(a, i))
    ensures Kid(a, i) !in stale + Kids(a, i)
  {
    forall c | c in stale + Kids(a, i)
      ensures !Under(c, Kid(a, i))
    {
      if Under(c, Kid(a, i)) {
        UnderKid(c, a, i);
        UnderDeep(c, Kid(a, i));
      }
    }
  }

  lemma KidsNone(a: Addr, stale: set<Addr>)
    ensures stale + Kids(a, 0) == stale
  {
  }

  lemma KidsGrow(a: Addr, i: nat, stale: set<Addr>)
    ensures stale + Kids(a, i) + {Kid(a, i)} == stale + Kids(a, i + 1)
  {
  }

  /** With its entries gone, the block at `a` can leave the tree; only the pointer to it is stale. */
  lemma DropTop(p: nat, words: seq<seq<nat>>, t: Tree, a: Addr, keep: nat, stale: set<Addr>)
    requires Shape(p, |words|, t) && a in t && Base(p, a) >= keep
    requires TreeOk(p, words, PruneKids(p, t, a, p, keep), stale + Kids(a, p))
    ensures a in PruneKids(p, t, a, p, keep) && PruneKids(p, t, a, p, keep)[a] == t[a]
    ensures Shape(p, |words|, PruneKids(p, t, a, p, keep))
    ensures PruneKids(p, t, a, p, keep) - {a} == Prune(p, t, a, keep)
    ensures TreeOk(p, words, Prune(p, t, a, keep), stale + {a})
  {
    PruneEnd(p, |words|, t, a, keep);
    PruneSelf(p, t, a, p, keep);
    PruneShape(p, |words|, t, a, keep);
    var t' := PruneKids(p, t, a, p, keep);
    forall c, i | c in t' && c != a && Level(c) >= 1 && 0 <= i < p && Kid(c, i) !in stale + {a}
      ensures words[t'[c]][i] == Get(t' - {a}, Kid(c, i))
    {
      assert Kid(c, i) !in Kids(a, p);
    }
  }

  /** A data block has nothing below it. */
  lemma NoEntries(p: nat, n: nat, t: Tree, a: Addr)
    requires Shape(p, n, t) && Level(a) == 0
    ensures PruneKids(p, t, a, p, 0) == t
  {
    forall c | c in t
      ensures !UnderKids(c, a, p)
    {
      LevelNonNegative(p, c);
      if UnderKids(c, a, p) { UnderKidsDeep(c, a, p); }
    }
  }

  /** Of the blocks in the tree `t`, those outside the subtree of `a` and all data blocks hold in `w1`
      what they held in `w0`. */
  ghost predicate Untouched(w0: seq<seq<nat>>, w1: seq<seq<nat>>, t: Tree, a: Addr) {
    && |w0| == |w1|
    && forall c :: c in t && (!Under(c, a) || Level(c) == 0) && t[c] < |w0| ==> w0[t[c]] == w1[t[c]]
  }

  lemma UntouchedSame(w: seq<seq<nat>>, t: Tree, a: Addr)
    ensures Untouched(w, w, t, a)
  {
  }

  lemma UntouchedFewer(w0: seq<seq<nat>>, w1: seq<seq<nat>>, a: Addr, t: Tree, t': Tree)
    requires Untouched(w0, w1, t, a) && t' == t - {a}
    ensures Untouched(w0, w1, t', a)
  {
  }

  /** Work below entry `i` of `a` after work below earlier entries is work below `a`. */
  lemma UntouchedStep(w0: seq<seq<nat>>, w1: seq<seq<nat>>, w2: seq<seq<nat>>, p: nat, t: Tree, a: Addr, i: nat,
      keep: nat)
    requires Untouched(w0, w1, t, a) && Untouched(w1, w2, Prune(p, t, Kid(a, i), keep), Kid(a, i))
    requires a in t && t[a] < |w0|
    ensures Untouched(w0, w2, Prune(p, t, Kid(a, i), keep), a)
    ensures a in Prune(p, t, Kid(a, i), keep) && w1[t[a]] == w2[t[a]]
  {
    forall c | !Under(c, a)
      ensures !Under(c, Kid(a, i))
    {
      if Under(c, Kid(a, i)) { UnderKid(c, a, i); }
    }
    if Under(a, Kid(a, i)) { UnderDeep(a, Kid(a, i)); }
  }

  /** Rewriting the indirect block at `a` itself leaves the others alone. */
  lemma UntouchedWrite(w0: seq<seq<nat>>, w1: seq<seq<nat>>, p: nat, t: Tree, a: Addr, row: seq<nat>)
    requires Untouched(w0, w1, t, a) && Shape(p, |w1|, t) && a in t && Level(a) >= 1
    ensures t[a] < |w1| && Untouched(w0, w1[t[a] := row], t, a)
  {
  }

  /** The entries of the indirect block at `a` once its first `n` have been cut at `keep`. */
  ghost function EntriesAfter(p: nat, t: Tree, a: Addr, n: nat, keep: nat): seq<nat> {
    seq(p, j requires 0 <= j < p => if j < n && Base(p, Kid(a, j)) >= keep then 0 else Get(t, Kid(a, j)))
  }

  lemma EntryNow(p: nat, t: Tree, a: Addr, i: nat, keep: nat)
    requires i < p
    ensures EntriesAfter(p, t, a, i, keep)[i] == Get(PruneKids(p, t, a, i, keep), Kid(a, i))
    ensures EntriesAfter(p, t, a, i + 1, keep)
         == EntriesAfter(p, t, a, i, keep)[i := Get(PruneKids(p, t, a, i + 1, keep), Kid(a, i))]
  {
    if UnderKids(a, a, i) { UnderKidsDeep(a, a, i); }
  }

  lemma EntriesDone(p: nat, t: Tree, a: Addr, keep: nat)
    ensures forall j :: 0 <= j < p ==> EntriesAfter(p, t, a, p, keep)[j] == Get(PruneKids(p, t, a, p, keep), Kid(a, j))
  {
    if UnderKids(a, a, p) { UnderKidsDeep(a, a, p); }
  }

  /** Writing the right entries into the block at `a` makes its pointers fresh again. */
  lemma RowFixed(p: nat, words: seq<seq<nat>>, t: Tree, a: Addr, stale: set<Addr>, row: seq<nat>)
    requires TreeOk(p, words, t, stale + Kids(a, p)) && a in t
    requires |row| == p && forall j :: 0 <= j < p ==> row[j] == Get(t, Kid(a, j))
    ensures t[a] < |words| && TreeOk(p, words[t[a] := row], t, stale)
  {
    var w := words[t[a] := row];
    forall c, i | c in t && Level(c) >= 1 && 0 <= i < p && Kid(c, i) !in stale
      ensures w[t[c]][i] == Get(t, Kid(c, i))
    {
      if c != a {
        assert Kid(c, i) !in Kids(a, p);
        assert t[c] != t[a];
      }
    }
  }

  /** The conditions for pointing entry `i` of the indirect block at `a` at the fresh block `v`: an
      indirect block must come zeroed. */
  ghost predicate CanLink(p: nat, words: seq<seq<nat>>, t: Tree, a: Addr, i: nat, v: nat) {
    && TreeOk(p, words, t, {}) && a in t && Level(a) >= 1 && i < p && Kid(a, i) !in t
    && 0 < v < |words| && (forall c :: c in t ==> t[c] != v)
    && (Level(a) >= 2 ==> forall j :: 0 <= j < |words[v]| ==> words[v][j] == 0)
  }

  lemma LinkRow(p: nat, words: seq<seq<nat>>, t: Tree, a: Addr, i: nat, v: nat, c: Addr, j: nat)
    requires CanLink(p, words, t, a, i, v)
    requires (c in t || c == Kid(a, i)) && Level(c) >= 1 && j < p
    ensures t[a] < |words| && i < |words[t[a]]|
    ensures var w, t' := SetEntry(words, t[a], i, v), t[Kid(a, i) := v];
            t'[c] < |w| && |w[t'[c]]| == p && w[t'[c]][j] == Get(t', Kid(c, j))
  {
    if c == Kid(a, i) {
      assert Kid(c, j) !in t;
    } else if c != a {
      assert t[c] != t[a];
    }
  }

  lemma LinkShape(p: nat, words: seq<seq<nat>>, t: Tree, a: Addr, i: nat, v: nat)
    requires CanLink(p, words, t, a, i, v)
    ensures Shape(p, |words|, t[Kid(a, i) := v])
  {
  }

  /** Pointing a free entry at a fresh block adds one address to the tree. */
  lemma LinkOk(p: nat, words: seq<seq<nat>>, t: Tree, a: Addr, i: nat, v: nat)
    requires CanLink(p, words, t, a, i, v)
    ensures t[a] < |words| && i < |words[t[a]]| && TreeOk(p, SetEntry(words, t[a], i, v), t[Kid(a, i) := v], {})
  {
    hide Shape, Get, Level;
    LinkShape(p, words, t, a, i, v);
    Bounds(p, words, t, a);
    var w, t' := SetEntry(words, t[a], i, v), t[Kid(a, i) := v];
    forall c, j | c in t' && Level(c) >= 1 && 0 <= j < p
      ensures t'[c] < |w| && |w[t'[c]]| == p && w[t'[c]][j] == Get(t', Kid(c, j))
    {
      LinkRow(p, words, t, a, i, v, c, j);
    }
  }

  /** Data blocks in the tree and held blocks keep their contents. */
  ghost predicate DataKept(w0: seq<seq<nat>>, w1: seq<seq<nat>>, t: Tree, held: set<nat>) {
    && |w0| == |w1|
    && (forall c :: c in t && Level(c) == 0 && t[c] < |w0| ==> w0[t[c]] == w1[t[c]])
    && (forall v :: v in held && v < |w0| ==> w0[v] == w1[v])
  }

  /** `t1` extends `t0` below `a` by indirect blocks and at most the one leaf. */
  ghost predicate Grown(t0: Tree, t1: Tree, leaf: Addr, a: Addr) {
    && (forall c :: c in t0 ==> c in t1 && t1[c] == t0[c])
    && (forall c :: c in t1 && c !in t0 ==> Under(c, a) && (c == leaf || Level(c) >= 1))
  }

  lemma KeptSame(w: seq<seq<nat>>, t: Tree, held: set<nat>)
    ensures DataKept(w, w, t, held)
  {
  }

  lemma KeptMore(w0: seq<seq<nat>>, w1: seq<seq<nat>>, w2: seq<seq<nat>>, t: Tree, held: set<nat>, more: set<nat>)
    requires DataKept(w0, w1, t, held) && DataKept(w1, w2, t, more) && held <= more
    ensures DataKept(w0, w2, t, held)
  {
  }

  lemma KeptTrans(w0: seq<seq<nat>>, w1: seq<seq<nat>>, w2: seq<seq<nat>>, t0: Tree, t1: Tree,
                  h0: set<nat>, h1: set<nat>, leaf: Addr, a: Addr)
    requires DataKept(w0, w1, t0, h0) && DataKept(w1, w2, t1, h1) && h0 == h1 && Grown(t0, t1, leaf, a)
    ensures DataKept(w0, w2, t0, h0)
  {
  }

  lemma GrownLink(t: Tree, a: Addr, i: nat, v: nat, leaf: Addr)
    requires Kid(a, i) !in t && (Kid(a, i) == leaf || Level(Kid(a, i)) >= 1)
    ensures Grown(t, t[Kid(a, i) := v], leaf, a)
  {
    assert Under(a, a);
  }

  lemma GrownChild(t: Tree, t1: Tree, a: Addr, i: nat, leaf: Addr)
    requires Level(Kid(a, i)) >= 1
    requires t1 == t || (Kid(a, i) !in t && Kid(a, i) in t1 && t1 == t[Kid(a, i) := t1[Kid(a, i)]])
    requires leaf !in t && leaf != Kid(a, i)
    ensures Grown(t, t1, leaf, a) && leaf !in t1
  {
    assert Under(a, a);
  }

  lemma GrownTrans(t0: Tree, t1: Tree, t2: Tree, a: Addr, i: nat, leaf: Addr)
    requires Grown(t0, t1, leaf, a) && Grown(t1, t2, leaf, Kid(a, i))
    ensures Grown(t0, t2, leaf, a)
  {
    forall c | Under(c, Kid(a, i))
      ensures Under(c, a)
    {
      UnderKid(c, a, i);
    }
  }

  /** Writing a block that no tree address holds disturbs nothing. */
  lemma ZeroOk(p: nat, words: seq<seq<nat>>, t: Tree, v: nat, held: set<nat>)
    requires TreeOk(p, words, t, {}) && v < |words| && v !in held && forall c :: c in t ==> t[c] != v
    ensures |Zeros(4 * p)| == 4 * p && TreeOk(p, words[v := Words(Zeros(4 * p))], t, {})
    ensures DataKept(words, words[v := Words(Zeros(4 * p))], t, held)
  {
  }

  lemma RootOk(p: nat, words: seq<seq<nat>>, t: Tree, a: Addr, v: nat)
    requires TreeOk(p, words, t, {}) && a.Root? && a.slot < NSLOTS && a !in t
    requires 0 < v < |words| && forall c :: c in t ==> t[c] != v
    requires SlotLevel(a.slot) >= 1 ==> forall j :: 0 <= j < |words[v]| ==> words[v][j] == 0
    ensures TreeOk(p, words, t[a := v], {})
  {
    var t' := t[a := v];
    forall c, j | c in t' && Level(c) >= 1 && 0 <= j < p
      ensures words[t'[c]][j] == Get(t', Kid(c, j))
    {
      if c == a {
        assert Kid(c, j) !in t;
      }
    }
  }

  lemma RawLinked(t: Tree, ino: nat, raw: Inode, slot: nat, v: nat)
    requires RawOk(t, ino, raw) && slot < NSLOTS && Root(ino, slot) !in t && v < WORD
    ensures RawOk(t[Root(ino, slot) := v], ino, raw.(block := raw.block[slot := Low32(v)]))
  {
  }

  /** `t1` extends `t0` within file `ino` by indirect blocks and at most the one leaf. */
  ghost predicate Placed(t0: Tree, t1: Tree, ino: nat, leaf: Addr) {
    && (forall c :: c in t0 ==> c in t1 && t1[c] == t0[c])
    && (forall c :: c in t1 && c !in t0 ==> Ino(c) == ino && (c == leaf || Level(c) >= 1))
  }

  lemma PlacedSame(t: Tree, ino: nat, leaf: Addr)
    ensures Placed(t, t, ino, leaf)
  {
  }

  lemma PlacedRoot(t: Tree, ino: nat, slot: nat, v: nat)
    requires Root(ino, slot) !in t
    ensures Placed(t, t[Root(ino, slot) := v], ino, Root(ino, slot))
  {
  }

  lemma DirectHole(t: Tree, ino: nat, raw: Inode, lb: nat)
    requires RawOk(t, ino, raw) && lb < NDIR && Root(ino, lb) !in t
    ensures |raw.block| == NSLOTS && raw.block[lb] == 0
  {
  }

  lemma LeafNotRoot(p: nat, ino: nat, slot: nat, offset: nat)
    requires p > 0 && IND <= slot < NSLOTS && offset < Span(p, SlotLevel(slot))
    ensures Descend(p, Root(ino, slot), SlotLevel(slot), offset) != Root(ino, slot)
    ensures Under(Descend(p, Root(ino, slot), SlotLevel(slot), offset), Root(ino, slot))
  {
    DescendReaches(p, Root(ino, slot), SlotLevel(slot), offset);
  }

  lemma PlacedTop(t: Tree, t1: Tree, ino: nat, slot: nat, leaf: Addr)
    requires IND <= slot && leaf != Root(ino, slot) && leaf !in t
    requires t1 == t
              || (Root(ino, slot) !in t && Root(ino, slot) in t1 && t1 == t[Root(ino, slot) := t1[Root(ino, slot)]])
    ensures Placed(t, t1, ino, leaf) && leaf !in t1
  {
  }

  lemma PlacedTrans(t0: Tree, t1: Tree, t2: Tree, a: Addr, leaf: Addr)
    requires Placed(t0, t1, Ino(a), leaf) && Grown(t1, t2, leaf, a)
    ensures Placed(t0, t2, Ino(a), leaf)
  {
    forall c | Under(c, a)
      ensures Ino(c) == Ino(a)
    {
      UnderDeep(c, a);
    }
  }

  lemma KeptPlaced(w0: seq<seq<nat>>, w1: seq<seq<nat>>, w2: seq<seq<nat>>, t0: Tree, t1: Tree,
                   held: set<nat>, ino: nat, leaf: Addr)
    requires DataKept(w0, w1, t0, held) && DataKept(w1, w2, t1, held) && Placed(t0, t1, ino, leaf)
    ensures DataKept(w0, w2, t0, held)
  {
  }

  /** Growth below a slot leaves the pointer array as it is. */
  lemma RawGrown(t0: Tree, t1: Tree, leaf: Addr, a: Addr, ino: nat, raw: Inode)
    requires RawOk(t0, ino, raw) && Grown(t0, t1, leaf, a) && a in t0
    ensures RawOk(t1, ino, raw)
  {
    forall s | 0 <= s < NSLOTS
      ensures Get(t1, Root(ino, s)) == Get(t0, Root(ino, s))
    {
      assert Under(Root(ino, s), a) <==> Root(ino, s) == a;
    }
  }

  lemma RawBlocks(t: Tree, ino: nat, raw: Inode, blocks: nat)
    requires RawOk(t, ino, raw.(blocks := blocks))
    ensures RawOk(t, ino, raw)
  {
  }

  lemma TookUnique(g: Geometry, r0: Records, r0': Records, r1: Records, block: nat)
    requires Took(g, r0, r1, block) && Took(g, r0', r1, block)
    ensures r0 == r0'
  {
  }

  lemma Restored(bitmap0: seq<seq<bv8>>, bits0: seq<seq<bool>>, bitmap1: seq<seq<bv8>>, bits1: seq<seq<bool>>)
    requires BitmapView(bitmap0, bits0) && BitmapView(bitmap1, bits1) && bits0 == bits1
    ensures bitmap0 == bitmap1
  {
    forall k | 0 <= k < |bitmap0|
      ensures bitmap0[k] == bitmap1[k]
    {
      BitsInjective(bitmap0[k], bitmap1[k]);
    }
  }

  lemma DirectOnly(p: nat, n: nat, t: Tree, a: Addr)
    requires Shape(p, n, t) && a.Root? && a.slot < NDIR
    ensures forall c :: c in t && Under(c, a) ==> c == a
    ensures forall c :: c in t && c.Kid? ==> c.parent != a
  {
    forall c | c in t && Under(c, a)
      ensures c == a
    {
      LevelNonNegative(p, c);
      UnderDeep(c, a);
    }
    forall c | c in t && c.Kid?
      ensures c.parent != a
    {
      LevelNonNegative(p, c);
    }
  }

  /** Cutting a direct slot removes at most the one data block there. */
  lemma DirectCut(p: nat, words: seq<seq<nat>>, t: Tree, a: Addr, keep: nat)
    requires TreeOk(p, words, t, {}) && a.Root? && a.slot < NDIR
    ensures Prune(p, t, a, keep) == if a.slot >= keep then t - {a} else t
    ensures TreeOk(p, words, t - {a}, {})
  {
    hide Level, Proper;
    DirectOnly(p, |words|, t, a);
  }

  lemma RawPruned(p: nat, t: Tree, ino: nat, raw: Inode, slot: nat, keep: nat)
    requires RawOk(t, ino, raw) && slot < NSLOTS
    ensures RawOk(Prune(p, t, Root(ino, slot), keep), ino,
                  raw.(block := raw.block[slot := Get(Prune(p, t, Root(ino, slot), keep), Root(ino, slot))]))
    ensures slot < keep && slot <= IND ==>
              raw == raw.(block := raw.block[slot := Get(Prune(p, t, Root(ino, slot), keep), Root(ino, slot))])
  {
  }

  /** `saturating_sub`. */
  function SatSub(a: nat, b: nat): nat {
    if a >= b then a - b else 0
  }

  /** Every block of another file, and every data block left in this one, keeps its contents. */
  ghost predicate FileKept(w0: seq<seq<nat>>, w1: seq<seq<nat>>, t: Tree, ino: nat) {
    && |w0| == |w1|
    && forall c :: c in t && (Ino(c) != ino || Level(c) == 0) && t[c] < |w0| ==> w0[t[c]] == w1[t[c]]
  }

  lemma FileKeptSame(w: seq<seq<nat>>, t: Tree, ino: nat)
    ensures FileKept(w, w, t, ino)
  {
  }

  lemma FileKeptStep(w0: seq<seq<nat>>, w1: seq<seq<nat>>, w2: seq<seq<nat>>, p: nat, t: Tree, ino: nat, slot: nat,
      keep: nat)
    requires FileKept(w0, w1, t, ino) && Untouched(w1, w2, Prune(p, t, Root(ino, slot), keep), Root(ino, slot))
    ensures FileKept(w0, w2, Prune(p, t, Root(ino, slot), keep), ino)
  {
    forall c | Under(c, Root(ino, slot))
      ensures Ino(c) == ino
    {
      UnderDeep(c, Root(ino, slot));
    }
  }

  lemma Listed(t: Tree, c: Addr)
    requires c in t
    ensures c in FileAddrs(t, Ino(c))
  {
  }

  lemma CutAll(p: nat, t: Tree, ino: nat)
    ensures FileAddrs(Cutoff(p, t, ino, 0), ino) == {}
  {
  }

  lemma CutNothing(p: nat, t: Tree, ino: nat)
    requires FileAddrs(t, ino) == {}
    ensures Cutoff(p, t, ino, 0) == t
  {
    forall c | c in t
      ensures Ino(c) != ino
    {
      Listed(t, c);
    }
  }

  lemma RawEmpty(t: Tree, ino: nat, raw: Inode)
    requires FileAddrs(t, ino) == {} && |raw.block| == NSLOTS && forall s :: 0 <= s < NSLOTS ==> raw.block[s] == 0
    ensures RawOk(t, ino, raw)
  {
    forall s | 0 <= s < NSLOTS
      ensures Root(ino, s) !in t
    {
      if Root(ino, s) in t { Listed(t, Root(ino, s)); }
    }
  }

  /** One missing block put in place, or found there. */
  lemma GapStep(p: nat, n: nat, t: Tree, t1: Tree, k: Addr, leaf: Addr, made: nat)
    requires Shape(p, n, t) && Under(leaf, k) && leaf != k && leaf !in t && (k.Kid? ==> k.parent in t)
    requires t1 == t || (k !in t && k in t1 && t1 == t[k := t1[k]])
    requires made == if t1 == t then 0 else 1
    ensures Gap(t, leaf) == Gap(t1, leaf) + made
    ensures k !in t1 ==> 1 < Gap(t, leaf)
  {
    if t1 != t {
      GapFill(p, n, t, k, t1[k], leaf);
    } else if k !in t {
      GapFill(p, n, t, k, 1, leaf);
    }
  }

  lemma Bounds(p: nat, words: seq<seq<nat>>, t: Tree, a: Addr)
    requires TreeOk(p, words, t, {}) && a in t
    ensures 0 < t[a] < |words| && |words[t[a]]| == p
  {
  }

  /** The inode of file `ino` agrees with the tree: pointers at the top, sectors in all. */
  ghost predicate FileOk(g: Geometry, t: Tree, ino: nat, raw: Inode) {
    && ino >= 1
    && raw.blocks == Times(|FileAddrs(t, ino)|, g.Sectors())
    && (if raw.FastSymlink() then FileAddrs(t, ino) == {} else RawOk(t, ino, raw))
  }

  /** Every inode agrees with the tree, and the tree holds blocks of these inodes only. */
  ghost predicate FilesOk(g: Geometry, t: Tree, table: map<nat, Inode>) {
    && (forall ino :: ino in table ==> FileOk(g, t, ino, table[ino]))
    && (forall a :: a in t ==> Ino(a) in table)
  }

  lemma FileAt(g: Geometry, t: Tree, table: map<nat, Inode>, ino: nat)
    requires FilesOk(g, t, table) && ino in table && !table[ino].FastSymlink()
    ensures ino >= 1 && RawOk(t, ino, table[ino])
  {
  }

  lemma FileKind(g: Geometry, t: Tree, table: map<nat, Inode>, ino: nat)
    requires FilesOk(g, t, table) && ino in table
    ensures if table[ino].FastSymlink() then FileAddrs(t, ino) == {} else RawOk(t, ino, table[ino])
  {
  }

  lemma GapMapped(t: Tree, c: Addr)
    requires Get(t, c) != 0
    ensures Gap(t, c) == 0
  {
  }

  ghost function OtherAddrs(t: Tree, ino: nat): set<Addr> {
    set c | c in t && Ino(c) != ino
  }

  lemma CountParts(t: Tree, ino: nat)
    ensures |t| == |FileAddrs(t, ino)| + |OtherAddrs(t, ino)|
  {
    hide Ino;
    assert t.Keys == FileAddrs(t, ino) + OtherAddrs(t, ino);
    assert |t| == |t.Keys|;
  }

  lemma PlacedOthers(t0: Tree, t1: Tree, ino: nat, leaf: Addr)
    requires Placed(t0, t1, ino, leaf)
    ensures OtherAddrs(t1, ino) == OtherAddrs(t0, ino)
    ensures forall i :: i != ino ==> FileAddrs(t1, i) == FileAddrs(t0, i)
  {
    hide Level, Ino;
  }

  lemma PlacedCounts(t0: Tree, t1: Tree, ino: nat, leaf: Addr)
    requires Placed(t0, t1, ino, leaf)
    ensures |FileAddrs(t1, ino)| == |FileAddrs(t0, ino)| + |t1| - |t0|
    ensures forall i :: i != ino ==> FileAddrs(t1, i) == FileAddrs(t0, i)
  {
    hide FileAddrs, OtherAddrs;
    PlacedOthers(t0, t1, ino, leaf);
    CountParts(t0, ino);
    CountParts(t1, ino);
  }

  /** Another file's inode does not notice. */
  lemma OtherFile(g: Geometry, t0: Tree, t1: Tree, ino: nat, raw: Inode)
    requires FileOk(g, t0, ino, raw) && FileAddrs(t1, ino) == FileAddrs(t0, ino)
    requires forall c :: c in t0 && c in t1 ==> t1[c] == t0[c]
    ensures FileOk(g, t1, ino, raw)
  {
    if !raw.FastSymlink() {
      forall s | 0 <= s < NSLOTS
        ensures Get(t1, Root(ino, s)) == Get(t0, Root(ino, s))
      {
        assert Root(ino, s) in FileAddrs(t0, ino) <==> Root(ino, s) in t0;
        assert Root(ino, s) in FileAddrs(t1, ino) <==> Root(ino, s) in t1;
      }
    }
  }

  lemma FilesPlaced(g: Geometry, t0: Tree, t1: Tree, table: map<nat, Inode>, ino: nat, raw: Inode, leaf: Addr,
      made: nat)
    requires FilesOk(g, t0, table) && ino in table && !table[ino].FastSymlink()
    requires Placed(t0, t1, ino, leaf) && |t1| == |t0| + made && RawOk(t1, ino, raw)
    requires raw == table[ino].(block := raw.block, blocks := table[ino].blocks + Times(made, g.Sectors()))
    ensures FilesOk(g, t1, table[ino := raw])
  {
    hide RawOk, FileAddrs, Times;
    PlacedCounts(t0, t1, ino, leaf);
    TimesAdd(|FileAddrs(t0, ino)|, made, g.Sectors());
    forall i | i in table && i != ino
      ensures FileOk(g, t1, i, table[i])
    {
      OtherFile(g, t0, t1, i, table[i]);
    }
  }

  /** Blocks that entered the tree while the inode stayed as it was are unaccounted for. */
  lemma FilesShort(g: Geometry, t0: Tree, t1: Tree, table: map<nat, Inode>, ino: nat, leaf: Addr, made: nat)
    requires g.Valid() && FilesOk(g, t0, table) && ino in table && Placed(t0, t1, ino, leaf) && |t1| == |t0| + made
    ensures FilesOk(g, t1, table) <==> made == 0
  {
    PlacedCounts(t0, t1, ino, leaf);
    if made == 0 {
      PlacedNothing(t0, t1, ino, leaf);
    } else {
      TimesAdd(|FileAddrs(t0, ino)|, made, g.Sectors());
      TimesPositive(made, g.Sectors());
      assert !FileOk(g, t1, ino, table[ino]);
    }
  }

  lemma PlacedNothing(t0: Tree, t1: Tree, ino: nat, leaf: Addr)
    requires Placed(t0, t1, ino, leaf) && |t1| == |t0|
    ensures t1 == t0
  {
    assert t0.Keys <= t1.Keys;
    SubsetSame(t0.Keys, t1.Keys);
  }

  lemma SubsetSame<T>(a: set<T>, b: set<T>)
    requires a <= b && |a| == |b|
    ensures a == b
  {
    assert b == a + (b - a);
  }

  lemma OthersCut(g: Geometry, t: Tree, table: map<nat, Inode>, ino: nat, keep: nat)
    requires FilesOk(g, t, table)
    ensures forall i :: i in table && i != ino ==> FileOk(g, Cutoff(g.ptrs, t, ino, keep), i, table[i])
    ensures forall a :: a in Cutoff(g.ptrs, t, ino, keep) ==> Ino(a) in table
  {
    hide RawOk, FileAddrs, Times, FileOk;
    var t' := Cutoff(g.ptrs, t, ino, keep);
    CutCounts(g.ptrs, t, ino, keep);
    forall i | i in table && i != ino
      ensures FileOk(g, t', i, table[i])
    {
      OtherFile(g, t, t', i, table[i]);
    }
  }

  lemma FilesCut(g: Geometry, t: Tree, table: map<nat, Inode>, ino: nat, raw: Inode, keep: nat)
    requires FilesOk(g, t, table) && ino in table && RawOk(Cutoff(g.ptrs, t, ino, keep), ino, raw)
    requires |Cutoff(g.ptrs, t, ino, keep)| <= |t| && !raw.FastSymlink()
    requires raw.blocks == SatSub(table[ino].blocks, Times(|t| - |Cutoff(g.ptrs, t, ino, keep)|, g.Sectors()))
    ensures FilesOk(g, Cutoff(g.ptrs, t, ino, keep), table[ino := raw])
  {
    hide RawOk, FileAddrs, Times, Cutoff;
    var t' := Cutoff(g.ptrs, t, ino, keep);
    OthersCut(g, t, table, ino, keep);
    CutCounts(g.ptrs, t, ino, keep);
    TimesAdd(|FileAddrs(t', ino)|, |t| - |t'|, g.Sectors());
  }

  lemma FilesGone(g: Geometry, t: Tree, table: map<nat, Inode>, ino: nat, raw: Inode)
    requires FilesOk(g, t, table) && ino in table && RawOk(Cutoff(g.ptrs, t, ino, 0), ino, raw) && raw.blocks == 0
    ensures FilesOk(g, Cutoff(g.ptrs, t, ino, 0), table[ino := raw])
  {
    hide RawOk, FileAddrs, Times, Cutoff;
    OthersCut(g, t, table, ino, 0);
    CutAll(g.ptrs, t, ino);
    TimesZero(g.Sectors());
  }

  lemma RawSame(t: Tree, ino: nat, raw: Inode, raw': Inode)
    requires RawOk(t, ino, raw) && raw'.block == raw.block
    ensures RawOk(t, ino, raw')
  {
  }

  lemma FilesSized(g: Geometry, t: Tree, table: map<nat, Inode>, ino: nat, raw: Inode)
    requires FilesOk(g, t, table) && ino in table && table[ino].kind == Regular
    requires raw == table[ino].(size := raw.size)
    ensures FilesOk(g, t, table[ino := raw])
  {
  }

  // ----- consequences

  /** Where a block pointer stands: in a slot of an inode, or at an entry of an indirect block. */
  datatype Place = Slot(ino: nat, s: nat) | Entry(a: Addr, i: nat)

  ghost predicate Stands(p: nat, t: Tree, table: map<nat, Inode>, x: Place) {
    match x
    case Slot(ino, s) => ino in table && !table[ino].FastSymlink() && s < NSLOTS == |table[ino].block|
    case Entry(a, i) => a in t && Level(a) >= 1 && i < p
  }

  ghost function PointerAt(p: nat, words: seq<seq<nat>>, t: Tree, table: map<nat, Inode>, x: Place): nat
    requires TreeOk(p, words, t, {}) && Stands(p, t, table, x)
  {
    match x
    case Slot(ino, s) => table[ino].block[s]
    case Entry(a, i) => words[t[a]][i]
  }

  function Target(x: Place): Addr {
    match x
    case Slot(ino, s) => Root(ino, s)
    case Entry(a, i) => Kid(a, i)
  }

  /** No block is referenced from two places, in whatever inodes and indirect blocks. */
  lemma OneOwner(g: Geometry, words: seq<seq<nat>>, t: Tree, table: map<nat, Inode>, x: Place, y: Place)
    requires TreeOk(g.ptrs, words, t, {}) && FilesOk(g, t, table) && Stands(g.ptrs, t, table, x)
              && Stands(g.ptrs, t, table, y)
    requires PointerAt(g.ptrs, words, t, table, x) == PointerAt(g.ptrs, words, t, table, y) != 0
    ensures x == y
  {
    hide FilesOk, TreeOk, PointerAt, Stands;
    PointerIs(g, words, t, table, x);
    PointerIs(g, words, t, table, y);
    Injective(g.ptrs, words, t, Target(x), Target(y));
  }

  lemma PointerIs(g: Geometry, words: seq<seq<nat>>, t: Tree, table: map<nat, Inode>, x: Place)
    requires TreeOk(g.ptrs, words, t, {}) && FilesOk(g, t, table) && Stands(g.ptrs, t, table, x)
    ensures PointerAt(g.ptrs, words, t, table, x) == Get(t, Target(x))
  {
    if x.Slot? {
      FileAt(g, t, table, x.ino);
    }
  }

  lemma Injective(p: nat, words: seq<seq<nat>>, t: Tree, a: Addr, b: Addr)
    requires TreeOk(p, words, t, {}) && Get(t, a) == Get(t, b) != 0
    ensures a == b
  {
  }

  /** A file has no more blocks than the volume, so below 2^32 sectors a sector count never needs more than 32
      bits. */
  lemma SectorsFit(g: Geometry, bits: seq<seq<bool>>, groupFree: seq<nat>, superFree: nat,
                   words: seq<seq<nat>>, t: Tree, held: set<nat>, table: map<nat, Inode>, ino: nat)
    requires CountersOk(g, bits, groupFree, superFree) && OwnOk(g, bits, t, held) && TreeOk(g.ptrs, words, t, {})
    requires FilesOk(g, t, table) && ino in table
    ensures table[ino].blocks <= Times(g.groups * g.perGroup, g.Sectors())
  {
    hide FilesOk, TreeOk, OwnOk, CountersOk;
    var s := FileAddrs(t, ino);
    InVolume(g, bits, groupFree, superFree, words, t, held);
    var values := FewAddrs(t, s, g.first, g.groups * g.perGroup);
    FileBlocks(g, t, table, ino);
    MulMono(|s|, g.groups * g.perGroup, g.Sectors());
  }

  lemma FileBlocks(g: Geometry, t: Tree, table: map<nat, Inode>, ino: nat)
    requires FilesOk(g, t, table) && ino in table
    ensures table[ino].blocks == Times(|FileAddrs(t, ino)|, g.Sectors())
  {
  }

  lemma InVolume(g: Geometry, bits: seq<seq<bool>>, groupFree: seq<nat>, superFree: nat, words: seq<seq<nat>>, t: Tree,
      held: set<nat>)
    requires CountersOk(g, bits, groupFree, superFree) && OwnOk(g, bits, t, held) && TreeOk(g.ptrs, words, t, {})
    ensures forall a :: a in t ==> g.first <= t[a] < g.first + g.groups * g.perGroup
    ensures forall a, b :: a in t && b in t && t[a] == t[b] ==> a == b
  {
    forall a | a in t
      ensures g.first <= t[a] < g.first + g.groups * g.perGroup
    {
      assert t[a] in t.Values;
      assert Used(g, bits, t[a]);
      InverseNumber(g, t[a]);
      MulMono(GroupOf(g, t[a]) + 1, g.groups, g.perGroup);
      MulStep(GroupOf(g, t[a]), g.perGroup);
    }
  }

  /** Different numbers in a range of `n` are at most `n` many. */
  lemma FewAddrs(t: Tree, s: set<Addr>, first: nat, n: nat) returns (values: set<nat>)
    requires (forall a :: a in s ==> a in t && first <= t[a] < first + n)
    requires forall a, b :: a in s && b in s && t[a] == t[b] ==> a == b
    ensures |s| <= n
  {
    values := Numbers(t, s, first);
    var u := Below(n);
    Smaller(values, u);
  }

  lemma {:induction false} Numbers(t: Tree, s: set<Addr>, first: nat) returns (values: set<nat>)
    requires (forall a :: a in s ==> a in t && first <= t[a])
    requires forall a, b :: a in s && b in s && t[a] == t[b] ==> a == b
    ensures |values| == |s| && forall v :: v in values ==> exists a :: a in s && t[a] == first + v
    decreases s
  {
    if s == {} {
      values := {};
    } else {
      var a :| a in s;
      var rest := Numbers(t, s - {a}, first);
      assert t[a] - first !in rest;
      values := rest + {t[a] - first};
    }
  }

  /** After a mapping, every logical block but the mapped one resolves as before, in every file. */
  lemma PlacedResolves(p: nat, t0: Tree, t1: Tree, ino: nat, lb: nat, ino': nat, lb': nat)
    requires p > 0 && lb < Limit(p) && lb' < Limit(p) && Placed(t0, t1, ino, Leaf(p, ino, lb))
    requires ino' != ino || lb' != lb
    ensures Get(t1, Leaf(p, ino', lb')) == Get(t0, Leaf(p, ino', lb'))
  {
    hide Leaf, Limit;
    LeafInjective(p, ino, lb, ino', lb');
    LeafReaches(p, ino', lb');
  }

  // ----- what a reader of a file sees

  /** The bytes of logical block `lb`: those of the block it resolves to, and zeros for a hole. */
  ghost function Content(p: nat, disk: seq<seq<Byte>>, t: Tree, ino: nat, lb: nat): seq<Byte>
    requires p > 0
  {
    var b := Get(t, Leaf(p, ino, lb));
    if 0 < b < |disk| then disk[b] else Zeros(4 * p)
  }

  /** Every logical block of every file reads as before. */
  ghost predicate SameContent(p: nat, disk0: seq<seq<Byte>>, t0: Tree, disk1: seq<seq<Byte>>, t1: Tree) {
    p > 0 && forall ino: nat, lb: nat :: lb < Limit(p) ==>
               Content(p, disk1, t1, ino, lb) == Content(p, disk0, t0, ino, lb)
  }

  /** The file reads as before up to block `keep` and as zeros from there on; every other file reads as before. */
  ghost predicate CutContent(p: nat, disk0: seq<seq<Byte>>, t0: Tree, disk1: seq<seq<Byte>>, t1: Tree, ino: nat,
                             keep: nat) {
    p > 0 && forall i: nat, lb: nat :: lb < Limit(p) ==>
               Content(p, disk1, t1, i, lb) ==
               if i == ino && lb >= keep then Zeros(4 * p) else Content(p, disk0, t0, i, lb)
  }

  lemma SameBytes(p: nat, disk0: seq<seq<Byte>>, w0: seq<seq<nat>>, disk1: seq<seq<Byte>>, w1: seq<seq<nat>>, b: nat)
    requires DiskView(disk0, w0, 4 * p) && DiskView(disk1, w1, 4 * p) && |w0| == |w1| && b < |w0| && w0[b] == w1[b]
    ensures disk0[b] == disk1[b]
  {
    hide Words;
    WordsInjective(disk0[b], disk1[b], p);
  }

  lemma ZeroBytes(p: nat, disk: seq<seq<Byte>>, w: seq<seq<nat>>, b: nat)
    requires DiskView(disk, w, 4 * p) && b < |w| && forall j :: 0 <= j < |w[b]| ==> w[b][j] == 0
    ensures disk[b] == Zeros(4 * p)
  {
    assert Words(Zeros(4 * p)) == w[b];
    WordsInjective(disk[b], Zeros(4 * p), p);
  }

  /** One block of one file, where the same data block is behind it before and after. */
  lemma BlockSame(p: nat, disk0: seq<seq<Byte>>, w0: seq<seq<nat>>, t0: Tree, disk1: seq<seq<Byte>>,
                  w1: seq<seq<nat>>, t1: Tree, ino: nat, lb: nat)
    requires p > 0 && DiskView(disk0, w0, 4 * p) && DiskView(disk1, w1, 4 * p) && |w0| == |w1|
    requires Get(t1, Leaf(p, ino, lb)) == Get(t0, Leaf(p, ino, lb))
    requires var b := Get(t0, Leaf(p, ino, lb)); b < |w0| && (b > 0 ==> w0[b] == w1[b])
    ensures Content(p, disk1, t1, ino, lb) == Content(p, disk0, t0, ino, lb)
  {
    hide DiskView, Leaf;
    var b := Get(t0, Leaf(p, ino, lb));
    Sized(disk0, w0, 4 * p);
    Sized(disk1, w1, 4 * p);
    if b > 0 {
      SameBytes(p, disk0, w0, disk1, w1, b);
    }
  }

  lemma Sized(disk: seq<seq<Byte>>, w: seq<seq<nat>>, size: nat)
    requires DiskView(disk, w, size)
    ensures |disk| == |w|
  {
  }

  lemma KeptAt(p: nat, w0: seq<seq<nat>>, w1: seq<seq<nat>>, t: Tree, held: set<nat>, ino: nat, lb: nat)
    requires p > 0 && lb < Limit(p) && Shape(p, |w0|, t) && DataKept(w0, w1, t, held)
    ensures |w0| == |w1| && (|w0| > 0 ==> Get(t, Leaf(p, ino, lb)) < |w0|)
    ensures Leaf(p, ino, lb) in t ==> Get(t, Leaf(p, ino, lb)) < |w0|
    ensures Leaf(p, ino, lb) in t ==> w0[Get(t, Leaf(p, ino, lb))] == w1[Get(t, Leaf(p, ino, lb))]
  {
    hide Leaf, Limit;
    LeafReaches(p, ino, lb);
  }

  /** A mapping changes nothing that a reader sees: a hole that was mapped reads as the hole did. */
  lemma PlacedContent(p: nat, disk0: seq<seq<Byte>>, w0: seq<seq<nat>>, t0: Tree, disk1: seq<seq<Byte>>,
                      w1: seq<seq<nat>>, t1: Tree, held: set<nat>, ino: nat, lb: nat)
    requires DiskView(disk0, w0, 4 * p) && DiskView(disk1, w1, 4 * p) && |w0| > 0
    requires TreeOk(p, w0, t0, {}) && DataKept(w0, w1, t0, held) && Placed(t0, t1, ino, Leaf(p, ino, lb))
    requires lb < Limit(p) && Leaf(p, ino, lb) in t1 && Leaf(p, ino, lb) !in t0 ==>
               var b := t1[Leaf(p, ino, lb)]; 0 < b < |disk1| && disk1[b] == Zeros(4 * p)
    requires lb >= Limit(p) ==> t1 == t0
    ensures SameContent(p, disk0, t0, disk1, t1)
  {
    hide Leaf, Limit, DiskView, DataKept, Placed, Content;
    forall i: nat, l: nat | l < Limit(p)
      ensures Content(p, disk1, t1, i, l) == Content(p, disk0, t0, i, l)
    {
      PlacedBlock(p, disk0, w0, t0, disk1, w1, t1, held, ino, lb, i, l);
    }
  }

  lemma PlacedBlock(p: nat, disk0: seq<seq<Byte>>, w0: seq<seq<nat>>, t0: Tree, disk1: seq<seq<Byte>>,
                    w1: seq<seq<nat>>, t1: Tree, held: set<nat>, ino: nat, lb: nat, i: nat, l: nat)
    requires DiskView(disk0, w0, 4 * p) && DiskView(disk1, w1, 4 * p) && |w0| > 0 && l < Limit(p)
    requires TreeOk(p, w0, t0, {}) && DataKept(w0, w1, t0, held) && Placed(t0, t1, ino, Leaf(p, ino, lb))
    requires lb < Limit(p) && Leaf(p, ino, lb) in t1 && Leaf(p, ino, lb) !in t0 ==>
               var b := t1[Leaf(p, ino, lb)]; 0 < b < |disk1| && disk1[b] == Zeros(4 * p)
    requires lb >= Limit(p) ==> t1 == t0
    ensures Content(p, disk1, t1, i, l) == Content(p, disk0, t0, i, l)
  {
    hide Leaf, Limit, DiskView, DataKept;
    KeptAt(p, w0, w1, t0, held, i, l);
    if i == ino && l == lb && Leaf(p, i, l) !in t0 {
    } else {
      if lb < Limit(p) && (i != ino || l != lb) {
        hide Placed;
        PlacedResolves(p, t0, t1, ino, lb, i, l);
      }
      BlockSame(p, disk0, w0, t0, disk1, w1, t1, i, l);
    }
  }

  /** After a cut the file reads as zeros from there on, and all else as before. */
  lemma CutoffContent(p: nat, disk0: seq<seq<Byte>>, w0: seq<seq<nat>>, t0: Tree, disk1: seq<seq<Byte>>,
                      w1: seq<seq<nat>>, ino: nat, keep: nat)
    requires DiskView(disk0, w0, 4 * p) && DiskView(disk1, w1, 4 * p) && |w0| > 0
    requires TreeOk(p, w0, t0, {}) && FileKept(w0, w1, Cutoff(p, t0, ino, keep), ino)
    ensures CutContent(p, disk0, t0, disk1, Cutoff(p, t0, ino, keep), ino, keep)
  {
    hide Leaf, Limit, DiskView, FileKept, Content, Cutoff;
    forall i: nat, l: nat | l < Limit(p)
      ensures Content(p, disk1, Cutoff(p, t0, ino, keep), i, l) ==
              if i == ino && l >= keep then Zeros(4 * p) else Content(p, disk0, t0, i, l)
    {
      CutBlock(p, disk0, w0, t0, disk1, w1, ino, keep, i, l);
    }
  }

  lemma CutBlock(p: nat, disk0: seq<seq<Byte>>, w0: seq<seq<nat>>, t0: Tree, disk1: seq<seq<Byte>>,
                 w1: seq<seq<nat>>, ino: nat, keep: nat, i: nat, l: nat)
    requires DiskView(disk0, w0, 4 * p) && DiskView(disk1, w1, 4 * p) && |w0| > 0 && l < Limit(p)
    requires TreeOk(p, w0, t0, {}) && FileKept(w0, w1, Cutoff(p, t0, ino, keep), ino)
    ensures Content(p, disk1, Cutoff(p, t0, ino, keep), i, l) ==
            if i == ino && l >= keep then Zeros(4 * p) else Content(p, disk0, t0, i, l)
  {
    hide Leaf, Limit, DiskView;
    LeafReaches(p, i, l);
    CutResolves(p, t0, ino, keep, i, l);
    if i != ino || l < keep {
      BlockSame(p, disk0, w0, t0, disk1, w1, Cutoff(p, t0, ino, keep), i, l);
    }
  }

  lemma UncutContent(p: nat, disk: seq<seq<Byte>>, t: Tree, ino: nat)
    requires p > 0
    ensures CutContent(p, disk, t, disk, t, ino, Limit(p))
  {
  }

  lemma ContentStays(p: nat, disk: seq<seq<Byte>>, t: Tree)
    requires p > 0
    ensures SameContent(p, disk, t, disk, t)
  {
  }
}
