/**
  The in-memory ext2 superblock and the operations that read and change the block map of a file:
  bitmap allocation, resolution of a logical block, mapping of a new one, truncation and freeing.
  Device transfers succeed; a block is its bytes.
  */
module Ext2 {
  import opened Common
  import opened Arith
  import opened Ext2Layout
  import opened Ext2Allocator
  import opened Ext2Tree
  import opened Ext2State

  /** One step of a run. */
  datatype Op = Map(ino: nat, lb: nat) | Cut(ino: nat, length: nat) | Drop(ino: nat)

  /** No step of the run cuts or drops the file. */
  predicate Spared(ops: seq<Op>, ino: nat) {
    forall k :: 0 <= k < |ops| ==> ops[k].Map? || ops[k].ino != ino
  }

  ghost predicate ReadsAsBefore(p: nat, disk0: seq<seq<Byte>>, t0: Tree, disk1: seq<seq<Byte>>, t1: Tree, ops: seq<Op>)
    requires p > 0
  {
    forall ino: nat, lb: nat :: lb < Limit(p) && Spared(ops, ino) ==>
      Content(p, disk1, t1, ino, lb) == Content(p, disk0, t0, ino, lb)
  }

  class Ext2Super {
    const g: Geometry
    /** The inode table on disk. */
    var table: map<nat, Inode>
    var disk: seq<seq<Byte>>
    var bitmap: seq<seq<bv8>>
    var groupFree: seq<nat>
    var superFree: nat

    /** Pointer view of `disk`, bit view of `bitmap`. */
    ghost var words: seq<seq<nat>>
    ghost var bits: seq<seq<bool>>
    /** Every block pointer of every file. */
    ghost var tree: Tree
    /** Blocks in use that no file points to: metadata, and blocks in flight between the bitmap and
        a tree. */
    ghost var held: set<nat>

    /** Mounting: the bytes are given, and `tree` and `held` say what they hold. */
    constructor (g: Geometry, disk: seq<seq<Byte>>, bitmap: seq<seq<bv8>>, groupFree: seq<nat>, superFree: nat,
                 table: map<nat, Inode>, ghost words: seq<seq<nat>>, ghost bits: seq<seq<bool>>,
                 ghost tree: Tree, ghost held: set<nat>)
      requires BitmapView(bitmap, bits) && CountersOk(g, bits, groupFree, superFree) && OwnOk(g, bits, tree, held)
      requires DiskView(disk, words, g.BlockSize()) && g.first + g.groups * g.perGroup <= |disk| <= WORD
      requires TreeOk(g.ptrs, words, tree, {}) && FilesOk(g, tree, table)
      ensures Valid() && this.g == g && this.tree == tree && this.held == held && this.table == table
      ensures this.superFree == superFree
    {
      this.g, this.disk, this.bitmap, this.groupFree, this.superFree := g, disk, bitmap, groupFree, superFree;
      this.table, this.words, this.bits, this.tree, this.held := table, words, bits, tree, held;
    }

    ghost predicate AllocInv()
      reads this`bitmap, this`bits, this`groupFree, this`superFree, this`tree, this`held
    {
      && BitmapView(bitmap, bits)
      && CountersOk(g, bits, groupFree, superFree)
      && OwnOk(g, bits, tree, held)
    }

    ghost predicate MapInv(stale: set<Addr>)
      reads this`disk, this`words, this`tree
    {
      && g.ptrs > 0
      && DiskView(disk, words, g.BlockSize())
      && g.first + g.groups * g.perGroup <= |disk| <= WORD
      && TreeOk(g.ptrs, words, tree, stale)
    }

    /** What `MapInv` says of the block at one address, and of one pointer in it. */
    lemma Here(a: Addr, stale: set<Addr>)
      requires MapInv(stale) && a in tree
      ensures 0 < tree[a] < |disk| == |words| <= WORD && |disk[tree[a]]| == 4 * g.ptrs
      ensures Shape(g.ptrs, |words|, tree) && Proper(g.ptrs, a)
    {
    }

    lemma Small(a: Addr, stale: set<Addr>)
      requires MapInv(stale)
      ensures Low32(Get(tree, a)) == Get(tree, a)
    {
    }

    lemma Hole(a: Addr, keep: nat, stale: set<Addr>)
      requires MapInv(stale) && Get(tree, a) == 0
      ensures Prune(g.ptrs, tree, a, keep) == tree && MapInv(stale + {a})
    {
      PruneHole(g.ptrs, |words|, tree, a, keep);
    }

    lemma StartEntries(a: Addr, keep: nat, stale: set<Addr>)
      requires MapInv(stale) && a in tree && Level(a) >= 1
      requires forall c :: c in stale ==> !Under(c, a)
      ensures tree[a] < |disk| == |words| && words[tree[a]] == Words(disk[tree[a]])
      ensures Words(disk[tree[a]]) == EntriesAfter(g.ptrs, tree, a, 0, keep)
    {
      forall j | 0 <= j < g.ptrs
        ensures words[tree[a]][j] == EntriesAfter(g.ptrs, tree, a, 0, keep)[j]
      {
        assert Under(Kid(a, j), a);
      }
    }

    lemma FinishEntries(a: Addr, stale: set<Addr>, w0: seq<seq<nat>>, buf: seq<Byte>)
      requires MapInv(stale + Kids(a, g.ptrs)) && a in tree && Level(a) >= 1 && |buf| == 4 * g.ptrs
      requires forall j :: 0 <= j < g.ptrs ==> Words(buf)[j] == Get(tree, Kid(a, j))
      requires Untouched(w0, words, tree, a)
      ensures tree[a] < |disk| == |words| && g.first + g.groups * g.perGroup <= |disk| <= WORD
      ensures DiskView(disk, words, g.BlockSize()) && |buf| == g.BlockSize()
      ensures TreeOk(g.ptrs, words[tree[a] := Words(buf)], tree, stale)
      ensures Untouched(w0, words[tree[a] := Words(buf)], tree, a)
    {
      RowFixed(g.ptrs, words, tree, a, stale, Words(buf));
      UntouchedWrite(w0, words, g.ptrs, tree, a, Words(buf));
    }

    lemma Reassemble(stale: set<Addr>)
      requires DiskView(disk, words, g.BlockSize()) && g.first + g.groups * g.perGroup <= |disk| <= WORD
      requires TreeOk(g.ptrs, words, tree, stale)
      ensures MapInv(stale)
    {
    }

    lemma MoreStale(stale: set<Addr>, more: set<Addr>)
      requires MapInv(stale) && stale <= more
      ensures MapInv(more)
    {
    }

    /** The subtree at `a` ends before `keep`. */
    lemma Before(a: Addr, keep: nat, stale: set<Addr>)
      requires MapInv(stale) && Proper(g.ptrs, a) && Level(a) >= 1
      requires Base(g.ptrs, a) + Span(g.ptrs, Level(a)) <= keep
      ensures Prune(g.ptrs, tree, a, keep) == tree && MapInv(stale + {a})
    {
      hide Times;
      PruneNothing(g.ptrs, |words|, tree, a, keep);
    }

    lemma KeptData(a: Addr, keep: nat, stale: set<Addr>)
      requires MapInv(stale) && Proper(g.ptrs, a) && Level(a) == 0 && Base(g.ptrs, a) < keep
      ensures Prune(g.ptrs, tree, a, keep) == tree && MapInv(stale + {a})
    {
      PruneNothing(g.ptrs, |words|, tree, a, keep);
    }

    /** The subtree at `a` starts at or after `keep`. */
    lemma Whole(a: Addr, keep: nat, stale: set<Addr>)
      requires MapInv(stale) && a in tree && Base(g.ptrs, a) >= keep
      ensures Prune(g.ptrs, tree, a, keep) == Prune(g.ptrs, tree, a, 0) && a !in Prune(g.ptrs, tree, a, keep)
    {
      PruneWhole(g.ptrs, |words|, tree, a, keep);
    }

    lemma DataBlock(a: Addr, stale: set<Addr>)
      requires MapInv(stale) && Level(a) == 0
      ensures PruneKids(g.ptrs, tree, a, g.ptrs, 0) == tree && MapInv(stale + Kids(a, g.ptrs))
    {
      NoEntries(g.ptrs, |words|, tree, a);
    }

    lemma Entry(a: Addr, i: nat, stale: set<Addr>)
      requires MapInv(stale) && a in tree && Level(a) >= 1 && i < g.ptrs && Kid(a, i) !in stale
      ensures tree[a] < |disk| && |disk[tree[a]]| == 4 * g.ptrs
      ensures Word(disk[tree[a]], i) == Get(tree, Kid(a, i))
      ensures tree[a] < |words| && i < |words[tree[a]]| && words[tree[a]][i] == Get(tree, Kid(a, i))
    {
    }

    // ----- bitmap

    ghost function Rec(): Records
      reads this`bits, this`groupFree, this`superFree
    {
      Records(bits, groupFree, superFree)
    }

    /** The update at the end of the scan: set the bit, lower both counters. */
    method TakeBlock(group: nat, index: nat) returns (block: nat)
      requires AllocInv() && group < g.groups && index < 32 * g.ptrs && !bits[group][index]
      modifies this`bitmap, this`groupFree, this`superFree, this`bits, this`held
      ensures AllocInv()
      ensures g.first <= block && 0 < block < g.first + g.groups * g.perGroup
      ensures !Used(g, old(bits), block) && block !in old(held) && held == old(held) + {block}
      ensures Took(g, old(Rec()), Rec(), block) && superFree == old(superFree) - 1
      ensures block == BlockNum(g, group, index)
    {
      hide Used, OwnOk, CountersOk, Took, GroupOf, IndexOf, BlockNum, BitmapView, Bits;
      TakeKeeps(g, bits, groupFree, superFree, tree, held, group, index);
      ViewAt(bitmap, bits, group);
      block := BlockNum(g, group, index);
      var bytes := SetBit(bitmap[group], index);
      ViewStep(bitmap, bits, group, bytes);
      bitmap := bitmap[group := bytes];
      groupFree := groupFree[group := groupFree[group] - 1];
      superFree := superFree - 1;
      bits := bits[group := bits[group][index := true]];
      held := held + {block};
    }

    method AllocBlock(preferred: nat) returns (r: Result<nat>)
      requires AllocInv()
      modifies this`bitmap, this`groupFree, this`superFree, this`bits, this`held
      ensures AllocInv()
      ensures r.Ok? ==> !Used(g, old(bits), r.value) && r.value !in old(held) && held == old(held) + {r.value}
      ensures r.Ok? ==> 0 < r.value < g.first + g.groups * g.perGroup && g.first <= r.value
      ensures r.Ok? ==> Took(g, old(Rec()), Rec(), r.value) && superFree == old(superFree) - 1
      // it is the first free block, from the preferred group on
      ensures r.Ok? ==> FirstFree(g, old(bits), preferred, r.value)
      // no space is reported only when every block of every group is in use
      ensures r.Err? ==> r.error == ENOSPC && superFree == 0
      ensures r.Err? ==> forall k, i :: 0 <= k < g.groups && 0 <= i < 32 * g.ptrs ==> bits[k][i]
      ensures r.Err? ==> bitmap == old(bitmap) && groupFree == old(groupFree) && superFree == old(superFree)
      ensures r.Err? ==> bits == old(bits) && held == old(held)
    {
      hide Used, OwnOk, Took, BitmapView, FirstFree, FreeThere, CountersOk;
      var found := FindFree(preferred);
      if found.None? {
        NoneLeft();
        return Err(ENOSPC);
      }
      var block := TakeBlock(found.value.0, found.value.1);
      r := Ok(block);
    }

    /** The search of `alloc_block`: the lowest clear bit of the first group, from the preferred one on, that has
        one. */
    method FindFree(preferred: nat) returns (r: Option<(nat, nat)>)
      requires AllocInv()
      ensures r.Some? ==>
                && r.value.0 < g.groups == |bits| && r.value.1 < 32 * g.ptrs == |bits[r.value.0]|
                && !bits[r.value.0][r.value.1]
                && FirstFree(g, bits, preferred, BlockNum(g, r.value.0, r.value.1))
      ensures r == None ==> forall k, i :: 0 <= k < g.groups && 0 <= i < 32 * g.ptrs ==> bits[k][i]
    {
      hide OwnOk, Used, FirstFree, Bits, Clear, Sum, BitmapView, Full;
      Groups();
      var groupCount := |groupFree|;
      for offset := 0 to groupCount
        invariant forall o :: 0 <= o < offset ==> Full(Cyclic(preferred, o, groupCount))
      {
        var group := Cyclic(preferred, offset, groupCount);
        var found := FindInGroup(group);
        if found.Some? {
          Found(preferred, offset, found.value);
          return Some((group, found.value));
        }
      }
      forall k | 0 <= k < groupCount
        ensures Full(k)
      {
        var o := CyclicCover(preferred, groupCount, k);
      }
      AllFull();
      r := None;
    }

    /** A group whose counter is zero is not looked at. */
    method FindInGroup(group: nat) returns (r: Option<nat>)
      requires AllocInv() && group < g.groups
      ensures group < |bits| == g.groups && |bits[group]| == 32 * g.ptrs
      ensures r == None <==> Full(group)
      ensures r.Some? ==>
                r.value < 32 * g.ptrs && !bits[group][r.value] && forall j :: 0 <= j < r.value ==> bits[group][j]
    {
      hide OwnOk, Used, Bits, Clear, Sum, BitmapView;
      Groups();
      ViewAt(bitmap, bits, group);
      ClearZero(bits[group]);
      if groupFree[group] == 0 {
        return None;
      }
      r := FindClearBit(bitmap[group]);
    }

    lemma Groups()
      requires AllocInv()
      ensures g.Valid() && |bits| == |groupFree| == |bitmap| == g.groups
      ensures forall k :: 0 <= k < g.groups ==> |bits[k]| == 32 * g.ptrs && groupFree[k] == Clear(bits[k])
    {
    }

    lemma AllFull()
      requires AllocInv() && forall k :: 0 <= k < g.groups ==> Full(k)
      ensures forall k, i :: 0 <= k < g.groups && 0 <= i < 32 * g.ptrs ==> bits[k][i]
    {
      hide OwnOk, Clear, Sum, BitmapView, AllocInv;
      Groups();
      forall k, i | 0 <= k < g.groups && 0 <= i < 32 * g.ptrs
        ensures bits[k][i]
      {
        assert Full(k);
      }
    }

    ghost predicate Full(k: nat)
      reads this`bits
    {
      k < |bits| && forall j :: 0 <= j < |bits[k]| ==> bits[k][j]
    }

    lemma Found(preferred: nat, o: nat, i: nat)
      requires g.Valid() && o < g.groups == |bits|
      requires forall p :: 0 <= p < o ==> Full(Cyclic(preferred, p, g.groups))
      requires var k := Cyclic(preferred, o, g.groups);
               i < |bits[k]| && !bits[k][i] && forall j :: 0 <= j < i ==> bits[k][j]
      ensures FirstFree(g, bits, preferred, BlockNum(g, Cyclic(preferred, o, g.groups), i))
    {
      assert FreeThere(g, bits, preferred, o, i, BlockNum(g, Cyclic(preferred, o, g.groups), i));
    }

    /** With every bit set the counters say so. */
    lemma NoneLeft()
      requires AllocInv() && forall k, i :: 0 <= k < g.groups && 0 <= i < 32 * g.ptrs ==> bits[k][i]
      ensures superFree == 0
    {
      forall k | 0 <= k < |groupFree|
        ensures groupFree[k] == 0
      {
        ClearZero(bits[k]);
      }
      SumZero(groupFree);
    }

    method FreeBlock(block: nat)
      requires AllocInv() && block in held && block != 0
      modifies this`bitmap, this`groupFree, this`superFree, this`bits, this`held
      ensures AllocInv() && held == old(held) - {block} && superFree == old(superFree) + 1
      ensures Took(g, Rec(), old(Rec()), block)
    {
      hide Used, OwnOk, CountersOk, Took, BitmapView, Bits;
      GiveKeeps(g, bits, groupFree, superFree, tree, held, block);
      var relative := block - g.first;
      var group := relative / g.perGroup;
      var index := relative % g.perGroup;
      ViewAt(bitmap, bits, group);
      var bytes := ClearBit(bitmap[group], index);
      ViewStep(bitmap, bits, group, bytes);
      bitmap := bitmap[group := bytes];
      groupFree := groupFree[group := groupFree[group] + 1];
      superFree := superFree + 1;
      bits := bits[group := bits[group][index := false]];
      held := held - {block};
    }

    // ----- pointer blocks

    method ReadBlockPtr(block: nat, index: nat) returns (r: Result<nat>)
      requires DiskView(disk, words, g.BlockSize()) && block < |disk|
      ensures r == if index < g.ptrs then Ok(words[block][index]) else Err(EINVAL)
    {
      var buf := disk[block];
      var offset := index * 4;
      if offset + 4 > |buf| {
        return Err(EINVAL);
      }
      r := Ok(Word(buf, index));
    }

    method WriteBlock(block: nat, buf: seq<Byte>)
      requires DiskView(disk, words, g.BlockSize()) && block < |disk| && |buf| == g.BlockSize()
      modifies this`disk, this`words
      ensures DiskView(disk, words, g.BlockSize())
      ensures words == old(words)[block := Words(buf)]
    {
      disk := disk[block := buf];
      words := words[block := Words(buf)];
    }

    method WriteBlockPtr(block: nat, index: nat, value: nat) returns (r: Result<()>)
      requires DiskView(disk, words, g.BlockSize()) && block < |disk|
      modifies this`disk, this`words
      ensures DiskView(disk, words, g.BlockSize())
      ensures index < g.ptrs ==> r.Ok? && words == SetEntry(old(words), block, index, Low32(value))
      ensures index >= g.ptrs ==> r == Err(EINVAL) && words == old(words)
    {
      var buf := disk[block];
      var offset := index * 4;
      if offset + 4 > |buf| {
        return Err(EINVAL);
      }
      PutWordUpdates(buf, index, value);
      WriteBlock(block, PutWord(buf, index, value));
      r := Ok(());
    }

    // ----- freeing a subtree

    /** Moves a block out of the tree, so that it can be freed. */
    ghost method Detach(a: Addr)
      requires AllocInv() && a in tree
      requires Shape(g.ptrs, |words|, tree)
      modifies this`tree, this`held
      ensures AllocInv()
      ensures tree == old(tree) - {a} && held == old(held) + {old(tree)[a]}
      ensures |tree| == |old(tree)| - 1 && old(tree)[a] !in old(held)
    {
      hide Used, CountersOk;
      var v := tree[a];
      var t := tree - {a};
      assert t.Keys == tree.Keys - {a};
      forall x: nat ensures x in tree.Values <==> x == v || x in t.Values {
        if x in tree.Values && x != v {
          var c :| c in tree && tree[c] == x;
          assert c in t && t[c] == x;
        }
      }
      held := held + {v};
      tree := t;
    }

    /** Frees a block and everything below it, children first. */
    method FreeSubtree(block: nat, level: nat, ghost a: Addr, ghost stale: set<Addr>) returns (freed: nat)
      requires AllocInv() && MapInv(stale)
      requires block == Get(tree, a) && (block != 0 ==> Level(a) == level)
      requires forall c :: c in stale ==> !Under(c, a)
      modifies this`bitmap, this`groupFree, this`superFree, this`bits, this`held, this`tree
      ensures AllocInv() && MapInv(stale + {a})
      ensures tree == Prune(g.ptrs, old(tree), a, 0) && held == old(held)
      ensures freed == |old(tree)| - |tree| && superFree == old(superFree) + freed
      decreases level
    {
      hide AllocInv, Took, TreeOk, DiskView, Shape, Under, Level, Base, Kids, Prune, PruneKids;
      ghost var t := tree;
      freed := 0;
      if block == 0 {
        Hole(a, 0, stale);
        return;
      }
      Here(a, stale);
      if level > 0 {
        freed := FreeEntries(block, level, a, stale);
      } else {
        DataBlock(a, stale);
      }
      DropTop(g.ptrs, words, t, a, 0, stale);
      Detach(a);
      FreeBlock(block);
      freed := freed + 1;
    }

    method FreeEntries(block: nat, level: nat, ghost a: Addr, ghost stale: set<Addr>) returns (freed: nat)
      requires AllocInv() && MapInv(stale)
      requires a in tree && block == tree[a] && Level(a) == level > 0
      requires forall c :: c in stale ==> !Under(c, a)
      modifies this`bitmap, this`groupFree, this`superFree, this`bits, this`held, this`tree
      ensures AllocInv() && MapInv(stale + Kids(a, g.ptrs))
      ensures tree == PruneKids(g.ptrs, old(tree), a, g.ptrs, 0) && held == old(held)
      ensures freed == |old(tree)| - |tree| && superFree == old(superFree) + freed
      decreases level, 0
    {
      hide AllocInv, MapInv, Shape, Under, UnderKids, Base, Kids, Prune, PruneKids;
      ghost var t := tree;
      PruneStart(g.ptrs, t, a, 0);
      KidsNone(a, stale);
      freed := 0;
      Here(a, stale);
      var buf := disk[block];
      for i := 0 to g.ptrs
        invariant AllocInv() && MapInv(stale + Kids(a, i))
        invariant tree == PruneKids(g.ptrs, t, a, i, 0) && held == old(held)
        invariant freed == |t| - |tree| && superFree == old(superFree) + freed
        invariant a in tree && tree[a] == block
      {
        PruneStep(g.ptrs, t, a, i, 0);
        KidsApart(a, i, stale);
        Entry(a, i, stale + Kids(a, i));
        var child := Word(buf, i);
        var n := FreeSubtree(child, level - 1, Kid(a, i), stale + Kids(a, i));
        freed := freed + n;
        KidsGrow(a, i, stale);
        PruneSelf(g.ptrs, t, a, i + 1, 0);
      }
    }

    // ----- truncation

    /** Frees what lies at or past `keep` below the pointer `slot`; gives the new pointer. */
    method TruncateIndirect(slot: nat, level: nat, base: nat, keep: nat, ghost a: Addr, ghost stale: set<Addr>)
      returns (slot': nat, freed: nat)
      requires AllocInv() && MapInv(stale)
      requires slot == Get(tree, a) && Proper(g.ptrs, a) && Level(a) == level >= 1 && base == Base(g.ptrs, a)
      requires forall c :: c in stale ==> !Under(c, a)
      modifies this`bitmap, this`groupFree, this`superFree, this`bits, this`held, this`tree, this`disk, this`words
      ensures AllocInv() && MapInv(stale + {a})
      ensures tree == Prune(g.ptrs, old(tree), a, keep) && slot' == Get(tree, a) && held == old(held)
      ensures freed == |old(tree)| - |tree| && superFree == old(superFree) + freed
      ensures Untouched(old(words), words, tree, a) && |words| == |old(words)|
      decreases level, 0
    {
      hide AllocInv, Took, TreeOk, DiskView, Shape, Under, Level, Base, Proper, Untouched, Kids, Prune, PruneKids, Span;
      ghost var t := tree;
      slot', freed := slot, 0;
      UntouchedSame(words, tree, a);
      if slot == 0 {
        Hole(a, keep, stale);
        return;
      }
      Here(a, stale);
      var span := Span(g.ptrs, level - 1);
      SpanTop(g.ptrs, level);
      if base + Times(span, g.ptrs) <= keep {
        Before(a, keep, stale);
        return;
      }
      freed := TruncateEntries(slot, level, base, keep, a, stale);
      if base >= keep {
        MoreStale(stale, stale + Kids(a, g.ptrs));
        DropTop(g.ptrs, words, t, a, keep, stale);
        Detach(a);
        FreeBlock(slot);
        UntouchedFewer(old(words), words, a, PruneKids(g.ptrs, t, a, g.ptrs, keep), tree);
        slot' := 0;
        freed := freed + 1;
      } else {
        PruneEnd(g.ptrs, |words|, t, a, keep);
        PruneSelf(g.ptrs, t, a, g.ptrs, keep);
        MoreStale(stale, stale + {a});
      }
    }

    /** One entry: freed whole at or past `keep`, cut further down before it, and left alone when it is
        a data block before it. */
    method TruncateChild(child: nat, level: nat, entryBase: nat, keep: nat, ghost a: Addr, ghost stale: set<Addr>)
      returns (c: nat, freed: nat)
      requires AllocInv() && MapInv(stale)
      requires child == Get(tree, a) && Proper(g.ptrs, a) && Level(a) == level && entryBase == Base(g.ptrs, a)
      requires forall c :: c in stale ==> !Under(c, a)
      modifies this`bitmap, this`groupFree, this`superFree, this`bits, this`held, this`tree, this`disk, this`words
      ensures AllocInv() && MapInv(stale + {a})
      ensures tree == Prune(g.ptrs, old(tree), a, keep) && c == Get(tree, a) && held == old(held)
      ensures freed == |old(tree)| - |tree| && superFree == old(superFree) + freed
      ensures Untouched(old(words), words, tree, a) && |words| == |old(words)|
      decreases level, 1
    {
      hide AllocInv, MapInv, Under, Base, Level, Proper, Untouched;
      c, freed := child, 0;
      UntouchedSame(words, tree, a);
      if child == 0 {
        Hole(a, keep, stale);
        return;
      }
      if entryBase >= keep {
        Whole(a, keep, stale);
        freed := FreeSubtree(child, level, a, stale);
        c := 0;
        UntouchedSame(words, tree, a);
      } else if level > 0 {
        c, freed := TruncateIndirect(child, level, entryBase, keep, a, stale);
      } else {
        KeptData(a, keep, stale);
      }
    }

    /** The loop over the entries of one indirect block, and its write-back. */
    method TruncateEntries(block: nat, level: nat, base: nat, keep: nat, ghost a: Addr, ghost stale: set<Addr>)
      returns (freed: nat)
      requires AllocInv() && MapInv(stale)
      requires a in tree && block == tree[a] && Level(a) == level >= 1 && base == Base(g.ptrs, a)
      requires forall c :: c in stale ==> !Under(c, a)
      modifies this`bitmap, this`groupFree, this`superFree, this`bits, this`held, this`tree, this`disk, this`words
      ensures AllocInv() && MapInv(stale)
      ensures tree == PruneKids(g.ptrs, old(tree), a, g.ptrs, keep) && held == old(held)
      ensures freed == |old(tree)| - |tree| && superFree == old(superFree) + freed
      ensures Untouched(old(words), words, tree, a) && |words| == |old(words)|
      decreases level - 1, 2
    {
      hide AllocInv, MapInv, TreeOk, DiskView, Shape, Under, UnderKids, Base, Level, Proper, Untouched, Word;
      hide Kids, Prune, PruneKids, EntriesAfter, Get, Span, Times, PutWord;
      ghost var t := tree;
      PruneStart(g.ptrs, t, a, keep);
      UntouchedSame(words, tree, a);
      KidsNone(a, stale);
      Here(a, stale);
      var buf := disk[block];
      StartEntries(a, keep, stale);
      freed := 0;
      var dirty := false;
      for i := 0 to g.ptrs
        invariant AllocInv() && MapInv(stale + Kids(a, i))
        invariant tree == PruneKids(g.ptrs, t, a, i, keep) && held == old(held)
        invariant freed == |t| - |tree| && superFree == old(superFree) + freed
        invariant a in tree && tree[a] == block
        invariant |buf| == 4 * g.ptrs && Words(buf) == EntriesAfter(g.ptrs, t, a, i, keep)
        invariant !dirty ==> buf == old(disk)[block]
        invariant Untouched(old(words), words, tree, a)
        invariant block < |words| == |old(words)| && words[block] == old(words)[block]
      {
        PruneStep(g.ptrs, t, a, i, keep);
        KidsApart(a, i, stale);
        EntryNow(g.ptrs, t, a, i, keep);
        ghost var before, w := tree, words;
        KidFacts(g.ptrs, a, i);
        var child := Word(buf, i);
        var c, n :=
            TruncateChild(child, level - 1, base + Times(i, Span(g.ptrs, level - 1)), keep, Kid(a, i),
                stale + Kids(a, i));
        freed := freed + n;
        Small(Kid(a, i), stale + Kids(a, i) + {Kid(a, i)});
        if c != child {
          PutWordUpdates(buf, i, c);
          buf := PutWord(buf, i, c);
          dirty := true;
        }
        KidsGrow(a, i, stale);
        PruneSelf(g.ptrs, t, a, i + 1, keep);
        UntouchedStep(old(words), w, words, g.ptrs, before, a, i, keep);
      }
      EntriesDone(g.ptrs, t, a, keep);
      FinishEntries(a, stale, old(words), buf);
      if dirty {
        WriteBlock(block, buf);
      } else {
        assert words[block := Words(buf)] == words;
      }
      Reassemble(stale);
    }

    // ----- resolution

    lemma HoleBelow(a: Addr, c: Addr)
      requires MapInv({}) && Get(tree, a) == 0 && Under(c, a)
      ensures Get(tree, c) == 0
    {
      if c in tree { UnderPresent(g.ptrs, |words|, tree, c, a); }
    }

    /** Reading entry `i` of the indirect block at `a`, or finding a hole. */
    method ReadEntry(block: nat, index: nat, ghost a: Addr) returns (r: Result<nat>)
      requires MapInv({}) && block == Get(tree, a) && block != 0 && Level(a) >= 1 && index < g.ptrs
      ensures r == Ok(Get(tree, Kid(a, index)))
    {
      hide TreeOk, DiskView, Level;
      Here(a, {});
      Entry(a, index, {});
      r := ReadBlockPtr(block, index);
    }

    /** The disk block of logical block `lb` of the file: 0 for a hole. */
    method ResolveBlock(raw: Inode, lb: nat, ghost ino: nat) returns (r: Result<nat>)
      requires MapInv({}) && RawOk(tree, ino, raw)
      ensures r == if lb < Limit(g.ptrs) then Ok(Get(tree, Leaf(g.ptrs, ino, lb))) else Err(EFBIG)
    {
      hide TreeOk, DiskView, Leaf, Descend, Get, RawOk;
      Slots(tree, ino, raw);
      var ptrs := g.ptrs;
      if lb < NDIR {
        LeafDirect(ptrs, ino, lb);
        return Ok(raw.block[lb]);
      }
      var o := lb - NDIR;
      if o < ptrs {
        LeafSingle(ptrs, ino, lb);
        var ind := raw.block[IND];
        if ind == 0 {
          HoleBelow(Root(ino, IND), Leaf(ptrs, ino, lb));
          return Ok(0);
        }
        r := ReadEntry(ind, o, Root(ino, IND));
        return;
      }
      o := o - ptrs;
      if o < ptrs * ptrs {
        r := ResolveDouble(raw, o, lb, ino);
        return;
      }
      o := o - ptrs * ptrs;
      if o < ptrs * ptrs * ptrs {
        r := ResolveTriple(raw, o, ino);
        return;
      }
      r := Err(EFBIG);
    }

    method ResolveDouble(raw: Inode, o: nat, ghost lb: nat, ghost ino: nat) returns (r: Result<nat>)
      requires MapInv({}) && RawOk(tree, ino, raw)
      requires o < g.ptrs * g.ptrs && lb == NDIR + g.ptrs + o
      ensures r == Ok(Get(tree, Leaf(g.ptrs, ino, lb)))
    {
      hide TreeOk, DiskView, Leaf, Descend, Get;
      LeafDouble(g.ptrs, ino, lb);
      var dind := raw.block[DIND];
      if dind == 0 {
        HoleBelow(Root(ino, DIND), Leaf(g.ptrs, ino, lb));
        return Ok(0);
      }
      r := ReadEntry(dind, o / g.ptrs, Root(ino, DIND));
      var ind := r.value;
      if ind == 0 {
        HoleBelow(Kid(Root(ino, DIND), o / g.ptrs), Leaf(g.ptrs, ino, lb));
        return;
      }
      r := ReadEntry(ind, o % g.ptrs, Kid(Root(ino, DIND), o / g.ptrs));
    }

    method ResolveTriple(raw: Inode, o: nat, ghost ino: nat) returns (r: Result<nat>)
      requires MapInv({}) && RawOk(tree, ino, raw)
      requires o < Times(g.ptrs, Times(g.ptrs, g.ptrs))
      ensures r == Ok(Get(tree, Leaf(g.ptrs, ino, NDIR + g.ptrs + Times(g.ptrs, g.ptrs) + o)))
    {
      hide TreeOk, DiskView, Leaf, Descend, Get, Times;
      var pp := Times(g.ptrs, g.ptrs);
      ghost var lb := NDIR + g.ptrs + pp + o;
      TimesPositive(g.ptrs, g.ptrs);
      LeafTriple(g.ptrs, pp, ino, o);
      var top := Root(ino, TIND);
      var tind := raw.block[TIND];
      if tind == 0 {
        assert Under(top, top) && Under(Kid(top, o / pp), top);
        assert Under(Kid(Kid(top, o / pp), o % pp / g.ptrs), top);
        HoleBelow(top, Leaf(g.ptrs, ino, lb));
        return Ok(0);
      }
      r := ReadEntry(tind, o / pp, top);
      var dind := r.value;
      ghost var mid := Kid(top, o / pp);
      if dind == 0 {
        HoleBelow(mid, Leaf(g.ptrs, ino, lb));
        return;
      }
      var rest := o % pp;
      r := ReadEntry(dind, rest / g.ptrs, mid);
      var ind := r.value;
      if ind == 0 {
        HoleBelow(Kid(mid, rest / g.ptrs), Leaf(g.ptrs, ino, lb));
        return;
      }
      r := ReadEntry(ind, rest % g.ptrs, Kid(mid, rest / g.ptrs));
    }

    // ----- mapping

    /** Moves a held block into the tree. */
    ghost method Attach(a: Addr, v: nat)
      requires AllocInv() && a !in tree && v in held && v != 0
      modifies this`tree, this`held
      ensures AllocInv() && tree == old(tree)[a := v] && held == old(held) - {v}
      ensures |tree| == |old(tree)| + 1
    {
      hide Used, CountersOk, BitmapView;
      var t := tree[a := v];
      assert t.Keys == tree.Keys + {a};
      forall x: nat ensures x in t.Values <==> x == v || x in tree.Values {
        if x in tree.Values {
          var c :| c in tree && tree[c] == x;
          assert c in t && t[c] == x;
        }
        if x == v { assert a in t && t[a] == x; }
      }
      held := held - {v};
      tree := t;
    }

    /** A new block for the pointer at entry `index` of the indirect block at `a`: a zeroed indirect
        block, or the data block `v` itself. */
    method LinkEntry(block: nat, index: nat, v: nat, ghost a: Addr)
      requires AllocInv() && MapInv({})
      requires a in tree && block == tree[a] && Level(a) >= 1 && index < g.ptrs && Kid(a, index) !in tree
      requires v in held && 0 < v < |disk|
      requires Level(a) >= 2 ==> forall j :: 0 <= j < |words[v]| ==> words[v][j] == 0
      modifies this`disk, this`words, this`tree, this`held
      ensures AllocInv() && MapInv({})
      ensures tree == old(tree)[Kid(a, index) := v] && held == old(held) - {v} && |tree| == |old(tree)| + 1
      ensures |words| == |old(words)| && forall b :: 0 <= b < |words| && b != block ==> words[b] == old(words)[b]
    {
      hide AllocInv, TreeOk, DiskView, Level, Shape;
      NotInTree(v);
      Here(a, {});
      assert Low32(v) == v;
      LinkOk(g.ptrs, words, tree, a, index, v);
      var r := WriteBlockPtr(block, index, v);
      Attach(Kid(a, index), v);
    }

    /** A block just taken is in range, in no file, and was not held before. */
    lemma Fresh(v: nat)
      requires AllocInv() && MapInv({}) && v in held && v < g.first + g.groups * g.perGroup
      ensures v < |disk| == |words| && forall c :: c in tree ==> tree[c] != v
      ensures DiskView(disk, words, g.BlockSize())
    {
    }

    lemma NotHeld(a: Addr)
      requires AllocInv() && a in tree
      ensures tree[a] !in held
    {
    }

    lemma NotInTree(v: nat)
      requires AllocInv() && v in held
      ensures forall c :: c in tree ==> tree[c] != v
    {
    }

    /** `alloc_block` followed by the write of a zeroed block. */
    method AllocZeroed(preferred: nat) returns (r: Result<nat>)
      requires AllocInv() && MapInv({})
      modifies this`bitmap, this`groupFree, this`superFree, this`bits, this`held, this`disk, this`words
      ensures AllocInv() && MapInv({})
      ensures r.Ok? ==> 0 < r.value < |disk| && r.value !in old(held) && held == old(held) + {r.value}
      ensures r.Ok? ==> Took(g, old(Rec()), Rec(), r.value) && superFree == old(superFree) - 1
      ensures r.Ok? ==> FirstFree(g, old(bits), preferred, r.value)
      ensures r.Ok? ==> DataKept(old(words), words, tree, old(held)) && |words| == |old(words)|
      ensures r.Ok? ==> forall j :: 0 <= j < |words[r.value]| ==> words[r.value][j] == 0
      ensures r.Err? ==> r.error == ENOSPC && superFree == 0
      ensures r.Err? ==> Rec() == old(Rec()) && held == old(held) && words == old(words)
    {
      hide AllocInv, TreeOk, DiskView, Took, FirstFree;
      r := AllocBlock(preferred);
      if r.Ok? {
        Fresh(r.value);
        ZeroOk(g.ptrs, words, tree, r.value, held - {r.value});
        WriteBlock(r.value, Zeros(g.BlockSize()));
      }
    }

    /** Points leaf `offset` below the indirect block `block` at `data`, creating the indirect blocks
        in between.  Gives the new count of sectors. */
    method MapIndirect(block: nat, level: nat, offset: nat, data: nat, preferred: nat, iBlocks: nat, ghost a: Addr)
      returns (r: Result<()>, iBlocks': nat, ghost made: nat)
      requires AllocInv() && MapInv({})
      requires a in tree && block == tree[a] && Level(a) == level >= 1 && offset < Span(g.ptrs, level)
      requires Descend(g.ptrs, a, level, offset) !in tree && data in held && 0 < data < |disk|
      modifies this`bitmap, this`groupFree, this`superFree, this`bits, this`held, this`disk, this`words, this`tree
      ensures AllocInv() && MapInv({})
      ensures Grown(old(tree), tree, Descend(g.ptrs, a, level, offset), a)
      ensures r.Ok? ==> held == old(held) - {data} && Get(tree, Descend(g.ptrs, a, level, offset)) == data
      ensures r.Err? ==> r.error == ENOSPC && held == old(held) && Descend(g.ptrs, a, level, offset) !in tree
      ensures |tree| == |old(tree)| + made + (if r.Ok? then 1 else 0)
      ensures iBlocks' == iBlocks + Times(made, g.Sectors())
      // it fails exactly when the free blocks do not cover the gap
      ensures superFree == old(superFree) - made
      ensures r.Ok? ==> made + 1 == Gap(old(tree), Descend(g.ptrs, a, level, offset))
      ensures r.Err? ==> superFree == 0 && made + 1 < Gap(old(tree), Descend(g.ptrs, a, level, offset))
      ensures DataKept(old(words), words, old(tree), old(held)) && |words| == |old(words)|
      decreases level
    {
      hide AllocInv, TreeOk, DiskView, Shape, Proper, Level, Span, Times, Descend, Grown, DataKept, Under, CanLink, Gap;
      ghost var t, w, h := tree, words, held;
      ghost var leaf := Descend(g.ptrs, a, level, offset);
      Here(a, {});
      NotHeld(a);
      r, iBlocks', made := Ok(()), iBlocks, 0;
      if level == 1 {
        DescendLast(g.ptrs, a, offset);
        LinkEntry(block, offset, data, a);
        GrownLink(t, a, offset, data, leaf);
        GapHole(t, leaf);
        LinkKeeps(a, w, h, t);
        TimesZero(g.Sectors());
        return;
      }
      DescendStep(g.ptrs, a, level, offset);
      var subtree := Span(g.ptrs, level - 1);
      var index := offset / subtree;
      var child;
      ShapeNow();
      child, iBlocks', made := EnsureChild(block, index, preferred, iBlocks, a);
      GrownChild(t, tree, a, index, leaf);
      GapStep(g.ptrs, |words|, t, tree, Kid(a, index), leaf, made);
      if child.Err? {
        return Err(child.error), iBlocks', made;
      }
      ghost var t1, w1, h1 := tree, words, held;
      Here(Kid(a, index), {});
      ghost var mid, more := iBlocks', 0;
      r, iBlocks', more :=
          MapIndirect(child.value, level - 1, offset % subtree, data, preferred, iBlocks', Kid(a, index));
      GrownTrans(t, t1, tree, a, index, leaf);
      KeptTrans(w, w1, words, t, t1, h, h1, leaf, a);
      made := Total(iBlocks, mid, iBlocks', made, more, g.Sectors());
    }

    /** The child pointer at entry `index`, with a fresh zeroed indirect block put there if it was a hole. */
    method EnsureChild(block: nat, index: nat, preferred: nat, iBlocks: nat, ghost a: Addr)
      returns (r: Result<nat>, iBlocks': nat, ghost made: nat)
      requires AllocInv() && MapInv({})
      requires a in tree && block == tree[a] && Level(a) >= 2 && index < g.ptrs
      modifies this`bitmap, this`groupFree, this`superFree, this`bits, this`held, this`disk, this`words, this`tree
      ensures AllocInv() && MapInv({}) && held == old(held)
      ensures r.Ok? ==> Kid(a, index) in tree && tree[Kid(a, index)] == r.value
      ensures tree == old(tree) || (Kid(a, index) !in old(tree) && r.Ok? && tree == old(tree)[Kid(a, index) := r.value])
      ensures |tree| == |old(tree)| + made && iBlocks' == iBlocks + Times(made, g.Sectors())
      ensures superFree == old(superFree) - made && made == (if tree == old(tree) then 0 else 1)
      ensures r.Err? ==> r.error == ENOSPC && superFree == 0 && tree == old(tree) && Kid(a, index) !in tree
      ensures DataKept(old(words), words, old(tree), old(held)) && |words| == |old(words)|
    {
      hide AllocInv, TreeOk, DiskView, Shape, Proper, Level, Times, DataKept, Took;
      ghost var t, w, h := tree, words, held;
      Here(a, {});
      NotHeld(a);
      Entry(a, index, {});
      r := ReadBlockPtr(block, index);
      iBlocks', made := iBlocks, 0;
      TimesZero(g.Sectors());
      KeptSame(words, tree, held);
      var child := r.value;
      if child == 0 {
        AbsentIfZero(Kid(a, index));
        r := AllocZeroed(preferred);
        if r.Err? {
          return;
        }
        child := r.value;
        ghost var w1, h1 := words, held;
        NotHeld(a);
        LinkEntry(block, index, child, a);
        LinkKeeps(a, w1, h1, t);
        iBlocks', made := iBlocks' + g.Sectors(), 1;
        KeptMore(w, w1, words, t, h, h1);
        TimesOne(g.Sectors());
      } else {
        PresentIfNonzero(Kid(a, index));
      }
    }

    lemma AbsentIfZero(c: Addr)
      requires MapInv({}) && Get(tree, c) == 0
      ensures c !in tree
    {
    }

    lemma PresentIfNonzero(c: Addr)
      requires Get(tree, c) != 0
      ensures c in tree && tree[c] == Get(tree, c)
    {
    }

    /** A step that rewrote only the indirect block at `a` kept all data. */
    lemma LinkKeeps(a: Addr, w: seq<seq<nat>>, h: set<nat>, t: Tree)
      requires AllocInv() && MapInv({}) && a in tree && Level(a) >= 1 && |w| == |words|
      requires forall c :: c in t ==> c in tree && tree[c] == t[c]
      requires a in t && t[a] !in h
      requires forall b :: 0 <= b < |words| && b != tree[a] ==> words[b] == w[b]
      ensures DataKept(w, words, t, h)
    {
    }

    /** Points a slot of the inode at a fresh block; an indirect block comes zeroed. */
    method LinkRoot(raw: Inode, ino: nat, slot: nat, v: nat) returns (raw': Inode)
      requires AllocInv() && MapInv({}) && RawOk(tree, ino, raw)
      requires slot < NSLOTS && raw.block[slot] == 0 && v in held && 0 < v < |disk|
      requires SlotLevel(slot) >= 1 ==> forall j :: 0 <= j < |words[v]| ==> words[v][j] == 0
      modifies this`tree, this`held
      ensures AllocInv() && MapInv({}) && RawOk(tree, ino, raw')
      ensures Root(ino, slot) !in old(tree) && tree == old(tree)[Root(ino, slot) := v]
      ensures held == old(held) - {v} && |tree| == |old(tree)| + 1
      ensures raw' == raw.(block := raw'.block) && raw'.block[slot] == v
    {
      hide AllocInv, TreeOk, DiskView, RawOk;
      ghost var t := tree;
      Slots(tree, ino, raw);
      AbsentIfZero(Root(ino, slot));
      NotInTree(v);
      Sizes();
      RootOk(g.ptrs, words, tree, Root(ino, slot), v);
      raw' := raw.(block := raw.block[slot := Low32(v)]);
      Attach(Root(ino, slot), v);
      RawLinked(t, ino, raw, slot, v);
    }

    lemma Sizes()
      requires MapInv({})
      ensures |disk| == |words| <= WORD && DiskView(disk, words, g.BlockSize())
    {
    }

    /** The inode slot for an indirect tree, filled with a fresh zeroed indirect block if it was empty. */
    method EnsureRoot(raw: Inode, ino: nat, slot: nat, preferred: nat)
        returns (r: Result<()>, raw': Inode, ghost made: nat)
      requires AllocInv() && MapInv({}) && RawOk(tree, ino, raw) && IND <= slot < NSLOTS
      modifies this`bitmap, this`groupFree, this`superFree, this`bits, this`held, this`disk, this`words, this`tree
      ensures AllocInv() && MapInv({}) && RawOk(tree, ino, raw') && held == old(held)
      ensures tree == old(tree) || (Root(ino, slot) !in old(tree) && Root(ino, slot) in tree
                                    && tree == old(tree)[Root(ino, slot) := tree[Root(ino, slot)]])
      ensures |raw'.block| == NSLOTS
      ensures r.Ok? ==> Root(ino, slot) in tree && tree[Root(ino, slot)] == raw'.block[slot]
      ensures r.Err? ==> r.error == ENOSPC && superFree == 0 && tree == old(tree) && Root(ino, slot) !in tree
      ensures superFree == old(superFree) - made && made == (if tree == old(tree) then 0 else 1)
      ensures raw' == raw.(block := raw'.block, blocks := raw'.blocks)
      ensures raw'.blocks == raw.blocks + Times(made, g.Sectors()) && |tree| == |old(tree)| + made
      ensures DataKept(old(words), words, old(tree), old(held)) && |words| == |old(words)|
    {
      hide AllocInv, TreeOk, DiskView, RawOk, Times, DataKept, Took;
      r, raw', made := Ok(()), raw, 0;
      Slots(tree, ino, raw);
      TimesZero(g.Sectors());
      KeptSame(words, tree, held);
      if raw.block[slot] == 0 {
        AbsentIfZero(Root(ino, slot));
        var ind := AllocZeroed(preferred);
        if ind.Err? {
          return Err(ind.error), raw, 0;
        }
        raw' := LinkRoot(raw, ino, slot, ind.value);
        raw' := raw'.(blocks := raw'.blocks + g.Sectors());
        RawBlocks(tree, ino, raw', raw'.blocks - g.Sectors());
        made := 1;
        TimesOne(g.Sectors());
      }
      Slots(tree, ino, raw');
    }

    /** Points logical block `lb` of the file at the block `data`. */
    method PlaceBlock(raw: Inode, ino: nat, lb: nat, data: nat, preferred: nat)
      returns (r: Result<()>, raw': Inode, ghost made: nat)
      requires AllocInv() && MapInv({}) && RawOk(tree, ino, raw)
      requires lb < Limit(g.ptrs) ==> Leaf(g.ptrs, ino, lb) !in tree
      requires data in held && 0 < data < |disk|
      modifies this`bitmap, this`groupFree, this`superFree, this`bits, this`held, this`disk, this`words, this`tree
      ensures AllocInv() && MapInv({}) && RawOk(tree, ino, raw')
      ensures Placed(old(tree), tree, ino, Leaf(g.ptrs, ino, lb))
      ensures r.Ok? ==> lb < Limit(g.ptrs) && Get(tree, Leaf(g.ptrs, ino, lb)) == data && held == old(held) - {data}
      ensures r.Err? ==> held == old(held) && (lb < Limit(g.ptrs) ==> Leaf(g.ptrs, ino, lb) !in tree)
      ensures r.Err? ==> r.error == if lb < Limit(g.ptrs) then ENOSPC else EFBIG
      ensures lb >= Limit(g.ptrs) ==> raw' == raw && tree == old(tree) && Rec() == old(Rec()) && words == old(words)
      ensures raw' == raw.(block := raw'.block, blocks := raw'.blocks)
      ensures raw'.blocks == raw.blocks + Times(made, g.Sectors())
      ensures |tree| == |old(tree)| + made + (if r.Ok? then 1 else 0) && superFree == old(superFree) - made
      ensures r.Ok? ==> made + 1 == Gap(old(tree), Leaf(g.ptrs, ino, lb))
      ensures r.Err? && lb < Limit(g.ptrs) ==> superFree == 0 && made + 1 < Gap(old(tree), Leaf(g.ptrs, ino, lb))
      ensures DataKept(old(words), words, old(tree), old(held)) && |words| == |old(words)|
    {
      hide AllocInv, TreeOk, DiskView, RawOk, Times, DataKept, Took, Leaf, Placed, Limit, Span, Descend, Gap;
      LimitPast(g.ptrs);
      r, raw', made := Ok(()), raw, 0;
      TimesZero(g.Sectors());
      KeptSame(words, tree, held);
      PlacedSame(tree, ino, Leaf(g.ptrs, ino, lb));
      var ptrs := g.ptrs;
      if lb < NDIR {
        LeafDirect(ptrs, ino, lb);
        PlacedRoot(tree, ino, lb, data);
        DirectHole(tree, ino, raw, lb);
        GapHole(tree, Root(ino, lb));
        raw' := LinkRoot(raw, ino, lb, data);
        return;
      }
      var slot, offset := ChooseSlot(lb, ino);
      if slot < NSLOTS {
        r, raw', made := PlaceIndirect(raw, ino, slot, offset, data, preferred, Leaf(ptrs, ino, lb));
      } else {
        r := Err(EFBIG);
      }
    }

    /** The indirect slot whose tree maps `lb` and the offset in that tree; no slot past the limit. */
    method ChooseSlot(lb: nat, ghost ino: nat) returns (slot: nat, offset: nat)
      requires g.ptrs > 0 && lb >= NDIR
      ensures lb < Limit(g.ptrs) <==> slot < NSLOTS
      ensures slot < NSLOTS ==> IND <= slot && offset < Span(g.ptrs, SlotLevel(slot))
      ensures slot < NSLOTS ==> Leaf(g.ptrs, ino, lb) == Descend(g.ptrs, Root(ino, slot), SlotLevel(slot), offset)
    {
      hide Leaf, Descend, Span, Limit, Times;
      LimitIs(g.ptrs);
      var lb' := lb - NDIR;
      var single := g.ptrs;
      var double := Times(g.ptrs, g.ptrs);
      var triple := Times(g.ptrs, double);
      if lb' < single {
        slot, offset := IND, lb';
        LeafInSlot(g.ptrs, ino, lb, slot, offset);
      } else if lb' < single + double {
        slot, offset := DIND, lb' - single;
        LeafInSlot(g.ptrs, ino, lb, slot, offset);
      } else if lb' < single + double + triple {
        slot, offset := TIND, lb' - single - double;
        LeafInSlot(g.ptrs, ino, lb, slot, offset);
      } else {
        slot, offset := NSLOTS, 0;
      }
    }

    method PlaceIndirect(raw: Inode, ino: nat, slot: nat, offset: nat, data: nat, preferred: nat, ghost leaf: Addr)
      returns (r: Result<()>, raw': Inode, ghost made: nat)
      requires AllocInv() && MapInv({}) && RawOk(tree, ino, raw) && IND <= slot < NSLOTS
      requires offset < Span(g.ptrs, SlotLevel(slot))
                && leaf == Descend(g.ptrs, Root(ino, slot), SlotLevel(slot), offset)
      requires leaf !in tree && data in held && 0 < data < |disk|
      modifies this`bitmap, this`groupFree, this`superFree, this`bits, this`held, this`disk, this`words, this`tree
      ensures AllocInv() && MapInv({}) && RawOk(tree, ino, raw')
      ensures Placed(old(tree), tree, ino, leaf)
      ensures r.Ok? ==> Get(tree, leaf) == data && held == old(held) - {data}
      ensures r.Err? ==> r.error == ENOSPC && held == old(held) && leaf !in tree
      ensures raw' == raw.(block := raw'.block, blocks := raw'.blocks)
      ensures raw'.blocks == raw.blocks + Times(made, g.Sectors())
      ensures |tree| == |old(tree)| + made + (if r.Ok? then 1 else 0) && superFree == old(superFree) - made
      ensures r.Ok? ==> made + 1 == Gap(old(tree), leaf)
      ensures r.Err? ==> superFree == 0 && made + 1 < Gap(old(tree), leaf)
      ensures DataKept(old(words), words, old(tree), old(held)) && |words| == |old(words)|
    {
      hide AllocInv, TreeOk, DiskView, Shape, RawOk, Times, DataKept, Placed, Grown, Span, Descend, Under, Gap;
      ghost var t, w, h, a := tree, words, held, Root(ino, slot);
      LeafNotRoot(g.ptrs, ino, slot, offset);
      Sizes();
      ShapeNow();
      r, raw', made := EnsureRoot(raw, ino, slot, preferred);
      PlacedTop(t, tree, ino, slot, leaf);
      GapStep(g.ptrs, |words|, t, tree, a, leaf, made);
      if r.Err? {
        return;
      }
      ghost var t1, w1 := tree, words;
      Here(a, {});
      var raw1 := raw';
      var total; ghost var more;
      r, total, more := MapIndirect(raw1.block[slot], SlotLevel(slot), offset, data, preferred, raw1.blocks, a);
      raw' := raw1.(blocks := total);
      RawGrown(t1, tree, leaf, a, ino, raw1);
      RawBlocks(tree, ino, raw', raw1.blocks);
      PlacedTrans(t, t1, tree, a, leaf);
      KeptPlaced(w, w1, words, t, t1, h, ino, leaf);
      made := Total(raw.blocks, raw1.blocks, total, made, more, g.Sectors());
    }

    /** Allocates a zeroed block, maps it at `lb` and writes the inode back; a block that could not be
        mapped is returned to the bitmap. */
    method AllocBlockForInode(ino: nat, raw: Inode, lb: nat) returns (r: Result<nat>, raw': Inode, ghost made: nat)
      requires AllocInv() && MapInv({}) && RawOk(tree, ino, raw) && ino >= 1
      requires lb < Limit(g.ptrs) ==> Leaf(g.ptrs, ino, lb) !in tree
      modifies this
      ensures AllocInv() && MapInv({}) && RawOk(tree, ino, raw') && held == old(held)
      // the new block resolves at `lb`, and every other logical block of every file as before
      ensures Placed(old(tree), tree, ino, Leaf(g.ptrs, ino, lb))
      ensures r.Ok? ==> lb < Limit(g.ptrs) && Get(tree, Leaf(g.ptrs, ino, lb)) == r.value != 0
      // it is the first free block from the group of the inode on
      ensures r.Ok? ==> FirstFree(g, old(bits), HomeGroup(g, ino), r.value)
      // its bytes are zero, whoever had the block before
      ensures r.Ok? ==> r.value < |disk| && disk[r.value] == Zeros(g.BlockSize())
      // it succeeds exactly when the free blocks cover the gap
      ensures r.Ok? <==> lb < Limit(g.ptrs) && Gap(old(tree), Leaf(g.ptrs, ino, lb)) <= old(superFree)
      ensures r.Ok? ==> made == Gap(old(tree), Leaf(g.ptrs, ino, lb)) && superFree == old(superFree) - made
      ensures r.Err? && lb < Limit(g.ptrs) ==> r.error == ENOSPC && Leaf(g.ptrs, ino, lb) !in tree
      ensures r.Err? && lb < Limit(g.ptrs) ==> made == SatSub(old(superFree), 1) && superFree == old(superFree) - made
      // past the limit everything is exactly restored
      ensures lb >= Limit(g.ptrs) ==> r.Err? && (r.error == EFBIG || (r.error == ENOSPC && superFree == 0))
      ensures lb >= Limit(g.ptrs) ==> raw' == raw && tree == old(tree) && Rec() == old(Rec()) && bitmap == old(bitmap)
      // sectors follow the blocks of the file; the inode is written back on success only
      ensures raw' == raw.(block := raw'.block, blocks := raw'.blocks)
      ensures |tree| == |old(tree)| + made && raw'.blocks == raw.blocks + Times(made, g.Sectors())
      ensures table == if r.Ok? then old(table)[ino := raw'] else old(table)
      ensures DataKept(old(words), words, old(tree), old(held)) && |words| == |old(words)|
    {
      hide AllocInv, TreeOk, DiskView, RawOk, Times, DataKept, Took, Leaf, Placed, Limit, Gap, FirstFree, Get, Zeros;
      LimitPast(g.ptrs);
      if lb < Limit(g.ptrs) { GapHole(tree, Leaf(g.ptrs, ino, lb)); }
      ghost var t, w, h, rec, bm := tree, words, held, Rec(), bitmap;
      View();
      var preferred := (ino - 1) / g.inodesPerGroup;
      raw', made := raw, 0;
      TimesZero(g.Sectors());
      KeptSame(words, tree, held);
      PlacedSame(tree, ino, Leaf(g.ptrs, ino, lb));
      r := AllocZeroed(preferred);
      if r.Err? {
        View();
        Restored(bm, rec.bits, bitmap, bits);
        return;
      }
      var newBlock := r.value;
      ghost var w1, h1 := words, held;
      Sizes();
      var placed;
      placed, raw', made := PlaceBlock(raw, ino, lb, newBlock, preferred);
      KeptMore(w, w1, words, t, h, h1);
      if placed.Err? {
        ghost var before := Rec();
        FreeBlock(newBlock);
        if lb >= Limit(g.ptrs) {
          TookUnique(g, rec, Rec(), before, newBlock);
          View();
          Restored(bm, rec.bits, bitmap, bits);
        }
        return Err(placed.error), raw', made;
      }
      made := Total(raw.blocks, raw'.blocks, raw'.blocks + g.Sectors(), made, One(g.Sectors()), g.Sectors());
      raw' := raw'.(blocks := raw'.blocks + g.Sectors());
      RawBlocks(tree, ino, raw', raw'.blocks - g.Sectors());
      StillZero(w1, t, h1, newBlock);
      table := table[ino := raw'];
    }

    /** A block held meanwhile has kept its zeros. */
    lemma StillZero(w: seq<seq<nat>>, t: Tree, h: set<nat>, v: nat)
      requires MapInv({}) && DataKept(w, words, t, h) && v in h && v < |w|
      requires forall j :: 0 <= j < |w[v]| ==> w[v][j] == 0
      ensures v < |disk| && disk[v] == Zeros(g.BlockSize())
    {
      ZeroBytes(g.ptrs, disk, words, v);
    }

    lemma View()
      requires AllocInv()
      ensures BitmapView(bitmap, bits) && g.Valid()
    {
    }

    ghost function One(s: nat): (n: nat)
      ensures n == 1 && Times(n, s) == s
    {
      1
    }

    // ----- truncating and freeing a whole file

    /** One direct slot: its block is freed when it lies at or past `keep`. */
    method TruncateDirect(raw: Inode, ino: nat, i: nat, keep: nat) returns (raw': Inode, freed: nat)
      requires AllocInv() && MapInv({}) && RawOk(tree, ino, raw) && i < NDIR
      modifies this`bitmap, this`groupFree, this`superFree, this`bits, this`held, this`tree
      ensures AllocInv() && MapInv({}) && RawOk(tree, ino, raw') && held == old(held)
      ensures tree == Prune(g.ptrs, old(tree), Root(ino, i), keep) && raw' == raw.(block := raw'.block)
      ensures freed == |old(tree)| - |tree| && superFree == old(superFree) + freed
    {
      hide AllocInv, TreeOk, DiskView, RawOk, Prune, Took, Shape;
      ghost var a, t := Root(ino, i), tree;
      Slots(tree, ino, raw);
      Sizes();
      DirectCut(g.ptrs, words, tree, a, keep);
      RawPruned(g.ptrs, tree, ino, raw, i, keep);
      raw', freed := raw, 0;
      if i >= keep && raw.block[i] != 0 {
        PresentIfNonzero(a);
        Here(a, {});
        Detach(a);
        FreeBlock(raw.block[i]);
        raw' := raw.(block := raw.block[i := 0]);
        freed := 1;
      } else if i >= keep {
        AbsentIfZero(a);
        Hole(a, keep, {});
      }
    }

    /** One indirect slot. */
    method TruncateSlot(raw: Inode, ino: nat, slot: nat, base: nat, keep: nat) returns (raw': Inode, freed: nat)
      requires AllocInv() && MapInv({}) && RawOk(tree, ino, raw) && IND <= slot < NSLOTS
      requires base == SlotBase(g.ptrs, slot)
      modifies this`bitmap, this`groupFree, this`superFree, this`bits, this`held, this`tree, this`disk, this`words
      ensures AllocInv() && MapInv({}) && RawOk(tree, ino, raw') && held == old(held)
      ensures tree == Prune(g.ptrs, old(tree), Root(ino, slot), keep) && raw' == raw.(block := raw'.block)
      ensures freed == |old(tree)| - |tree| && superFree == old(superFree) + freed
      ensures Untouched(old(words), words, tree, Root(ino, slot)) && |words| == |old(words)|
    {
      hide AllocInv, TreeOk, DiskView, RawOk, Prune, Untouched;
      ghost var t := tree;
      Slots(tree, ino, raw);
      var slotPtr, n := TruncateIndirect(raw.block[slot], SlotLevel(slot), base, keep, Root(ino, slot), {});
      RawPruned(g.ptrs, t, ino, raw, slot, keep);
      RootNotStale(Root(ino, slot));
      raw', freed := raw.(block := raw.block[slot := slotPtr]), n;
    }

    lemma RootNotStale(a: Addr)
      requires MapInv({} + {a}) && a.Root?
      ensures MapInv({})
    {
    }

    /** Frees every block of the file at or past `keep`, indirect blocks included. */
    method TruncateBlocks(ino: nat, raw: Inode, keep: nat) returns (raw': Inode, freed: nat)
      requires AllocInv() && MapInv({}) && RawOk(tree, ino, raw)
      modifies this`bitmap, this`groupFree, this`superFree, this`bits, this`held, this`tree, this`disk, this`words
      ensures AllocInv() && MapInv({}) && RawOk(tree, ino, raw') && held == old(held)
      // exactly the addresses of this file at or past `keep` are gone
      ensures tree == Cutoff(g.ptrs, old(tree), ino, keep)
      // each dropped block was freed once, and the sector count falls by as many
      ensures freed == |old(tree)| - |tree| && superFree == old(superFree) + freed
      ensures raw' == raw.(block := raw'.block, blocks := SatSub(raw.blocks, Times(freed, g.Sectors())))
      // the data that stays is untouched
      ensures FileKept(old(words), words, tree, ino)
    {
      hide AllocInv, TreeOk, DiskView, Shape, RawOk, Prune, CutSlots, Cutoff, FileKept, Untouched, Times;
      ghost var t, w := tree, words;
      ShapeNow();
      CutStart(g.ptrs, t, ino, keep);
      FileKeptSame(words, tree, ino);
      raw', freed := raw, 0;
      for i := 0 to NDIR
        invariant AllocInv() && MapInv({}) && RawOk(tree, ino, raw') && held == old(held)
        invariant tree == CutSlots(g.ptrs, t, ino, i, keep) && words == w
        invariant freed == |t| - |tree| && superFree == old(superFree) + freed
        invariant raw' == raw.(block := raw'.block)
      {
        CutStep(g.ptrs, t, ino, i, keep);
        var n;
        raw', n := TruncateDirect(raw', ino, i, keep);
        freed := freed + n;
      }
      FileKeptSame(words, tree, ino);
      var indBase := NDIR;
      var dindBase := indBase + g.ptrs;
      var tindBase := dindBase + g.ptrs * g.ptrs;
      var n;
      raw', n := CutSlot(raw', ino, IND, indBase, keep, t, w);
      freed := freed + n;
      raw', n := CutSlot(raw', ino, DIND, dindBase, keep, t, w);
      freed := freed + n;
      raw', n := CutSlot(raw', ino, TIND, tindBase, keep, t, w);
      freed := freed + n;
      CutEnd(g.ptrs, |w|, t, ino, keep);
      RawBlocks(tree, ino, raw'.(blocks := SatSub(raw.blocks, Times(freed, g.Sectors()))), raw.blocks);
      raw' := raw'.(blocks := SatSub(raw.blocks, Times(freed, g.Sectors())));
    }

    /** The cut of one indirect slot as one step of the cut of the file that began in tree `t`. */
    method CutSlot(raw: Inode, ino: nat, slot: nat, base: nat, keep: nat, ghost t: Tree, ghost w: seq<seq<nat>>)
      returns (raw': Inode, freed: nat)
      requires AllocInv() && MapInv({}) && RawOk(tree, ino, raw) && IND <= slot < NSLOTS
      requires base == SlotBase(g.ptrs, slot)
      requires tree == CutSlots(g.ptrs, t, ino, slot, keep) && FileKept(w, words, tree, ino)
      modifies this`bitmap, this`groupFree, this`superFree, this`bits, this`held, this`tree, this`disk, this`words
      ensures AllocInv() && MapInv({}) && RawOk(tree, ino, raw') && held == old(held)
      ensures tree == CutSlots(g.ptrs, t, ino, slot + 1, keep) && FileKept(w, words, tree, ino)
      ensures raw' == raw.(block := raw'.block)
      ensures freed == |old(tree)| - |tree| && superFree == old(superFree) + freed
    {
      hide AllocInv, MapInv, RawOk, Prune, CutSlots, FileKept, Untouched;
      CutStep(g.ptrs, t, ino, slot, keep);
      raw', freed := TruncateSlot(raw, ino, slot, base, keep);
      FileKeptStep(w, old(words), words, g.ptrs, old(tree), ino, slot, keep);
    }

    lemma ShapeNow()
      requires MapInv({})
      ensures Shape(g.ptrs, |words|, tree)
    {
    }

    /** Frees every block of a file and clears its inode.  A fast symlink owns no blocks. */
    method FreeInodeData(ino: nat, raw: Inode) returns (raw': Inode, ghost freed: nat)
      requires AllocInv() && MapInv({})
      requires if raw.FastSymlink() then FileAddrs(tree, ino) == {} else RawOk(tree, ino, raw)
      modifies this`bitmap, this`groupFree, this`superFree, this`bits, this`held, this`tree, this`table
      ensures AllocInv() && MapInv({}) && RawOk(tree, ino, raw') && held == old(held)
      ensures tree == Cutoff(g.ptrs, old(tree), ino, 0) && FileAddrs(tree, ino) == {}
      ensures freed == |old(tree)| - |tree| && superFree == old(superFree) + freed
      ensures raw' == Inode(raw.kind, 0, 0, NoPointers()) && table == old(table)[ino := raw']
    {
      hide AllocInv, TreeOk, DiskView, Shape, RawOk, Prune, CutSlots, Cutoff, FileAddrs;
      ghost var t := tree;
      ShapeNow();
      CutStart(g.ptrs, t, ino, 0);
      freed := 0;
      if !raw.FastSymlink() {
        Slots(tree, ino, raw);
        for i := 0 to NDIR
          invariant AllocInv() && MapInv({}) && held == old(held)
          invariant tree == CutSlots(g.ptrs, t, ino, i, 0) && |raw.block| == NSLOTS
          invariant forall s :: i <= s < NSLOTS ==> raw.block[s] == Get(tree, Root(ino, s))
          invariant table == old(table)
          invariant freed == |t| - |tree| && superFree == old(superFree) + freed
        {
          var n := FreeSlot(raw, ino, i, t);
          freed := freed + n;
        }
        var n := FreeSlot(raw, ino, IND, t);
        freed := freed + n;
        n := FreeSlot(raw, ino, DIND, t);
        freed := freed + n;
        n := FreeSlot(raw, ino, TIND, t);
        freed := freed + n;
        CutEnd(g.ptrs, |words|, t, ino, 0);
      } else {
        CutNothing(g.ptrs, t, ino);
      }
      CutAll(g.ptrs, t, ino);
      raw' := Inode(raw.kind, 0, 0, NoPointers());
      RawEmpty(tree, ino, raw');
      table := table[ino := raw'];
    }

    method FreeSlot(raw: Inode, ino: nat, slot: nat, ghost t: Tree) returns (freed: nat)
      requires AllocInv() && MapInv({}) && slot < NSLOTS == |raw.block|
      requires tree == CutSlots(g.ptrs, t, ino, slot, 0)
      requires forall s :: slot <= s < NSLOTS ==> raw.block[s] == Get(tree, Root(ino, s))
      modifies this`bitmap, this`groupFree, this`superFree, this`bits, this`held, this`tree
      ensures AllocInv() && MapInv({}) && held == old(held)
      ensures tree == CutSlots(g.ptrs, t, ino, slot + 1, 0)
      ensures forall s :: slot < s < NSLOTS ==> raw.block[s] == Get(tree, Root(ino, s))
      ensures freed == |old(tree)| - |tree| && superFree == old(superFree) + freed
    {
      hide AllocInv, MapInv, CutSlots;
      CutStep(g.ptrs, t, ino, slot, 0);
      freed := FreeSubtree(raw.block[slot], SlotLevel(slot), Root(ino, slot), {});
      RootNotStale(Root(ino, slot));
    }

    // ----- runs

    ghost predicate Valid()
      reads this
    {
      AllocInv() && MapInv({}) && FilesOk(g, tree, table)
    }

    /** What the write path does for one logical block: resolve it, and allocate a hole.  The inode is
        read from the table, and a failed allocation drops the changed copy. */
    method MapBlock(ino: nat, lb: nat) returns (r: Result<nat>)
      requires Valid() && ino in table && !table[ino].FastSymlink()
      modifies this
      ensures AllocInv() && MapInv({}) && held == old(held)
      ensures r.Ok? ==> Valid() && r.value != 0 && Get(tree, Leaf(g.ptrs, ino, lb)) == r.value
      ensures r.Ok? <==> lb < Limit(g.ptrs) && Gap(old(tree), Leaf(g.ptrs, ino, lb)) <= old(superFree)
      ensures r.Err? ==> r.error == if lb < Limit(g.ptrs) then ENOSPC else EFBIG
      ensures r.Err? && lb < Limit(g.ptrs) ==> superFree == if old(superFree) == 0 then 0 else 1
      // every other logical block of every file resolves as before
      ensures Placed(old(tree), tree, ino, Leaf(g.ptrs, ino, lb))
      ensures DataKept(old(words), words, old(tree), old(held))
      // and all of them read as before: the new block reads as the hole did
      ensures SameContent(g.ptrs, old(disk), old(tree), disk, tree)
      // running out of space half way is the one case that leaves blocks no inode accounts for
      ensures Valid() <==>
                lb >= Limit(g.ptrs) || Gap(old(tree), Leaf(g.ptrs, ino, lb)) <= old(superFree) || old(superFree) <= 1
      ensures table.Keys == old(table.Keys)
    {
      hide AllocInv, MapInv, FilesOk, RawOk, Times, DataKept, Leaf, Placed, Limit, Gap;
      var raw := table[ino];
      MapInvPtrs();
      FileAt(g, tree, table, ino);
      var found := ResolveBlock(raw, lb, ino);
      KeptSame(words, tree, held);
      PlacedSame(tree, ino, Leaf(g.ptrs, ino, lb));
      ContentStays(g.ptrs, disk, tree);
      OnDisk();
      if found.Ok? && found.value != 0 {
        GapMapped(tree, Leaf(g.ptrs, ino, lb));
        return found;
      }
      if found.Err? {
        return found;
      }
      AbsentIfZero(Leaf(g.ptrs, ino, lb));
      ghost var made;
      var raw';
      r, raw', made := AllocBlockForInode(ino, raw, lb);
      OnDisk();
      PlacedContent(g.ptrs, old(disk), old(words), old(tree), disk, words, tree, old(held), ino, lb);
      if r.Ok? {
        FilesPlaced(g, old(tree), tree, old(table), ino, raw', Leaf(g.ptrs, ino, lb), made);
      } else {
        FilesShort(g, old(tree), tree, old(table), ino, Leaf(g.ptrs, ino, lb), made);
      }
    }

    lemma OnDisk()
      requires MapInv({}) && AllocInv()
      ensures DiskView(disk, words, 4 * g.ptrs) && TreeOk(g.ptrs, words, tree, {}) && |words| > 0 && |disk| == |words|
    {
    }

    lemma MapInvPtrs()
      requires AllocInv() && MapInv({})
      ensures g.Valid() && g.ptrs > 0
    {
    }

    /** `RegularOps::truncate` on a file: cut the blocks if it shrinks, set the size, write the inode. */
    method Truncate(ino: nat, length: nat)
      requires Valid() && ino in table && table[ino].kind == Regular
      modifies this
      ensures Valid() && held == old(held)
      ensures tree == if length < old(table)[ino].size
                      then Cutoff(g.ptrs, old(tree), ino, DivCeil(length, g.BlockSize())) else old(tree)
      ensures table.Keys == old(table.Keys) && table[ino].size == length
      ensures superFree == old(superFree) + |old(tree)| - |tree|
      ensures FileKept(old(words), words, tree, ino)
      // the file reads as before up to its new end, and every other file as before
      ensures CutContent(g.ptrs, old(disk), old(tree), disk, tree, ino,
                         if length < old(table)[ino].size then DivCeil(length, g.BlockSize()) else Limit(g.ptrs))
    {
      hide AllocInv, MapInv, FilesOk, RawOk, Times, Cutoff, FileKept, DivCeil, Limit, Leaf, CutContent;
      hide TreeOk, DiskView;
      var raw := table[ino];
      MapInvPtrs();
      FileAt(g, tree, table, ino);
      FileKeptSame(words, tree, ino);
      if length < raw.size {
        var keep := DivCeil(length, g.BlockSize());
        ghost var t := tree;
        var freed;
        OnDisk();
        raw, freed := TruncateBlocks(ino, raw, keep);
        OnDisk();
        CutoffContent(g.ptrs, old(disk), old(words), t, disk, words, ino, keep);
        RawSame(tree, ino, raw, raw.(size := length));
        FilesCut(g, t, table, ino, raw.(size := length), keep);
      } else {
        FilesSized(g, tree, table, ino, raw.(size := length));
        UncutContent(g.ptrs, disk, tree, ino);
      }
      table := table[ino := raw.(size := length)];
    }

    /** Freeing an unlinked inode's data. */
    method Remove(ino: nat)
      requires Valid() && ino in table
      modifies this
      ensures Valid() && held == old(held)
      ensures tree == Cutoff(g.ptrs, old(tree), ino, 0) && superFree == old(superFree) + |old(tree)| - |tree|
      ensures table.Keys == old(table.Keys)
      ensures CutContent(g.ptrs, old(disk), old(tree), disk, tree, ino, 0)
    {
      hide AllocInv, MapInv, FilesOk, RawOk, Times, Cutoff, FileAddrs, Limit, Leaf;
      var raw := table[ino];
      FileKind(g, tree, table, ino);
      MapInvPtrs();
      OnDisk();
      var raw', freed := FreeInodeData(ino, raw);
      FileKeptSame(words, tree, ino);
      CutoffContent(g.ptrs, disk, words, old(tree), disk, words, ino, 0);
      FilesGone(g, old(tree), old(table), ino, raw');
    }

    /** Any run of mappings, truncations and removals.  A mapping that finds no space at all, or only the one block
        that it gives back, does no harm; the run stops at a mapping that runs out of space half way. */
    method Run(ops: seq<Op>) returns (done: nat)
      requires Valid()
      modifies this
      ensures done <= |ops| && held == old(held) && AllocInv() && MapInv({})
      // every operation carried out left bitmap, counters, trees and inodes in agreement
      ensures done == |ops| <==> Valid()
      ensures done < |ops| ==> ops[done].Map? && superFree == 1
      // a file that was neither cut nor dropped reads as before, block by block
      ensures g.ptrs > 0 && ReadsAsBefore(g.ptrs, old(disk), old(tree), disk, tree, ops)
    {
      hide AllocInv, MapInv, FilesOk, Gap, Limit, Placed, DataKept, Leaf, Cutoff, FileKept, Content;
      MapInvPtrs();
      done := 0;
      while done < |ops|
        invariant done <= |ops| && Valid() && held == old(held)
        invariant g.ptrs > 0 && ReadsAsBefore(g.ptrs, old(disk), old(tree), disk, tree, ops)
      {
        match ops[done] {
          case Map(ino, lb) =>
            if ino in table && !table[ino].FastSymlink() {
              var free := superFree;
              var r := MapBlock(ino, lb);
              if r == Err(ENOSPC) && free > 1 {
                return;
              }
            }
          case Cut(ino, length) =>
            if ino in table && table[ino].kind == Regular {
              Truncate(ino, length);
            }
          case Drop(ino) =>
            if ino in table {
              Remove(ino);
            }
        }
        done := done + 1;
      }
    }
  }
}
