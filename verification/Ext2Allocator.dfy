/**
  Block numbers, bitmap bits and the redundant free counters of ext2, as values.
  */
module Ext2Allocator {
  import opened Arith
  import opened Ext2Layout

  /** What the superblock fixes at mount time.  A block holds `ptrs` pointers, so it has `4 * ptrs`
      bytes, at least 1024, and one bitmap block describes `32 * ptrs` blocks. */
  datatype Geometry = Geometry(ptrs: nat, first: nat, perGroup: nat, groups: nat, inodesPerGroup: nat)
  {
    predicate Valid() {
      && ptrs >= 256
      && 0 < perGroup <= 32 * ptrs
      && 0 < inodesPerGroup
      && first + groups * perGroup <= WORD
    }

    function BlockSize(): nat { 4 * ptrs }

    function Sectors(): nat { BlockSize() / 512 }
  }

  // ----- block numbers

  function BlockNum(g: Geometry, group: nat, index: nat): nat {
    group * g.perGroup + g.first + index
  }

  function GroupOf(g: Geometry, block: nat): nat
    requires g.perGroup > 0 && g.first <= block
  {
    (block - g.first) / g.perGroup
  }

  function IndexOf(g: Geometry, block: nat): nat
    requires g.perGroup > 0 && g.first <= block
  {
    (block - g.first) % g.perGroup
  }

  /** The group and index arithmetic of `free_block` inverts the numbering of `alloc_block`. */
  lemma NumberInverse(g: Geometry, group: nat, index: nat)
    requires g.Valid() && index < g.perGroup
    ensures GroupOf(g, BlockNum(g, group, index)) == group
    ensures IndexOf(g, BlockNum(g, group, index)) == index
  {
    DivModUnique(group, g.perGroup, index);
  }

  lemma NumberInRange(g: Geometry, group: nat, index: nat)
    requires g.Valid() && index < g.perGroup && group < g.groups
    ensures BlockNum(g, group, index) < g.first + g.groups * g.perGroup
  {
    assert (group + 1) * g.perGroup <= g.groups * g.perGroup;
  }

  lemma InverseNumber(g: Geometry, block: nat)
    requires g.Valid() && g.first <= block
    ensures BlockNum(g, GroupOf(g, block), IndexOf(g, block)) == block
    ensures IndexOf(g, block) < g.perGroup
  {
    var d := block - g.first;
    assert d == (d / g.perGroup) * g.perGroup + d % g.perGroup;
  }

  // ----- counters

  function Clear(bits: seq<bool>): nat {
    if |bits| == 0 then 0
    else Clear(bits[..|bits| - 1]) + (if bits[|bits| - 1] then 0 else 1)
  }

  lemma {:induction false} ClearUpdate(bits: seq<bool>, i: nat, v: bool)
    requires i < |bits| && bits[i] != v
    ensures Clear(bits[i := v]) == if v then Clear(bits) - 1 else Clear(bits) + 1
  {
    var n := |bits| - 1;
    if i == n {
      assert bits[i := v][..n] == bits[..n];
    } else {
      ClearUpdate(bits[..n], i, v);
      assert bits[i := v][..n] == bits[..n][i := v];
    }
  }

  lemma {:induction false} ClearZero(bits: seq<bool>)
    ensures Clear(bits) == 0 <==> forall i :: 0 <= i < |bits| ==> bits[i]
  {
    if |bits| > 0 {
      ClearZero(bits[..|bits| - 1]);
    }
  }

  function Sum(xs: seq<nat>): nat {
    if |xs| == 0 then 0 else Sum(xs[..|xs| - 1]) + xs[|xs| - 1]
  }

  lemma {:induction false} SumUpdate(xs: seq<nat>, i: nat, v: nat)
    requires i < |xs|
    ensures Sum(xs[i := v]) == Sum(xs) - xs[i] + v
    ensures Sum(xs) >= xs[i]
  {
    var n := |xs| - 1;
    if i == n {
      assert xs[i := v][..n] == xs[..n];
    } else {
      SumUpdate(xs[..n], i, v);
      assert xs[i := v][..n] == xs[..n][i := v];
    }
  }

  lemma {:induction false} SumZero(xs: seq<nat>)
    requires forall i :: 0 <= i < |xs| ==> xs[i] == 0
    ensures Sum(xs) == 0
  {
    if |xs| > 0 {
      SumZero(xs[..|xs| - 1]);
    }
  }

  /** The three redundant records agree: bitmap bits, group counters, superblock counter.  Bits past
      the end of a group are set, so they are never handed out. */
  predicate CountersOk(g: Geometry, bits: seq<seq<bool>>, groupFree: seq<nat>, superFree: nat) {
    && g.Valid()
    && |bits| == |groupFree| == g.groups
    && (forall k :: 0 <= k < g.groups ==> |bits[k]| == 32 * g.ptrs)
    && (forall k, i :: 0 <= k < g.groups && g.perGroup <= i < 32 * g.ptrs ==> bits[k][i])
    && (forall k :: 0 <= k < g.groups ==> groupFree[k] == Clear(bits[k]))
    && superFree == Sum(groupFree)
  }

  /** Block `v` is marked in use. */
  predicate Used(g: Geometry, bits: seq<seq<bool>>, v: nat) {
    && g.Valid() && g.first <= v
    && GroupOf(g, v) < |bits|
    && IndexOf(g, v) < |bits[GroupOf(g, v)]|
    && bits[GroupOf(g, v)][IndexOf(g, v)]
  }

  /** The group that holds inode `ino`. */
  function HomeGroup(g: Geometry, ino: nat): nat {
    if g.inodesPerGroup == 0 || ino == 0 then 0 else (ino - 1) / g.inodesPerGroup
  }

  /** Block `v` is the first clear one of the first group, cyclically from `preferred`, that has one. */
  ghost predicate FirstFree(g: Geometry, bits: seq<seq<bool>>, preferred: nat, v: nat) {
    && g.Valid() && |bits| == g.groups > 0
    && exists o: nat, i: nat :: o < g.groups && FreeThere(g, bits, preferred, o, i, v)
  }

  ghost predicate FreeThere(g: Geometry, bits: seq<seq<bool>>, preferred: nat, o: nat, i: nat, v: nat)
    requires |bits| == g.groups > 0
  {
    var k := Cyclic(preferred, o, g.groups);
    && v == BlockNum(g, k, i) && i < |bits[k]| && !bits[k][i] && (forall j :: 0 <= j < i ==> bits[k][j])
    && forall p, j :: 0 <= p < o && 0 <= j < |bits[Cyclic(preferred, p, g.groups)]| ==>
         bits[Cyclic(preferred, p, g.groups)][j]
  }

  /** Flipping the bit of one block changes the use of that block alone, and the counters follow. */
  lemma FlipKeeps(g: Geometry, bits: seq<seq<bool>>, groupFree: seq<nat>, superFree: nat,
                  group: nat, index: nat, v: bool)
    requires CountersOk(g, bits, groupFree, superFree)
    requires group < g.groups && index < g.perGroup && bits[group][index] != v
    ensures v ==> groupFree[group] > 0 && superFree > 0
    ensures CountersOk(g, bits[group := bits[group][index := v]],
                       groupFree[group := if v then groupFree[group] - 1 else groupFree[group] + 1],
                       if v then superFree - 1 else superFree + 1)
  {
    ClearUpdate(bits[group], index, v);
    var n := if v then groupFree[group] - 1 else groupFree[group] + 1;
    SumUpdate(groupFree, group, n);
  }

  lemma FlipUsed(g: Geometry, bits: seq<seq<bool>>, group: nat, index: nat, v: bool, x: nat)
    requires g.Valid() && |bits| == g.groups
    requires forall k :: 0 <= k < g.groups ==> |bits[k]| == 32 * g.ptrs
    requires group < g.groups && index < g.perGroup
    ensures Used(g, bits[group := bits[group][index := v]], x)
         == if x == BlockNum(g, group, index) then v else Used(g, bits, x)
  {
    NumberInverse(g, group, index);
    if g.first <= x {
      InverseNumber(g, x);
    }
  }
}
