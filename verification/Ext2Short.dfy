/**
  A volume with two free blocks on which a mapping that needs three runs out of space half way.
  */
module Ext2Short {
  import opened Common
  import opened Ext2Layout
  import opened Ext2Allocator
  import opened Ext2Tree
  import opened Ext2State
  import opened Ext2

  const PTRS: nat := 256

  /** One group of two blocks, from block 1 on. */
  const SHAPE: Geometry := Geometry(PTRS, 1, 2, 1, 1)

  function BitmapBytes(): (b: seq<bv8>)
    ensures |b| == 4 * PTRS
  {
    seq(4 * PTRS, i => if i == 0 then 0xfc else 0xff)
  }

  /** Two clear bits, and set ones past the end of the group. */
  function FreeTwo(): (b: seq<bool>)
    ensures |b| == 32 * PTRS
  {
    seq(32 * PTRS, i => i >= 2)
  }

  lemma BitmapIs()
    ensures Bits(BitmapBytes()) == FreeTwo()
  {
    hide Bits, ByteBit;
    BitsAre(BitmapBytes());
    forall n | 0 <= n < 32 * PTRS
      ensures BitAt(BitmapBytes(), n) == (n >= 2)
    {
      BytesAre(n % 8);
    }
  }

  lemma BytesAre(k: nat)
    requires k < 8
    ensures ByteBit(0xfc, k) == (k >= 2) && ByteBit(0xff, k)
  {
  }

  lemma TwoClear()
    ensures Clear(FreeTwo()) == 2
  {
    hide Clear;
    var full := FreeTwo()[0 := true][1 := true];
    ClearZero(full);
    ClearUpdate(full, 0, false);
    ClearUpdate(full[0 := false], 1, false);
    assert full[0 := false][1 := false] == FreeTwo();
  }

  lemma AllocFine()
    ensures BitmapView([BitmapBytes()], [FreeTwo()]) && CountersOk(SHAPE, [FreeTwo()], [2], 2)
    ensures OwnOk(SHAPE, [FreeTwo()], map[], {})
  {
    hide Clear, Bits;
    BitmapIs();
    TwoClear();
    assert [2][..0] == [] && Sum([2]) == 2;
  }

  lemma MapFine()
    ensures var z := Zeros(4 * PTRS);
            DiskView([z, z, z], [Words(z), Words(z), Words(z)], 4 * PTRS)
                && TreeOk(PTRS, [Words(z), Words(z), Words(z)], map[], {})
  {
  }

  const EMPTY: Inode := Inode(Regular, 0, 0, NoPointers())

  lemma FilesFine()
    ensures FilesOk(SHAPE, map[], map[1 := EMPTY])
  {
    assert FileAddrs(map[], 1) == {};
  }

  /** The first block that hangs below the double indirect one. */
  lemma FarBlock(t: Tree)
    requires t == map[]
    ensures Gap(t, Leaf(PTRS, 1, NDIR + PTRS)) == 3 && NDIR + PTRS < Limit(PTRS)
  {
    Spans(PTRS);
    var a := Kid(Kid(Root(1, DIND), 0), 0);
    assert Leaf(PTRS, 1, NDIR + PTRS) == a by {
      assert Descend(PTRS, Kid(Root(1, DIND), 0), 1, 0) == a;
    }
    assert Gap(t, a.parent) == 2;
  }

  /** The mapping fails, one block is left free, and bitmap and inodes do not agree any more. */
  method ShortOfSpace() returns (o: Ext2Super, r: Result<nat>)
    ensures r == Err(ENOSPC) && o.AllocInv() && o.superFree == 1 && !o.Valid()
  {
    hide BitmapView, CountersOk, OwnOk, DiskView, TreeOk, FilesOk, Zeros, Words, BitmapBytes, FreeTwo;
    hide Gap, Limit, Leaf, Placed, DataKept;
    AllocFine();
    MapFine();
    FilesFine();
    var z := Zeros(4 * PTRS);
    ghost var w := Words(z);
    FarBlock(map[]);
    o := new Ext2Super(SHAPE, [z, z, z], [BitmapBytes()], [2], 2, map[1 := EMPTY], [w, w, w], [FreeTwo()], map[], {});
    r := o.MapBlock(1, NDIR + PTRS);
  }
}
