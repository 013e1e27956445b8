/** Bytes that lie in several pieces, seen as one flat string. */
module FlatBytes {
  import opened Common

  /** The pieces one after the other. */
  function Flat(pages: seq<seq<Byte>>): seq<Byte> {
    if pages == [] then [] else pages[0] + Flat(pages[1..])
  }

  lemma {:induction false} FlatConcat(a: seq<seq<Byte>>, b: seq<seq<Byte>>)
    ensures Flat(a + b) == Flat(a) + Flat(b)
  {
    if a == [] {
      assert a + b == b;
    } else {
      FlatConcat(a[1..], b);
      assert (a + b)[1..] == a[1..] + b && (a + b)[0] == a[0];
      var x, y, z := a[0], Flat(a[1..]), Flat(b);
      assert Flat(a + b) == x + (y + z) == (x + y) + z;
    }
  }

  lemma FlatOne(page: seq<Byte>)
    ensures Flat([page]) == page
  {
  }

  /** The flat bytes around piece `p`. */
  lemma FlatSplit(pages: seq<seq<Byte>>, p: nat, page: seq<Byte>)
    requires p < |pages|
    ensures Flat(pages[p := page]) == Flat(pages[..p]) + page + Flat(pages[p + 1..])
  {
    hide Flat;
    assert pages[p := page] == pages[..p] + [page] + pages[p + 1..];
    FlatConcat(pages[..p] + [page], pages[p + 1..]);
    FlatConcat(pages[..p], [page]);
    FlatOne(page);
  }

  lemma PieceOf(a: seq<Byte>, b: seq<Byte>, c: seq<Byte>, o: nat, n: nat)
    requires o + n <= |b|
    ensures (a + b + c)[|a| + o..|a| + o + n] == b[o..o + n]
  {
  }

  function Patch(bytes: seq<Byte>, at: nat, data: seq<Byte>): (r: seq<Byte>)
    requires at + |data| <= |bytes|
    ensures |r| == |bytes|
  {
    bytes[..at] + data + bytes[at + |data|..]
  }

  lemma PatchOf(a: seq<Byte>, b: seq<Byte>, c: seq<Byte>, o: nat, data: seq<Byte>)
    requires o + |data| <= |b|
    ensures a + Patch(b, o, data) + c == Patch(a + b + c, |a| + o, data)
  {
  }
}
