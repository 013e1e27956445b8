/**
  The two byte layouts that the ext2 block map reads and writes in place: indirect blocks,
  which are arrays of little-endian 32-bit block pointers, and bitmap blocks, which are bit arrays
  with the lowest bit of each byte first.  The rest of the ext2 model speaks of `Words` and `Bits`;
  this module ties them to the bytes.
  */
module Ext2Layout {
  import opened Common

  const WORD: int := 0x1_0000_0000

  // ----- pointer blocks

  /** `u32::from_le_bytes` of the four bytes of entry `i`. */
  function Word(buf: seq<Byte>, i: nat): nat
    requires 4 * i + 4 <= |buf|
  {
    var b0: int, b1: int, b2: int, b3: int := buf[4 * i], buf[4 * i + 1], buf[4 * i + 2], buf[4 * i + 3];
    b0 + 0x100 * b1 + 0x1_0000 * b2 + 0x100_0000 * b3
  }

  function Words(buf: seq<Byte>): (w: seq<nat>)
    ensures |w| == |buf| / 4
    ensures forall i :: 0 <= i < |w| ==> w[i] == Word(buf, i)
  {
    seq(|buf| / 4, i requires 0 <= i < |buf| / 4 => Word(buf, i))
  }

  /** The narrowing cast `as u32`. */
  function Low32(value: nat): nat {
    value % WORD
  }

  /** `u32::to_le_bytes`, after the narrowing cast `as u32`. */
  function LeBytes(value: nat): (b: seq<Byte>)
    ensures |b| == 4
    ensures Word(b, 0) == Low32(value)
  {
    var v := Low32(value);
    var v1 := v / 0x100;
    var v2 := v1 / 0x100;
    [v % 0x100, v1 % 0x100, v2 % 0x100, v2 / 0x100]
  }

  function PutWord(buf: seq<Byte>, i: nat, value: nat): (r: seq<Byte>)
    requires 4 * i + 4 <= |buf|
  {
    buf[..4 * i] + LeBytes(value) + buf[4 * i + 4..]
  }

  /** Patching four bytes is one pointer update: the entry reads back, no neighbour moves. */
  lemma PutWordUpdates(buf: seq<Byte>, i: nat, value: nat)
    requires 4 * i + 4 <= |buf|
    ensures |PutWord(buf, i, value)| == |buf|
    ensures Words(PutWord(buf, i, value)) == Words(buf)[i := Low32(value)]
  {
    var r := PutWord(buf, i, value);
    var le := LeBytes(value);
    assert r[4 * i] == le[0] && r[4 * i + 1] == le[1] && r[4 * i + 2] == le[2] && r[4 * i + 3] == le[3];
    forall j | 0 <= j < |buf| / 4 && j != i
      ensures Word(r, j) == Word(buf, j)
    {
      if j < i {
        assert r[4 * j..4 * j + 4] == buf[4 * j..4 * j + 4];
      } else {
        assert r[4 * j..4 * j + 4] == buf[4 * j..4 * j + 4];
      }
      WordOfSlice(r, j);
      WordOfSlice(buf, j);
    }
  }

  lemma WordOfSlice(buf: seq<Byte>, j: nat)
    requires 4 * j + 4 <= |buf|
    ensures Word(buf, j) == Word(buf[4 * j..4 * j + 4], 0)
  {
  }

  lemma WordDetermined(a: seq<Byte>, b: seq<Byte>, i: nat)
    requires 4 * i + 4 <= |a| == |b| && Word(a, i) == Word(b, i)
    ensures a[4 * i] == b[4 * i] && a[4 * i + 1] == b[4 * i + 1]
    ensures a[4 * i + 2] == b[4 * i + 2] && a[4 * i + 3] == b[4 * i + 3]
  {
    FourDigits(a[4 * i], a[4 * i + 1], a[4 * i + 2], a[4 * i + 3], b[4 * i], b[4 * i + 1], b[4 * i + 2], b[4 * i + 3]);
  }

  lemma FourDigits(a0: int, a1: int, a2: int, a3: int, b0: int, b1: int, b2: int, b3: int)
    requires 0 <= a0 < 0x100 && 0 <= a1 < 0x100 && 0 <= a2 < 0x100
    requires 0 <= b0 < 0x100 && 0 <= b1 < 0x100 && 0 <= b2 < 0x100
    requires a0 + 0x100 * a1 + 0x1_0000 * a2 + 0x100_0000 * a3 == b0 + 0x100 * b1 + 0x1_0000 * b2 + 0x100_0000 * b3
    ensures a0 == b0 && a1 == b1 && a2 == b2 && a3 == b3
  {
    OneDigit(a0, b0, a1 + 0x100 * a2 + 0x1_0000 * a3, b1 + 0x100 * b2 + 0x1_0000 * b3);
    OneDigit(a1, b1, a2 + 0x100 * a3, b2 + 0x100 * b3);
    OneDigit(a2, b2, a3, b3);
  }

  lemma OneDigit(x: int, y: int, m: int, n: int)
    requires 0 <= x < 0x100 && 0 <= y < 0x100 && x + 0x100 * m == y + 0x100 * n
    ensures x == y && m == n
  {
  }

  /** The pointers determine the bytes. */
  lemma WordsInjective(a: seq<Byte>, b: seq<Byte>, p: nat)
    requires |a| == |b| == 4 * p && Words(a) == Words(b)
    ensures a == b
  {
    hide Word;
    forall k | 0 <= k < |a|
      ensures a[k] == b[k]
    {
      var i := k / 4;
      assert Words(a)[i] == Words(b)[i];
      WordDetermined(a, b, i);
      assert k == 4 * i || k == 4 * i + 1 || k == 4 * i + 2 || k == 4 * i + 3;
    }
  }

  function Zeros(n: nat): (z: seq<Byte>)
    ensures |z| == n
    ensures forall i :: 0 <= i < |Words(z)| ==> Words(z)[i] == 0
  {
    seq(n, i => 0)
  }

  // ----- bitmap blocks

  function BitAt(bytes: seq<bv8>, n: nat): bool
    requires n / 8 < |bytes|
  {
    ByteBit(bytes[n / 8], n % 8)
  }

  /** `1 << k` on a byte. */
  function Mask(k: nat): bv8
    requires k < 8
  {
    if k == 0 then 1 else if k == 1 then 2 else if k == 2 then 4 else if k == 3 then 8
    else if k == 4 then 16 else if k == 5 then 32 else if k == 6 then 64 else 128
  }

  predicate ByteBit(b: bv8, k: nat)
    requires k < 8
  {
    b & Mask(k) != 0
  }

  function ByteBits(b: bv8): seq<bool> {
    [ByteBit(b, 0), ByteBit(b, 1), ByteBit(b, 2), ByteBit(b, 3),
     ByteBit(b, 4), ByteBit(b, 5), ByteBit(b, 6), ByteBit(b, 7)]
  }

  function Bits(bytes: seq<bv8>): seq<bool> {
    if |bytes| == 0 then [] else Bits(bytes[..|bytes| - 1]) + ByteBits(bytes[|bytes| - 1])
  }

  lemma {:induction false} BitsAre(bytes: seq<bv8>)
    ensures |Bits(bytes)| == 8 * |bytes|
    ensures forall n :: 0 <= n < 8 * |bytes| ==> Bits(bytes)[n] == BitAt(bytes, n)
  {
    hide ByteBit;
    if |bytes| > 0 {
      BitsAre(bytes[..|bytes| - 1]);
    }
  }

  lemma ByteDetermined(b: bv8, c: bv8)
    requires ByteBits(b) == ByteBits(c)
    ensures b == c
  {
    assert ByteBits(b)[0] == ByteBits(c)[0] && ByteBits(b)[1] == ByteBits(c)[1]
        && ByteBits(b)[2] == ByteBits(c)[2] && ByteBits(b)[3] == ByteBits(c)[3]
        && ByteBits(b)[4] == ByteBits(c)[4] && ByteBits(b)[5] == ByteBits(c)[5]
        && ByteBits(b)[6] == ByteBits(c)[6] && ByteBits(b)[7] == ByteBits(c)[7];
  }

  /** The bits determine the bytes. */
  lemma {:induction false} BitsInjective(x: seq<bv8>, y: seq<bv8>)
    requires Bits(x) == Bits(y)
    ensures x == y
  {
    hide ByteBits, BitAt;
    BitsAre(x);
    BitsAre(y);
    if |x| > 0 {
      var n := |x| - 1;
      BitsAre(x[..n]);
      BitsAre(y[..n]);
      assert Bits(x)[..8 * n] == Bits(x[..n]) && Bits(y)[..8 * n] == Bits(y[..n]);
      assert Bits(x)[8 * n..] == ByteBits(x[n]) && Bits(y)[8 * n..] == ByteBits(y[n]);
      ByteDetermined(x[n], y[n]);
      BitsInjective(x[..n], y[..n]);
      assert x == x[..n] + [x[n]] && y == y[..n] + [y[n]];
    }
  }

  lemma ByteSet(b: bv8, k: nat, j: nat)
    requires k < 8 && j < 8
    ensures ByteBit(b | Mask(k), j) == (j == k || ByteBit(b, j))
  {
  }

  lemma ByteClear(b: bv8, k: nat, j: nat)
    requires k < 8 && j < 8
    ensures ByteBit(b & !Mask(k), j) == (j != k && ByteBit(b, j))
  {
  }

  lemma BitAfter(bytes: seq<bv8>, n: nat, m: nat)
    requires n / 8 < |bytes| && m / 8 < |bytes|
    ensures BitAt(bytes[n / 8 := bytes[n / 8] | Mask(n % 8)], m) == (m == n || BitAt(bytes, m))
    ensures BitAt(bytes[n / 8 := bytes[n / 8] & !Mask(n % 8)], m) == (m != n && BitAt(bytes, m))
  {
    if m / 8 == n / 8 {
      assert m == 8 * (m / 8) + m % 8 && n == 8 * (n / 8) + n % 8;
      hide ByteBit, Mask;
      ByteSet(bytes[n / 8], n % 8, m % 8);
      ByteClear(bytes[n / 8], n % 8, m % 8);
    } else {
      assert m != n;
    }
  }

  /** `bitmap[byte] |= 1 << bit`: one bit of the array changes. */
  method SetBit(bytes: seq<bv8>, n: nat) returns (r: seq<bv8>)
    requires n < |Bits(bytes)|
    ensures Bits(r) == Bits(bytes)[n := true]
  {
    BitsAre(bytes);
    r := bytes[n / 8 := bytes[n / 8] | Mask(n % 8)];
    BitsAre(r);
    forall m | 0 <= m < 8 * |bytes|
      ensures Bits(r)[m] == Bits(bytes)[n := true][m]
    {
      BitAfter(bytes, n, m);
    }
  }

  /** `bitmap[byte] &= !(1 << bit)`. */
  method ClearBit(bytes: seq<bv8>, n: nat) returns (r: seq<bv8>)
    requires n < |Bits(bytes)|
    ensures Bits(r) == Bits(bytes)[n := false]
  {
    BitsAre(bytes);
    r := bytes[n / 8 := bytes[n / 8] & !Mask(n % 8)];
    BitsAre(r);
    forall m | 0 <= m < 8 * |bytes|
      ensures Bits(r)[m] == Bits(bytes)[n := false][m]
    {
      BitAfter(bytes, n, m);
    }
  }

  lemma FullByte(j: nat)
    requires j < 8
    ensures ByteBit(0xFF, j)
  {
  }

  /** The scan of `alloc_block`: skip full bytes, then take the lowest clear bit. */
  method FindClearBit(bytes: seq<bv8>) returns (r: Option<nat>)
    ensures r.None? ==> forall n :: 0 <= n < |Bits(bytes)| ==> Bits(bytes)[n]
    ensures r.Some? ==> r.value < |Bits(bytes)| && !Bits(bytes)[r.value]
    ensures r.Some? ==> forall n :: 0 <= n < r.value ==> Bits(bytes)[n]
  {
    hide Mask;
    BitsAre(bytes);
    for byteIdx := 0 to |bytes|
      invariant forall n :: 0 <= n < 8 * byteIdx ==> Bits(bytes)[n]
    {
      if bytes[byteIdx] == 0xFF {
        forall n | 8 * byteIdx <= n < 8 * byteIdx + 8
          ensures Bits(bytes)[n]
        {
          FullByte(n % 8);
        }
        continue;
      }
      for bit := 0 to 8
        invariant forall n :: 0 <= n < 8 * byteIdx + bit ==> Bits(bytes)[n]
      {
        if bytes[byteIdx] & Mask(bit) == 0 {
          assert (8 * byteIdx + bit) / 8 == byteIdx && (8 * byteIdx + bit) % 8 == bit;
          return Some(8 * byteIdx + bit);
        }
        assert (8 * byteIdx + bit) / 8 == byteIdx && (8 * byteIdx + bit) % 8 == bit;
      }
    }
    return None;
  }
}
