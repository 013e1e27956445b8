/**
  Pipes (`kernel/src/vfs/pipe.rs`) over a ring buffer (`kernel/src/util/ring.rs`), with user memory given by
  scatter/gather lists (`kernel/src/memory/iovec.rs`).
  */
module Pipe {
  import opened Common
  import opened FlatBytes

  function Min(a: nat, b: nat): nat {
    if a < b then a else b
  }

  // ----- the ring

  /** The bytes of a ring from the read cursor up to the write cursor. */
  function Held(b: seq<Byte>, r: nat, w: nat): (s: seq<Byte>)
    requires r < |b| && w < |b|
    ensures |s| == HeldLen(|b|, r, w)
  {
    if r <= w then b[r..w] else b[r..] + b[..w]
  }

  function HeldLen(cap: nat, r: nat, w: nat): (n: nat)
    requires r < cap && w < cap
    ensures n < cap
  {
    if r <= w then w - r else cap - (r - w)
  }

  /** The place of the `i`-th byte from a cursor. */
  function Spot(cap: nat, cursor: nat, i: nat): nat
    requires cursor < cap && i < cap
  {
    if cursor + i < cap then cursor + i else cursor + i - cap
  }

  lemma HeldAt(b: seq<Byte>, r: nat, w: nat, i: nat)
    requires r < |b| && w < |b| && i < HeldLen(|b|, r, w)
    ensures Held(b, r, w)[i] == b[Spot(|b|, r, i)]
  {
  }

  /** Bytes written after the write cursor come after the ones held. */
  lemma HeldGrows(b: seq<Byte>, c: seq<Byte>, r: nat, w: nat, data: seq<Byte>)
    requires r < |b| && w < |b| && |c| == |b| && HeldLen(|b|, r, w) + |data| < |b|
    requires forall i :: 0 <= i < |data| ==> c[Spot(|b|, w, i)] == data[i]
    requires forall i :: 0 <= i < HeldLen(|b|, r, w) ==> c[Spot(|b|, r, i)] == b[Spot(|b|, r, i)]
    ensures Held(c, r, Spot(|b|, w, |data|)) == Held(b, r, w) + data
  {
    hide Held;
    var n, w' := HeldLen(|b|, r, w), Spot(|b|, w, |data|);
    assert HeldLen(|b|, r, w') == n + |data|;
    forall i | 0 <= i < n + |data|
      ensures Held(c, r, w')[i] == (Held(b, r, w) + data)[i]
    {
      HeldAt(c, r, w', i);
      if i < n {
        HeldAt(b, r, w, i);
      } else {
        assert Spot(|b|, r, i) == Spot(|b|, w, i - n);
      }
    }
  }

  /** Moving the read cursor takes bytes off the front. */
  lemma HeldShrinks(b: seq<Byte>, r: nat, w: nat, k: nat)
    requires r < |b| && w < |b| && k <= HeldLen(|b|, r, w)
    ensures Held(b, r, w) == Held(b, r, w)[..k] + Held(b, Spot(|b|, r, k), w)
  {
    hide Held;
    var n, r' := HeldLen(|b|, r, w), Spot(|b|, r, k);
    assert HeldLen(|b|, r', w) == n - k;
    forall i | k <= i < n
      ensures Held(b, r, w)[i] == Held(b, r', w)[i - k]
    {
      HeldAt(b, r, w, i);
      HeldAt(b, r', w, i - k);
    }
  }

  /** A piece up to the end of the buffer and a piece at its front land in the free part of the ring. */
  lemma TwoPieces(b: seq<Byte>, c: seq<Byte>, r: nat, w: nat, data: seq<Byte>, l0: nat)
    requires r < |b| && w < |b| && |c| == |b| && HeldLen(|b|, r, w) + |data| < |b| && l0 == Min(w + |data|, |b|) - w
    requires forall i :: 0 <= i < |b| ==>
               c[i] == if w <= i < w + l0 then data[i - w] else if i < |data| - l0 then data[l0 + i] else b[i]
    ensures forall i :: 0 <= i < |data| ==> c[Spot(|b|, w, i)] == data[i]
    ensures forall i :: 0 <= i < HeldLen(|b|, r, w) ==> c[Spot(|b|, r, i)] == b[Spot(|b|, r, i)]
  {
  }

  class RingBuffer {
    const buf: array<Byte>
    var readCursor: nat
    var writeCursor: nat

    ghost predicate Valid()
      reads this
    {
      readCursor < buf.Length && writeCursor < buf.Length
    }

    /** The bytes in the ring, oldest first. */
    ghost function Contents(): seq<Byte>
      reads this, buf
      requires Valid()
    {
      Held(buf[..], readCursor, writeCursor)
    }

    constructor (capacity: nat)
      requires capacity > 0
      ensures Valid() && fresh(buf) && buf.Length == capacity && Contents() == []
    {
      buf := new Byte[capacity];
      readCursor, writeCursor := 0, 0;
    }

    function DataLen(): (n: nat)
      reads this, buf
      requires Valid()
      ensures n == |Contents()| < buf.Length
    {
      if readCursor <= writeCursor then writeCursor - readCursor else buf.Length - (readCursor - writeCursor)
    }

    function AvailableLen(): (n: nat)
      reads this, buf
      requires Valid()
      ensures n == buf.Length - |Contents()| - 1
    {
      buf.Length - DataLen() - 1
    }

    /** `write`: as much as fits goes to the end, in at most two pieces. */
    method Write(data: seq<Byte>) returns (len: nat)
      requires Valid()
      modifies this`writeCursor, buf
      ensures Valid() && len == Min(|data|, old(AvailableLen()))
      ensures Contents() == old(Contents()) + data[..len]
    {
      hide Held;
      var cursor := writeCursor;
      len := Min(|data|, AvailableLen());
      var l0 := Min(cursor + len, buf.Length) - cursor;
      CopyIn(cursor, data[..l0]);
      var l1 := len - l0;
      if l1 > 0 {
        CopyIn(0, data[l0..l0 + l1]);
      }
      TwoPieces(old(buf[..]), buf[..], readCursor, cursor, data[..len], l0);
      HeldGrows(old(buf[..]), buf[..], readCursor, cursor, data[..len]);
      Wraps(cursor, len, buf.Length);
      writeCursor := (writeCursor + len) % buf.Length;
    }

    /** `copy_from_slice` into the buffer. */
    method CopyIn(at: nat, data: seq<Byte>)
      requires at + |data| <= buf.Length
      modifies buf
      ensures forall i :: 0 <= i < buf.Length ==> buf[i] == if at <= i < at + |data| then data[i - at] else old(buf[i])
    {
      forall i | 0 <= i < |data| {
        buf[at + i] := data[i];
      }
    }

    /** `peek`: the oldest bytes, in at most two pieces. */
    method Peek(n: nat) returns (out: seq<Byte>)
      requires Valid()
      ensures out == Contents()[..Min(n, |Contents()|)]
    {
      var cursor := readCursor;
      var len := Min(n, DataLen());
      var l0 := Min(cursor + len, buf.Length) - cursor;
      out := buf[cursor..cursor + l0];
      var l1 := len - l0;
      if l1 > 0 {
        out := out + buf[..l1];
      }
    }

    /** `read`: the bytes leave the ring. */
    method Read(n: nat) returns (out: seq<Byte>)
      requires Valid()
      modifies this`readCursor
      ensures Valid() && out == old(Contents())[..Min(n, |old(Contents())|)]
      ensures old(Contents()) == out + Contents()
    {
      hide Held;
      out := Peek(n);
      HeldShrinks(buf[..], readCursor, writeCursor, |out|);
      Wraps(readCursor, |out|, buf.Length);
      readCursor := (readCursor + |out|) % buf.Length;
    }
  }

  lemma Wraps(cursor: nat, len: nat, capacity: nat)
    requires cursor < capacity && len < capacity
    ensures (cursor + len) % capacity == if cursor + len < capacity then cursor + len else cursor + len - capacity
  {
    if cursor + len >= capacity {
      assert cursor + len == 1 * capacity + (cursor + len - capacity);
    }
  }

  // ----- scatter/gather lists

  /** The flat bytes before, in and after piece `i`. */
  lemma FlatAt(bufs: seq<seq<Byte>>, i: nat)
    requires i < |bufs|
    ensures Flat(bufs) == Flat(bufs[..i]) + bufs[i] + Flat(bufs[i + 1..])
    ensures |Flat(bufs[..i + 1])| == |Flat(bufs[..i])| + |bufs[i]| <= |Flat(bufs)|
    ensures i + 1 == |bufs| ==> |Flat(bufs)| == |Flat(bufs[..i])| + |bufs[i]|
  {
    hide Flat;
    FlatSplit(bufs, i, bufs[i]);
    assert bufs[i := bufs[i]] == bufs;
    assert bufs[..i + 1] == bufs[..i] + [bufs[i]];
    FlatConcat(bufs[..i], [bufs[i]]);
    FlatOne(bufs[i]);
    if i + 1 == |bufs| {
      assert bufs[..i + 1] == bufs;
    }
  }

  /** How many of the `n` bytes from `at` on come before the first bad one. */
  function Clear(bad: set<nat>, at: nat, n: nat): (k: nat)
    ensures k <= n
    decreases n
  {
    if n == 0 || at in bad then 0 else 1 + Clear(bad, at + 1, n - 1)
  }

  /** All of them exactly when none is bad; otherwise the one that follows is bad. */
  lemma {:induction false} ClearIs(bad: set<nat>, at: nat, n: nat)
    ensures Clear(bad, at, n) == n <==> forall x :: at <= x < at + n ==> x !in bad
    ensures Clear(bad, at, n) < n ==> at + Clear(bad, at, n) in bad
    ensures forall x :: at <= x < at + Clear(bad, at, n) ==> x !in bad
    decreases n
  {
    if n > 0 && at !in bad {
      ClearIs(bad, at + 1, n - 1);
    }
  }

  lemma {:induction false} ClearSplit(bad: set<nat>, at: nat, n: nat, m: nat)
    ensures Clear(bad, at, n + m) == if Clear(bad, at, n) < n then Clear(bad, at, n) else n + Clear(bad, at + n, m)
    decreases n
  {
    if n > 0 && at !in bad {
      ClearSplit(bad, at + 1, n - 1, m);
    }
  }

  /** What the next piece decides about the whole copy. */
  lemma ClearOn(bad: set<nat>, at: nat, done: nat, piece: nat, left: nat)
    requires Clear(bad, at, done) == done && piece <= left
    ensures Clear(bad, at, done + piece) == done + Clear(bad, at + done, piece)
    ensures Clear(bad, at + done, piece) < piece ==> Clear(bad, at, done + left) == done + Clear(bad, at + done, piece)
  {
    hide Clear;
    ClearSplit(bad, at, done, piece);
    ClearSplit(bad, at, done, left);
    ClearSplit(bad, at + done, piece, left - piece);
  }

  /** User memory as a list of buffers, and a position in it. */
  class IovecIter {
    var bufs: seq<seq<Byte>>
    const totalLen: nat
    var totalOffset: nat
    var idx: nat
    var off: nat

    ghost predicate Valid()
      reads this
    {
      && idx < |bufs| && off <= |bufs[idx]| && totalLen == |Flat(bufs)|
      && totalOffset == |Flat(bufs[..idx])| + off <= totalLen
    }

    constructor (bufs: seq<seq<Byte>>)
      requires bufs != []
      ensures Valid() && this.bufs == bufs && totalOffset == 0 && totalLen == |Flat(bufs)|
    {
      this.bufs := bufs;
      totalLen := |Flat(bufs)|;
      totalOffset, idx, off := 0, 0, 0;
      new;
      assert bufs[..0] == [];
    }

    /** `skip`: the position moves on by as much as there is, over buffers of any length, empty ones included. */
    method Skip(n: nat) returns (left: nat)
      requires Valid()
      modifies this`totalOffset, this`idx, this`off
      ensures Valid() && totalOffset == Min(old(totalOffset) + n, totalLen) && left == totalLen - totalOffset
      ensures idx >= old(idx) && (old(off) == |bufs[old(idx)]| && old(totalOffset) < totalLen ==> idx > old(idx))
    {
      hide Flat;
      var count: nat := n;
      while true
        invariant Valid() && count <= n && (totalOffset == old(totalOffset) + (n - count)) && idx >= old(idx)
        invariant idx == old(idx) ==> off == old(off) && totalOffset == old(totalOffset)
        decreases |bufs| - idx
      {
        FlatAt(bufs, idx);
        var current := Min(|bufs[idx]| - off, count);
        count := count - current;
        totalOffset := totalOffset + current;
        off := off + current;
        if off == |bufs[idx]| && totalOffset != totalLen {
          idx := idx + 1;
          off := 0;
        }
        if count == 0 || totalOffset == totalLen {
          break;
        }
      }
      left := totalLen - totalOffset;
    }

    /** `set_offset`. */
    method SetOffset(offset: nat) returns (left: nat)
      requires Valid()
      modifies this`totalOffset, this`idx, this`off
      ensures Valid() && totalOffset == Min(offset, totalLen) && left == totalLen - totalOffset
    {
      assert bufs[..0] == [];
      idx, off, totalOffset := 0, 0, 0;
      left := Skip(offset);
    }

    /** `copy_to_slice`: the next bytes of the flat string.  It fails exactly when it meets a byte of user memory
        that cannot be read, and then the position is as before. */
    method CopyToSlice(n: nat, bad: set<nat>) returns (r: Option<seq<Byte>>)
      requires Valid()
      modifies this`totalOffset, this`idx, this`off
      ensures Valid()
      ensures var len := Min(n, totalLen - old(totalOffset)); r.Some? <==> Clear(bad, old(totalOffset), len) == len
      ensures r == None ==> totalOffset == old(totalOffset)
      ensures r.Some? ==>
                && |r.value| == Min(n, totalLen - old(totalOffset)) && totalOffset == old(totalOffset) + |r.value|
                && r.value == Flat(bufs)[old(totalOffset)..totalOffset]
    {
      hide Flat, Valid, Clear;
      Position();
      var start := totalOffset;
      var remaining := Min(n, totalLen - totalOffset);
      ghost var len := remaining;
      var out: seq<Byte> := [];
      ClearNone(bad, start);
      while true
        invariant Valid() && totalOffset == start + |out| <= totalLen
                  && |out| + remaining == len == Min(n, totalLen - start)
        invariant totalLen == |Flat(bufs)| && out == Flat(bufs)[start..totalOffset]
        invariant Clear(bad, start, |out|) == |out|
        decreases |bufs| - idx, remaining
      {
        var left := Skip(0);
        Position();
        var current := Min(|bufs[idx]| - off, remaining);
        ClearOn(bad, start, |out|, current, remaining);
        if current > 0 && Clear(bad, totalOffset, current) < current {
          left := SetOffset(start);
          return None;
        }
        ClearNone(bad, totalOffset);
        PieceOf(Flat(bufs[..idx]), bufs[idx], Flat(bufs[idx + 1..]), off, current);
        out := out + bufs[idx][off..off + current];
        left := Skip(current);
        remaining := remaining - current;
        Position();
        if totalOffset == totalLen || remaining == 0 {
          break;
        }
      }
      r := Some(out);
    }

    /** `copy_from_slice`: the bytes replace the next bytes of the flat string, up to the first byte of user
        memory that cannot be written.  If there is one the copy fails, and the position is as before. */
    method CopyFromSlice(data: seq<Byte>, bad: set<nat>) returns (r: Option<nat>)
      requires Valid()
      modifies this`bufs, this`totalOffset, this`idx, this`off
      ensures Valid() && |bufs| == |old(bufs)|
      ensures var len := Min(|data|, totalLen - old(totalOffset));
              && r == (if Clear(bad, old(totalOffset), len) == len then Some(len) else None)
              && totalOffset == old(totalOffset) + (if r.Some? then len else 0)
              && old(totalOffset) + len <= |Flat(old(bufs))|
              && Flat(bufs) == Patch(Flat(old(bufs)), old(totalOffset), data[..Clear(bad, old(totalOffset), len)])
    {
      hide Flat, Valid, Patch, Clear;
      Position();
      var start := totalOffset;
      var remaining := Min(|data|, totalLen - totalOffset);
      ghost var len := remaining;
      var done: nat := 0;
      ghost var flat := Flat(bufs);
      PatchNone(flat, start, data);
      ClearNone(bad, start);
      while true
        invariant Valid() && totalOffset == start + done <= totalLen
                  && done + remaining == len == Min(|data|, totalLen - start)
        invariant |flat| == totalLen == |Flat(bufs)| && |bufs| == |old(bufs)|
        invariant Flat(bufs) == Patch(flat, start, data[..done])
        invariant Clear(bad, start, done) == done
        decreases |bufs| - idx, remaining
      {
        var left := Skip(0);
        Position();
        var current := Min(|bufs[idx]| - off, remaining);
        ClearOn(bad, start, done, current, remaining);
        var k := Clear(bad, totalOffset, current);
        WritePiece(data[done..done + k]);
        PatchNext(flat, start, data, done, k);
        if k < current {
          left := SetOffset(start);
          return None;
        }
        left := Skip(current);
        remaining := remaining - current;
        done := done + current;
        Position();
        if totalOffset == totalLen || remaining == 0 {
          break;
        }
      }
      r := Some(done);
    }

    /** A piece of the current buffer is overwritten. */
    method WritePiece(piece: seq<Byte>)
      requires Valid() && off + |piece| <= |bufs[idx]|
      modifies this`bufs
      ensures Valid() && |bufs| == |old(bufs)| && |bufs[idx]| == |old(bufs)[idx]|
      ensures totalOffset + |piece| <= |Flat(old(bufs))| && Flat(bufs) == Patch(Flat(old(bufs)), totalOffset, piece)
    {
      hide Flat, Patch;
      Position();
      var b := Patch(bufs[idx], off, piece);
      FlatSplit(bufs, idx, b);
      PatchOf(Flat(bufs[..idx]), bufs[idx], Flat(bufs[idx + 1..]), off, piece);
      assert bufs[idx := b][..idx] == bufs[..idx];
      bufs := bufs[idx := b];
    }

    lemma Position()
      requires Valid()
      ensures idx < |bufs| && off <= |bufs[idx]| && totalLen == |Flat(bufs)| && totalOffset <= totalLen
      ensures totalOffset == |Flat(bufs[..idx])| + off
      ensures Flat(bufs) == Flat(bufs[..idx]) + bufs[idx] + Flat(bufs[idx + 1..])
    {
      FlatAt(bufs, idx);
    }
  }

  lemma ClearNone(bad: set<nat>, at: nat)
    ensures Clear(bad, at, 0) == 0
  {
  }

  lemma PatchNone(flat: seq<Byte>, start: nat, data: seq<Byte>)
    requires start <= |flat|
    ensures Patch(flat, start, data[..0]) == flat
  {
  }

  lemma PatchNext(flat: seq<Byte>, start: nat, data: seq<Byte>, done: nat, n: nat)
    requires done + n <= |data| && start + done + n <= |flat|
    ensures Patch(Patch(flat, start, data[..done]), start + done, data[done..done + n]) ==
              Patch(flat, start, data[..done + n])
  {
  }

  // ----- the pipe

  datatype Endpoint = Endpoint(readable: bool, writable: bool)

  datatype Outcome = Done(n: nat) | WouldBlock | Broken | Fault

  class PipeBuffer {
    const ring: RingBuffer
    var readers: nat
    var writers: nat
    /** The endpoints that are open, the bytes accepted, the bytes taken out of the ring, and those that
        reached a reader. */
    ghost var open: multiset<Endpoint>
    ghost var accepted: seq<Byte>
    ghost var taken: seq<Byte>
    ghost var delivered: seq<Byte>

    ghost predicate Valid()
      reads this, ring, ring.buf
    {
      && ring.Valid() && taken + ring.Contents() == accepted
      && readers == open[Endpoint(true, true)] + open[Endpoint(true, false)]
      && writers == open[Endpoint(true, true)] + open[Endpoint(false, true)]
    }

    constructor (capacity: nat)
      requires capacity > 0
      ensures Valid() && fresh(ring) && fresh(ring.buf) && ring.buf.Length == capacity
      ensures accepted == [] && delivered == taken == [] && open == multiset{}
    {
      ring := new RingBuffer(capacity);
      readers, writers := 0, 0;
      open, accepted, taken, delivered := multiset{}, [], [], [];
    }

    /** `register_endpoint`. */
    method Register(e: Endpoint)
      requires Valid()
      modifies this`readers, this`writers, this`open
      ensures Valid() && open == old(open) + multiset{e}
    {
      if e.readable {
        readers := readers + 1;
      }
      if e.writable {
        writers := writers + 1;
      }
      open := open + multiset{e};
    }

    /** The drop of an endpoint. */
    method Close(e: Endpoint)
      requires Valid() && e in open
      modifies this`readers, this`writers, this`open
      ensures Valid() && open == old(open) - multiset{e}
    {
      if e.readable {
        readers := readers - 1;
      }
      if e.writable {
        writers := writers - 1;
      }
      open := open - multiset{e};
    }

    /** One turn of the loop in `read`.  The oldest bytes leave the pipe for the front of the user's buffers.  An
        empty pipe is the end of the file exactly when no writer is open.  The read fails exactly when one of
        those bytes cannot be written; they have left the pipe then and reach nobody. */
    method Read(iov: IovecIter, bad: set<nat>) returns (r: Outcome)
      requires Valid() && iov.Valid() && iov.totalOffset == 0
      modifies this`taken, this`delivered, ring`readCursor, iov
      ensures Valid() && iov.Valid() && accepted == old(accepted)
      ensures var v := old(ring.Contents())[..Min(iov.totalLen, |old(ring.Contents())|)];
              && taken == old(taken) + v
              && (r == Fault <==> exists x :: 0 <= x < |v| && x in bad)
              && (r == WouldBlock <==> v == [] && iov.totalLen > 0 && writers > 0)
              && r == (if r == Fault || r == WouldBlock then r else Done(|v|))
              && delivered == old(delivered) + (if r == Fault then [] else v)
              && (r != Fault ==> |v| <= |Flat(old(iov.bufs))| && Flat(iov.bufs) == Patch(Flat(old(iov.bufs)), 0, v))
      ensures old(delivered == taken) ==> (delivered == taken <==> r != Fault)
    {
      hide Flat, Patch, Held, Clear;
      iov.Position();
      if iov.totalLen == 0 {
        PatchAll(Flat(iov.bufs), ring.Contents());
        assert taken == taken + ring.Contents()[..0] && delivered == delivered + ring.Contents()[..0];
        return Done(0);
      }
      var v := ring.Read(iov.totalLen);
      assert (taken + v) + ring.Contents() == taken + old(ring.Contents());
      taken := taken + v;
      ClearIs(bad, 0, |v|);
      var n := iov.CopyFromSlice(v, bad);
      if n == None {
        assert delivered == delivered + [];
        return Fault;
      }
      assert v[..|v|] == v;
      delivered := delivered + v;
      if |v| > 0 || writers == 0 {
        return Done(|v|);
      }
      r := WouldBlock;
    }

    /** One turn of the loop in `write`.  The first bytes of the user's buffers, as far as they fit, join the
        end of the pipe. */
    method Write(iov: IovecIter, bad: set<nat>) returns (r: Outcome)
      requires Valid() && iov.Valid() && iov.totalOffset == 0
      modifies this`accepted, ring`writeCursor, ring.buf, iov`totalOffset, iov`idx, iov`off
      ensures Valid() && iov.Valid() && taken == old(taken) && delivered == old(delivered)
      ensures r == Broken <==> iov.totalLen > 0 && readers == 0
      ensures var n := Min(iov.totalLen, old(ring.AvailableLen()));
              && (r == Fault <==> readers > 0 && exists x :: 0 <= x < n && x in bad)
              && (r == WouldBlock <==> iov.totalLen > 0 && readers > 0 && old(ring.AvailableLen()) == 0)
              && (r.Done? ==> r.n == n)
              && n <= |Flat(iov.bufs)| && accepted == old(accepted) + (if r.Done? then Flat(iov.bufs)[..n] else [])
    {
      hide Flat, Held, Clear;
      iov.Position();
      if iov.totalLen == 0 {
        assert accepted + Flat(iov.bufs)[..0] == accepted;
        return Done(0);
      }
      if readers == 0 {
        assert accepted + [] == accepted;
        return Broken;
      }
      var n := Min(iov.totalLen, ring.AvailableLen());
      ClearIs(bad, 0, n);
      var v := iov.CopyToSlice(n, bad);
      if v == None {
        assert accepted + [] == accepted;
        return Fault;
      }
      var len := ring.Write(v.value);
      assert v.value[..len] == v.value;
      assert taken + (old(ring.Contents()) + v.value) == accepted + v.value;
      accepted := accepted + v.value;
      if len > 0 {
        return Done(len);
      }
      r := WouldBlock;
    }
  }

  lemma PatchAll(flat: seq<Byte>, data: seq<Byte>)
    ensures Patch(flat, 0, data[..0]) == flat && data == data[..0] + data
  {
  }

  /** A byte goes into a pipe.  The read that takes it cannot write it, and the next one finds the pipe empty. */
  method BytesLost() returns (put: Outcome, first: Outcome, second: Outcome)
    ensures put == Done(1) && first == Fault && second == WouldBlock
  {
    hide Flat, Patch, Held;
    var seven: seq<Byte>, zero: seq<Byte> := [7], [0];
    FlatOne(seven);
    FlatOne(zero);
    var p := new PipeBuffer(2);
    p.Register(Endpoint(true, true));
    assert p.open[Endpoint(true, true)] == 1;
    assert p.ring.Contents() == [] by {
      assert p.taken + p.ring.Contents() == p.ring.Contents();
    }
    var from := new IovecIter([seven]);
    put := p.Write(from, {});
    assert p.accepted == [] + seven[..1] == seven;
    assert p.ring.Contents() == seven by {
      assert p.taken + p.ring.Contents() == p.ring.Contents();
    }
    var into := new IovecIter([zero]);
    first := p.Read(into, {0});
    assert p.ring.Contents() == [] by {
      assert p.taken == seven && p.accepted == seven;
    }
    var again := new IovecIter([zero]);
    second := p.Read(again, {});
  }
}
