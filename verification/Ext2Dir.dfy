/**
  Directory blocks of ext2 (`drivers/fs/ext2/src/inode.rs`): every block is tiled by records that carry
  their own length.  Listing, adding and removing entries work on the bytes; they are proved against the
  list of records that the bytes spell out.
  */
module Ext2Dir {
  import opened Common
  import opened Ext2Layout
  import Arith

  const HEADER: nat := 8
  const U16: nat := 0x1_0000

  /** One record; `ino` zero marks a dead one, whose name and type mean nothing. */
  datatype Rec = Rec(len: nat, ino: nat, kind: Byte, name: seq<Byte>)

  datatype Entry = Entry(ino: nat, kind: Byte, name: seq<Byte>)

  // ----- bytes

  function Le16(lo: Byte, hi: Byte): nat {
    var l: int, h: int := lo, hi;
    l + 0x100 * h
  }

  function InoAt(b: seq<Byte>, p: nat): nat
    requires p + HEADER <= |b|
  {
    Word(b[p..p + 4], 0)
  }

  function LenAt(b: seq<Byte>, p: nat): nat
    requires p + HEADER <= |b|
  {
    Le16(b[p + 4], b[p + 5])
  }

  /** The record at `p` of a block reads as `r`, and it has room for its own name. */
  predicate RecAt(b: seq<Byte>, p: nat, r: Rec) {
    && HEADER <= r.len < U16 && r.len % 4 == 0 && p + r.len <= |b|
    && LenAt(b, p) == r.len && InoAt(b, p) == r.ino
    && (r.ino != 0 ==>
          && HEADER + |r.name| <= r.len && |r.name| == b[p + 6] && r.kind == b[p + 7]
          && b[p + HEADER..p + HEADER + |r.name|] == r.name)
  }

  /** The bytes from `p` to `e` are tiled by the records `rs`. */
  predicate Laid(b: seq<Byte>, p: nat, rs: seq<Rec>, e: nat)
    decreases |rs|
  {
    if rs == [] then p == e
    else RecAt(b, p, rs[0]) && Laid(b, p + rs[0].len, rs[1..], e)
  }

  /** What a listing shows of a block. */
  function Entries(rs: seq<Rec>): seq<Entry> {
    if rs == [] then [] else Shown(rs[0]) + Entries(rs[1..])
  }

  function Shown(r: Rec): seq<Entry> {
    if r.ino != 0 && r.name != [] then [Entry(r.ino, r.kind, r.name)] else []
  }

  lemma {:induction false} EntriesConcat(a: seq<Rec>, b: seq<Rec>)
    ensures Entries(a + b) == Entries(a) + Entries(b)
  {
    hide Shown;
    if a == [] {
      assert a + b == b;
    } else {
      EntriesConcat(a[1..], b);
      assert (a + b)[1..] == a[1..] + b && (a + b)[0] == a[0];
      var x, y, z := Shown(a[0]), Entries(a[1..]), Entries(b);
      assert Entries(a + b) == x + (y + z) == (x + y) + z;
    }
  }

  function Total(rs: seq<Rec>): nat {
    if rs == [] then 0 else rs[0].len + Total(rs[1..])
  }

  lemma {:induction false} LaidConcat(b: seq<Byte>, p: nat, r: seq<Rec>, s: seq<Rec>, e: nat)
    ensures Laid(b, p, r + s, e) <==> Laid(b, p, r, p + Total(r)) && Laid(b, p + Total(r), s, e)
    decreases |r|
  {
    if r == [] {
      assert r + s == s;
    } else {
      LaidConcat(b, p + r[0].len, r[1..], s, e);
      assert (r + s)[1..] == r[1..] + s;
    }
  }

  lemma {:induction false} LaidEnd(b: seq<Byte>, p: nat, r: seq<Rec>, e: nat)
    requires Laid(b, p, r, e) && p <= |b|
    ensures e == p + Total(r) <= |b|
    decreases |r|
  {
    if r != [] {
      LaidEnd(b, p + r[0].len, r[1..], e);
    }
  }

  ghost predicate Agree(b: seq<Byte>, c: seq<Byte>, p: nat, e: nat) {
    |b| == |c| && e <= |b| && forall i :: p <= i < e ==> b[i] == c[i]
  }

  /** Records do not depend on bytes outside them. */
  lemma {:induction false} LaidFrame(b: seq<Byte>, c: seq<Byte>, p: nat, r: seq<Rec>, e: nat)
    requires Laid(b, p, r, e) && Agree(b, c, p, e) && p <= |b|
    ensures Laid(c, p, r, e)
    decreases |r|
  {
    if r != [] {
      LaidEnd(b, p, r, e);
      RecFrame(b, c, p, r[0]);
      LaidFrame(b, c, p + r[0].len, r[1..], e);
    }
  }

  lemma RecFrame(b: seq<Byte>, c: seq<Byte>, p: nat, r: Rec)
    requires RecAt(b, p, r) && Agree(b, c, p, p + r.len)
    ensures RecAt(c, p, r)
  {
    assert b[p..p + 4] == c[p..p + 4];
    if r.ino != 0 {
      assert b[p + HEADER..p + HEADER + |r.name|] == c[p + HEADER..p + HEADER + |r.name|];
    }
  }

  /** Replacing the records from `i` up to `j` by others that fill the same bytes. */
  lemma Relaid(b: seq<Byte>, c: seq<Byte>, rs: seq<Rec>, i: nat, j: nat, mid: seq<Rec>)
    requires Laid(b, 0, rs, |b|) && i <= j <= |rs| && |c| == |b|
    requires Agree(b, c, 0, Total(rs[..i])) && Agree(b, c, Total(rs[..j]), |b|)
    requires Laid(c, Total(rs[..i]), mid, Total(rs[..j]))
    ensures Laid(c, 0, rs[..i] + mid + rs[j..], |c|)
  {
    hide Laid, RecAt, Total, Agree;
    Prefix(b, rs, i);
    Prefix(b, rs, j);
    Rejoined(b, c, Total(rs[..i]), Total(rs[..j]), rs[..i], mid, rs[j..]);
  }

  lemma Prefix(b: seq<Byte>, rs: seq<Rec>, i: nat)
    requires Laid(b, 0, rs, |b|) && i <= |rs|
    ensures Laid(b, 0, rs[..i], Total(rs[..i])) && Laid(b, Total(rs[..i]), rs[i..], |b|) && Total(rs[..i]) <= |b|
  {
    hide Laid, RecAt, Total;
    assert rs == rs[..i] + rs[i..];
    LaidConcat(b, 0, rs[..i], rs[i..], |b|);
    LaidEnd(b, 0, rs[..i], Total(rs[..i]));
  }

  lemma Rejoined(b: seq<Byte>, c: seq<Byte>, p: nat, q: nat, front: seq<Rec>, mid: seq<Rec>, back: seq<Rec>)
    requires Laid(b, 0, front, p) && Laid(b, q, back, |b|) && |c| == |b| && p <= |b| && q <= |b|
    requires Agree(b, c, 0, p) && Agree(b, c, q, |b|) && Laid(c, p, mid, q)
    ensures Laid(c, 0, front + mid + back, |c|)
  {
    hide Laid, RecAt, Total, Agree;
    LaidEnd(b, 0, front, p);
    LaidEnd(c, p, mid, q);
    LaidFrame(b, c, 0, front, p);
    LaidFrame(b, c, q, back, |b|);
    LaidConcat(c, p, mid, back, |c|);
    LaidConcat(c, 0, front, mid + back, |c|);
    assert front + mid + back == front + (mid + back);
  }

  lemma Part(b: seq<Byte>, rs: seq<Rec>, k: nat)
    requires Laid(b, 0, rs, |b|) && k < |rs|
    ensures RecAt(b, Total(rs[..k]), rs[k])
    ensures Laid(b, 0, rs[..k], Total(rs[..k])) && Laid(b, Total(rs[..k]) + rs[k].len, rs[k + 1..], |b|)
  {
    hide Laid, RecAt, Total;
    var p := Total(rs[..k]);
    assert rs == rs[..k] + rs[k..] && rs[k..][1..] == rs[k + 1..];
    LaidConcat(b, 0, rs[..k], rs[k..], |b|);
    LaidHead(b, p, rs[k..], |b|);
  }

  lemma LaidHead(b: seq<Byte>, p: nat, rs: seq<Rec>, e: nat)
    requires rs != []
    ensures Laid(b, p, rs, e) <==> RecAt(b, p, rs[0]) && Laid(b, p + rs[0].len, rs[1..], e)
  {
  }

  /** Where record `k` starts, and that there is one exactly when the block is not used up. */
  lemma Bound(b: seq<Byte>, rs: seq<Rec>, k: nat)
    requires Laid(b, 0, rs, |b|) && k <= |rs|
    ensures Total(rs[..k]) + (if k < |rs| then rs[k].len else 0) <= |b|
    ensures k < |rs| <==> Total(rs[..k]) + HEADER <= |b|
    ensures k == |rs| ==> Total(rs[..k]) == |b|
    ensures k < |rs| ==> Total(rs[..k + 1]) == Total(rs[..k]) + rs[k].len
    ensures k == 0 ==> Total(rs[..k]) == 0
  {
    hide Laid, RecAt, Total;
    NoRecords(rs);
    if k == |rs| {
      assert rs[..k] == rs;
      LaidEnd(b, 0, rs, |b|);
    } else {
      Part(b, rs, k);
      RecBound(b, Total(rs[..k]), rs[k]);
      TotalNext(rs, k);
    }
  }

  lemma NoRecords(rs: seq<Rec>)
    ensures Total(rs[..0]) == 0
  {
  }

  lemma TotalNext(rs: seq<Rec>, k: nat)
    requires k < |rs|
    ensures Total(rs[..k + 1]) == Total(rs[..k]) + rs[k].len
  {
    TotalConcat(rs[..k], [rs[k]]);
    assert rs[..k + 1] == rs[..k] + [rs[k]];
  }

  lemma RecBound(b: seq<Byte>, p: nat, r: Rec)
    requires RecAt(b, p, r)
    ensures p + HEADER <= p + r.len <= |b|
  {
  }

  lemma {:induction false} TotalConcat(r: seq<Rec>, s: seq<Rec>)
    ensures Total(r + s) == Total(r) + Total(s)
  {
    if r == [] {
      assert r + s == s;
    } else {
      TotalConcat(r[1..], s);
      assert (r + s)[1..] == r[1..] + s;
    }
  }

  // ----- writing bytes

  function Overlay(b: seq<Byte>, at: nat, data: seq<Byte>): seq<Byte>
    requires at + |data| <= |b|
  {
    b[..at] + data + b[at + |data|..]
  }

  function HeaderBytes(ino: nat, len: nat, nameLen: Byte, kind: Byte): seq<Byte>
    requires len < U16
  {
    LeBytes(ino) + [len % 0x100, len / 0x100, nameLen, kind]
  }

  /** `copy_from_slice`. */
  method Store(buf: array<Byte>, at: nat, data: seq<Byte>)
    requires at + |data| <= buf.Length
    modifies buf
    ensures buf[..] == Overlay(old(buf[..]), at, data)
  {
    forall i | 0 <= i < |data| {
      buf[at + i] := data[i];
    }
  }

  /** What is kept of a name: its length is cut to one byte. */
  function Stored(name: seq<Byte>): seq<Byte> {
    name[..|name| % 0x100]
  }

  /** A header followed by the name reads back as the record. */
  lemma Written(b: seq<Byte>, p: nat, len: nat, ino: nat, kind: Byte, name: seq<Byte>)
    requires HEADER + |name| <= len < U16 && len % 4 == 0 && p + len <= |b| && 0 < ino < WORD
    ensures var c := Overlay(b, p, HeaderBytes(ino, len, |name| % 0x100, kind));
            var d := Overlay(c, p + HEADER, name);
            RecAt(d, p, Rec(len, ino, kind, Stored(name))) && Agree(b, d, 0, p) && Agree(b, d, p + len, |b|)
  {
    var h := HeaderBytes(ino, len, |name| % 0x100, kind);
    var d := Overlay(Overlay(b, p, h), p + HEADER, name);
    assert d[p..p + 4] == h[..4] == LeBytes(ino);
    assert d[p + 4] == h[4] && d[p + 5] == h[5] && d[p + 6] == h[6] && d[p + 7] == h[7];
    assert d[p + HEADER..p + HEADER + |Stored(name)|] == Stored(name);
  }

  // ----- one block

  function InoOf(buf: array<Byte>, p: nat): (r: nat)
    requires p + HEADER <= buf.Length
    reads buf
    ensures r == InoAt(buf[..], p)
  {
    assert buf[..][p..p + 4] == buf[p..p + 4];
    Word(buf[p..p + 4], 0)
  }

  function LenOf(buf: array<Byte>, p: nat): (r: nat)
    requires p + HEADER <= buf.Length
    reads buf
    ensures r == LenAt(buf[..], p)
  {
    Le16(buf[p + 4], buf[p + 5])
  }

  /** What the code reads of record `k`. */
  lemma Fields(buf: array<Byte>, rs: seq<Rec>, k: nat)
    requires Laid(buf[..], 0, rs, buf.Length) && k < |rs|
    ensures var p := Total(rs[..k]);
            && p + HEADER <= p + rs[k].len <= buf.Length && HEADER <= rs[k].len < U16 && rs[k].len % 4 == 0
            && LenOf(buf, p) == rs[k].len && InoOf(buf, p) == rs[k].ino
            && (rs[k].ino != 0 ==>
                  && HEADER + |rs[k].name| <= rs[k].len && |rs[k].name| == buf[p + 6] && rs[k].kind == buf[p + 7]
                  && buf[p + HEADER..p + HEADER + |rs[k].name|] == rs[k].name)
  {
    hide Laid, Total;
    Part(buf[..], rs, k);
    var p := Total(rs[..k]);
    if rs[k].ino != 0 {
      assert buf[..][p + HEADER..p + HEADER + |rs[k].name|] == buf[p + HEADER..p + HEADER + |rs[k].name|];
    }
  }

  /** What a listing reads from position `p` on, whatever the bytes are. */
  function Listed(b: seq<Byte>, p: nat): seq<Entry>
    decreases |b| - p
  {
    if p + HEADER <= |b| && LenAt(b, p) != 0 then ListedAt(b, p) + Listed(b, p + LenAt(b, p)) else []
  }

  /** The same in a directory that ends at `limit`. */
  function ListedTo(b: seq<Byte>, p: nat, limit: int): seq<Entry>
    decreases |b| - p
  {
    if p + HEADER <= |b| && p < limit && LenAt(b, p) != 0
    then ListedAt(b, p) + ListedTo(b, p + LenAt(b, p), limit) else []
  }

  function ListedAt(b: seq<Byte>, p: nat): seq<Entry>
    requires p + HEADER <= |b|
  {
    var n: int := b[p + 6];
    if InoAt(b, p) != 0 && n > 0 && p + HEADER + n <= |b|
    then [Entry(InoAt(b, p), b[p + 7], b[p + HEADER..p + HEADER + n])] else []
  }

  /** A tiled block lists exactly its live records. */
  lemma {:induction false} LaidListed(b: seq<Byte>, p: nat, rs: seq<Rec>)
    requires Laid(b, p, rs, |b|)
    ensures Listed(b, p) == Entries(rs)
    decreases |rs|
  {
    hide Listed, ListedAt, RecAt, Shown;
    ListedStep(b, p);
    if rs != [] {
      LaidListed(b, p + rs[0].len, rs[1..]);
      RecListed(b, p, rs[0]);
    }
  }

  lemma RecListed(b: seq<Byte>, p: nat, r: Rec)
    requires RecAt(b, p, r)
    ensures p + HEADER <= |b| && LenAt(b, p) == r.len != 0 && ListedAt(b, p) == Shown(r)
  {
  }

  /** The loop of `read_dir_entries` over one block. */
  method ListBlock(buf: array<Byte>, offset: nat, dirSize: nat) returns (out: seq<Entry>)
    ensures out == ListedTo(buf[..], 0, dirSize - offset)
    ensures offset + buf.Length <= dirSize ==> out == Listed(buf[..], 0)
  {
    hide Listed, ListedTo, ListedAt, Word, LenAt;
    out := [];
    var pos := 0;
    ghost var b, limit := buf[..], dirSize - offset;
    while pos + HEADER <= buf.Length && offset + pos < dirSize
      invariant ListedTo(b, 0, limit) == out + ListedTo(b, pos, limit)
      decreases buf.Length - pos
    {
      ListedToStep(b, pos, limit);
      var len := LenOf(buf, pos);
      if len == 0 {
        break;
      }
      var e := ReadRecord(buf, pos);
      InARow(out, e, ListedTo(b, pos + len, limit));
      out := out + e;
      pos := pos + len;
    }
    ListedToStep(b, pos, limit);
    if offset + buf.Length <= dirSize {
      ListedWhole(b, 0, limit);
    }
  }

  lemma InARow(a: seq<Entry>, b: seq<Entry>, c: seq<Entry>)
    ensures a + (b + c) == (a + b) + c
  {
  }

  lemma ListedToStep(b: seq<Byte>, p: nat, limit: int)
    ensures p + HEADER > |b| || p >= limit ==> ListedTo(b, p, limit) == []
    ensures p + HEADER <= |b| && p < limit ==>
              ListedTo(b, p, limit) ==
              if LenAt(b, p) == 0 then [] else ListedAt(b, p) + ListedTo(b, p + LenAt(b, p), limit)
  {
  }

  /** A directory that ends after the block cuts nothing off. */
  lemma {:induction false} ListedWhole(b: seq<Byte>, p: nat, limit: int)
    requires limit >= |b|
    ensures ListedTo(b, p, limit) == Listed(b, p)
    decreases |b| - p
  {
    hide Listed, ListedTo, ListedAt, LenAt;
    ListedStep(b, p);
    ListedToStep(b, p, limit);
    if p + HEADER <= |b| && LenAt(b, p) != 0 {
      ListedWhole(b, p + LenAt(b, p), limit);
    }
  }

  lemma ListedStep(b: seq<Byte>, p: nat)
    ensures p + HEADER > |b| ==> Listed(b, p) == []
    ensures p + HEADER <= |b| ==>
              Listed(b, p) == if LenAt(b, p) == 0 then [] else ListedAt(b, p) + Listed(b, p + LenAt(b, p))
  {
  }

  /** The entry that the listing takes from the record at `pos`, if any. */
  method ReadRecord(buf: array<Byte>, pos: nat) returns (e: seq<Entry>)
    requires pos + HEADER <= buf.Length
    ensures e == ListedAt(buf[..], pos)
  {
    e := [];
    if InoOf(buf, pos) != 0 && buf[pos + 6] > 0 {
      var n: int := buf[pos + 6];
      var nameEnd := pos + HEADER + n;
      if nameEnd <= buf.Length {
        assert buf[pos + HEADER..nameEnd] == buf[..][pos + HEADER..nameEnd];
        e := [Entry(InoOf(buf, pos), buf[pos + 7], buf[pos + HEADER..nameEnd])];
      }
    }
  }

  lemma NoEntries(rs: seq<Rec>)
    ensures rs[..0] == [] && Entries(rs[..0]) == []
  {
  }

  /** The least record length that holds a name of `n` bytes. */
  function Need(n: nat): (r: nat)
    ensures r % 4 == 0 && HEADER + n <= r < HEADER + n + 4
  {
    (HEADER + n + 3) / 4 * 4
  }

  /** How much of its length a record could give up. */
  function Room(r: Rec): int {
    if r.ino != 0 then r.len - Need(|r.name|) else r.len
  }

  /** The records after adding an entry at record `k`: a live one is split, a dead one is reused. */
  function Put(rs: seq<Rec>, k: nat, ino: nat, kind: Byte, name: seq<Byte>): seq<Rec>
    requires k < |rs| && Need(|name|) <= Room(rs[k])
  {
    rs[..k] + PutAt(rs[k], ino, kind, name) + rs[k + 1..]
  }

  function PutAt(r: Rec, ino: nat, kind: Byte, name: seq<Byte>): seq<Rec>
    requires Need(|name|) <= Room(r)
  {
    if r.ino != 0
    then [r.(len := Need(|r.name|)), Rec(r.len - Need(|r.name|), ino, kind, Stored(name))]
    else [Rec(r.len, ino, kind, Stored(name))]
  }

  /** Adding shows the new entry and loses none; the name shown is the one given exactly when its length
      fits a byte. */
  lemma PutShows(rs: seq<Rec>, k: nat, ino: nat, kind: Byte, name: seq<Byte>)
    requires k < |rs| && Need(|name|) <= Room(rs[k]) && ino != 0
    ensures var at := |Entries(rs[..k])| + (if rs[k].ino != 0 then |Shown(rs[k])| else 0);
            && at <= |Entries(rs)|
            && Entries(Put(rs, k, ino, kind, name)) == Entries(rs)[..at] + ShownAs(ino, kind, name) + Entries(rs)[at..]
  {
    hide Entries, Room, Need;
    var r := rs[k];
    var rest := rs[k + 1..];
    assert rs == rs[..k] + [r] + rest;
    EntriesConcat(rs[..k] + [r], rest);
    EntriesConcat(rs[..k], [r]);
    EntriesConcat(rs[..k] + PutAt(r, ino, kind, name), rest);
    EntriesConcat(rs[..k], PutAt(r, ino, kind, name));
    EntriesOne(r);
    EntriesPut(r, ino, kind, name);
  }

  lemma EntriesOne(r: Rec)
    ensures Entries([r]) == Shown(r)
  {
  }

  lemma EntriesPut(r: Rec, ino: nat, kind: Byte, name: seq<Byte>)
    requires Need(|name|) <= Room(r) && ino != 0
    ensures Entries(PutAt(r, ino, kind, name)) == (if r.ino != 0 then Shown(r) else []) + ShownAs(ino, kind, name)
  {
    hide Need;
    if r.ino != 0 {
      var a, b := r.(len := Need(|r.name|)), Rec(r.len - Need(|r.name|), ino, kind, Stored(name));
      EntriesConcat([a], [b]);
      assert [a, b] == [a] + [b];
      EntriesOne(a);
      EntriesOne(b);
    } else {
      EntriesOne(Rec(r.len, ino, kind, Stored(name)));
    }
  }

  function ShownAs(ino: nat, kind: Byte, name: seq<Byte>): seq<Entry> {
    if |name| % 0x100 == 0 then [] else [Entry(ino, kind, Stored(name))]
  }

  lemma ShownWhole(ino: nat, kind: Byte, name: seq<Byte>)
    ensures ShownAs(ino, kind, name) == [Entry(ino, kind, name)] <==> 0 < |name| < 0x100
  {
    if |name| % 0x100 != 0 && Entry(ino, kind, Stored(name)) == Entry(ino, kind, name) {
      assert |Stored(name)| == |name|;
    }
  }

  /** The record where `add_entry` puts the entry: the first with enough room. */
  predicate FirstRoom(rs: seq<Rec>, k: nat, need: nat) {
    k < |rs| && need <= Room(rs[k]) && forall i :: 0 <= i < k ==> Room(rs[i]) < need
  }

  /** The loop of `add_entry` over one block. */
  method AddInBlock(buf: array<Byte>, ino: nat, kind: Byte, name: seq<Byte>, ghost rs: seq<Rec>)
    returns (done: bool, ghost k: nat)
    requires Laid(buf[..], 0, rs, buf.Length) && 0 < ino < WORD
    modifies buf
    ensures !done ==> buf[..] == old(buf[..]) && forall i :: 0 <= i < |rs| ==> Room(rs[i]) < Need(|name|)
    ensures done ==> FirstRoom(rs, k, Need(|name|)) && Laid(buf[..], 0, Put(rs, k, ino, kind, name), buf.Length)
  {
    hide Laid, Total, Word, Put, Room, RecAt;
    var needed := Need(|name|);
    var pos := 0;
    k := 0;
    done := false;
    Bound(buf[..], rs, 0);
    while pos + HEADER <= buf.Length
      invariant k <= |rs| && pos == Total(rs[..k]) && buf[..] == old(buf[..])
      invariant forall i :: 0 <= i < k ==> Room(rs[i]) < needed
      decreases |rs| - k
    {
      Bound(buf[..], rs, k);
      Fields(buf, rs, k);
      RoomIs(rs[k]);
      var len, was := LenOf(buf, pos), InoOf(buf, pos);
      if len == 0 {
        break;
      }
      var nameLen: int := buf[pos + 6];
      var actual := if was != 0 then Need(nameLen) else 0;
      if len - actual >= needed {
        done := true;
        Part(buf[..], rs, k);
        PutEntry(buf, pos, actual, len, ino, kind, name, rs, k);
        return;
      }
      pos := pos + len;
      k := k + 1;
      Bound(buf[..], rs, k);
    }
    Bound(buf[..], rs, k);
  }

  lemma RoomIs(r: Rec)
    ensures Room(r) == if r.ino != 0 then r.len - Need(|r.name|) else r.len
  {
  }

  /** The bytes written by `add_entry`. */
  method PutEntry(buf: array<Byte>, pos: nat, actual: nat, len: nat, ino: nat, kind: Byte, name: seq<Byte>,
                  ghost rs: seq<Rec>, ghost k: nat)
    requires Laid(buf[..], 0, rs, buf.Length) && k < |rs| && pos == Total(rs[..k]) && 0 < ino < WORD
    requires RecAt(buf[..], pos, rs[k])
    requires len == rs[k].len && actual == (if rs[k].ino != 0 then Need(|rs[k].name|) else 0)
    requires Need(|name|) <= Room(rs[k])
    modifies buf
    ensures Laid(buf[..], 0, Put(rs, k, ino, kind, name), buf.Length)
  {
    hide Laid, Total, Word, RecAt, Overlay, HeaderBytes, Put, Room, PutAt;
    Bound(buf[..], rs, k);
    Part(buf[..], rs, k);
    Fields(buf, rs, k);
    RoomIs(rs[k]);
    ghost var b := buf[..];
    if actual != 0 {
      SetLen(buf, pos, actual);
    }
    ghost var c := buf[..];
    var header := HeaderBytes(ino, len - actual, |name| % 0x100, kind);
    HeaderLength(ino, len - actual, |name| % 0x100, kind);
    Store(buf, pos + actual, header);
    OverlayLength(c, pos + actual, header);
    Store(buf, pos + actual + HEADER, name);
    PutBytes(b, pos, rs[..k], rs[k], rs[k + 1..], actual, ino, kind, name);
    PutIs(rs, k, ino, kind, name);
  }

  lemma PutIs(rs: seq<Rec>, k: nat, ino: nat, kind: Byte, name: seq<Byte>)
    requires k < |rs| && Need(|name|) <= Room(rs[k])
    ensures Put(rs, k, ino, kind, name) == rs[..k] + PutAt(rs[k], ino, kind, name) + rs[k + 1..]
  {
  }

  lemma HeaderLength(ino: nat, len: nat, nameLen: Byte, kind: Byte)
    requires len < U16
    ensures |HeaderBytes(ino, len, nameLen, kind)| == HEADER
  {
  }

  lemma OverlayLength(b: seq<Byte>, at: nat, data: seq<Byte>)
    requires at + |data| <= |b|
    ensures |Overlay(b, at, data)| == |b|
  {
  }

  /** The two bytes of a length rewritten. */
  function Relen(b: seq<Byte>, pos: nat, len: nat): (r: seq<Byte>)
    requires pos + HEADER <= |b| && len < U16
    ensures |r| == |b|
  {
    b[pos + 4 := len % 0x100][pos + 5 := len / 0x100]
  }

  lemma PutBytes(b: seq<Byte>, pos: nat, front: seq<Rec>, r: Rec, back: seq<Rec>, actual: nat, ino: nat, kind: Byte,
      name: seq<Byte>)
    requires Laid(b, 0, front, pos) && RecAt(b, pos, r) && Laid(b, pos + r.len, back, |b|)
    requires 0 < ino < WORD && pos + r.len <= |b| && r.len < U16
    requires actual == (if r.ino != 0 then Need(|r.name|) else 0) && Need(|name|) <= Room(r)
    ensures var c := if actual != 0 then Relen(b, pos, actual) else b;
            var d := Overlay(Overlay(c, pos + actual, HeaderBytes(ino, r.len - actual, |name| % 0x100, kind)),
                pos + actual + HEADER, name);
            Laid(d, 0, front + PutAt(r, ino, kind, name) + back, |b|) && |d| == |b|
  {
    hide Laid, Total, Word, RecAt, Overlay, HeaderBytes, Agree, Relen;
    var len := r.len;
    var header := HeaderBytes(ino, len - actual, |name| % 0x100, kind);
    HeaderLength(ino, len - actual, |name| % 0x100, kind);
    RecBound(b, pos, r);
    var c := if actual != 0 then Relen(b, pos, actual) else b;
    OverlayLength(c, pos + actual, header);
    OverlayLength(Overlay(c, pos + actual, header), pos + actual + HEADER, name);
    var d := Overlay(Overlay(c, pos + actual, header), pos + actual + HEADER, name);
    Aligned(b, pos, r);
    Written(c, pos + actual, len - actual, ino, kind, name);
    Outer(b, c, d, pos, actual, len);
    if actual != 0 {
      Shrunk(b, c, d, pos, r, actual);
    }
    Tile(d, pos, PutAt(r, ino, kind, name), len);
    Rejoined(b, d, pos, pos + len, front, PutAt(r, ino, kind, name), back);
  }

  lemma Outer(b: seq<Byte>, c: seq<Byte>, d: seq<Byte>, pos: nat, actual: nat, len: nat)
    requires pos + HEADER <= pos + len <= |b| && len < U16
              && (if actual != 0 then HEADER <= actual <= len && c == Relen(b, pos, actual) else c == b)
    requires Agree(c, d, 0, pos + actual) && Agree(c, d, pos + len, |b|)
    ensures Agree(b, d, 0, pos) && Agree(b, d, pos + len, |b|) && Agree(c, d, pos, pos + actual)
  {
  }

  lemma Aligned(b: seq<Byte>, p: nat, r: Rec)
    requires RecAt(b, p, r)
    ensures r.len % 4 == 0
  {
  }

  /** A live record whose length is cut to what its name needs. */
  lemma Shrunk(b: seq<Byte>, c: seq<Byte>, d: seq<Byte>, pos: nat, r: Rec, len: nat)
    requires RecAt(b, pos, r) && r.ino != 0 && len == Need(|r.name|) <= r.len
    requires c == Relen(b, pos, len) && Agree(c, d, pos, pos + len)
    ensures RecAt(d, pos, r.(len := len))
  {
    assert d[pos..pos + 4] == b[pos..pos + 4];
    assert d[pos + HEADER..pos + HEADER + |r.name|] == b[pos + HEADER..pos + HEADER + |r.name|];
  }

  /** One or two records that fill `len` bytes. */
  lemma Tile(b: seq<Byte>, p: nat, mid: seq<Rec>, len: nat)
    requires 1 <= |mid| <= 2 && RecAt(b, p, mid[0]) && (|mid| == 2 ==> RecAt(b, p + mid[0].len, mid[1]))
    requires len == mid[0].len + (if |mid| == 2 then mid[1].len else 0)
    ensures Total(mid) == len && Laid(b, p, mid, p + len)
  {
    hide RecAt;
    if |mid| == 1 {
      assert mid[1..] == [];
    } else {
      assert mid[1..] == [mid[1]] && mid[1..][1..] == [];
      LaidHead(b, p, mid, p + len);
      LaidHead(b, p + mid[0].len, mid[1..], p + len);
      assert Total(mid) == mid[0].len + Total(mid[1..]);
      assert Total(mid[1..]) == mid[1].len;
    }
  }

  /** The records after removing record `k`: it is merged into the one before, or marked dead if it is the
      first of its block. */
  function Cut(rs: seq<Rec>, k: nat): seq<Rec>
    requires k < |rs|
  {
    if k > 0 then rs[..k - 1] + [Longer(rs[k - 1], rs[k])] + rs[k + 1..] else [Dead(rs[0])] + rs[1..]
  }

  function Longer(r: Rec, s: Rec): Rec {
    r.(len := r.len + s.len)
  }

  function Dead(r: Rec): Rec {
    r.(ino := 0)
  }

  /** Exactly the entry of record `k` disappears from the listing. */
  lemma CutShows(rs: seq<Rec>, k: nat)
    requires k < |rs|
    ensures Entries(rs) == Entries(rs[..k]) + Shown(rs[k]) + Entries(rs[k + 1..])
    ensures Entries(Cut(rs, k)) == Entries(rs[..k]) + Entries(rs[k + 1..])
  {
    hide Entries, Shown, Cut;
    Around(rs, k);
    EntriesMiddle(rs[..k], rs[k], rs[k + 1..]);
    CutEntries(rs, k);
  }

  lemma CutEntries(rs: seq<Rec>, k: nat)
    requires k < |rs|
    ensures Entries(Cut(rs, k)) == Entries(rs[..k]) + Entries(rs[k + 1..])
  {
    hide Entries, Shown;
    if k > 0 {
      MergedShows(rs[..k - 1], rs[k - 1], rs[k], rs[k + 1..]);
      Last(rs, k);
    } else {
      DeadShows(rs[0], rs[1..]);
      NoEntries(rs);
    }
  }

  lemma Last(rs: seq<Rec>, k: nat)
    requires 0 < k <= |rs|
    ensures rs[..k] == rs[..k - 1] + [rs[k - 1]]
  {
  }

  lemma Around(rs: seq<Rec>, k: nat)
    requires k < |rs|
    ensures rs == rs[..k] + [rs[k]] + rs[k + 1..]
  {
  }

  lemma MergedShows(a: seq<Rec>, r: Rec, s: Rec, b: seq<Rec>)
    ensures Entries(a + [Longer(r, s)] + b) == Entries(a + [r]) + Entries(b)
  {
    hide Entries, Shown;
    EntriesMiddle(a, Longer(r, s), b);
    ShownLonger(r, s);
    EntriesConcat(a, [r]);
    EntriesOne(r);
  }

  lemma DeadShows(r: Rec, b: seq<Rec>)
    ensures Entries([Dead(r)] + b) == Entries(b)
  {
    hide Entries;
    EntriesConcat([Dead(r)], b);
    EntriesOne(Dead(r));
  }

  lemma EntriesMiddle(a: seq<Rec>, r: Rec, b: seq<Rec>)
    ensures Entries(a + [r] + b) == Entries(a) + Shown(r) + Entries(b)
  {
    hide Entries;
    EntriesConcat(a + [r], b);
    EntriesConcat(a, [r]);
    EntriesOne(r);
  }

  lemma ShownLonger(r: Rec, s: Rec)
    ensures Shown(Longer(r, s)) == Shown(r)
  {
  }

  predicate Named(r: Rec, name: seq<Byte>) {
    r.ino != 0 && r.name == name
  }

  predicate FirstNamed(rs: seq<Rec>, k: nat, name: seq<Byte>) {
    k < |rs| && Named(rs[k], name) && forall i :: 0 <= i < k ==> !Named(rs[i], name)
  }

  /** The merged length fits its 16 bits; in a block below 64 KiB it always does. */
  predicate Fits(rs: seq<Rec>, k: nat)
    requires k < |rs|
  {
    k == 0 || rs[k - 1].len + rs[k].len < U16
  }

  /** The bytes of a block without record `k`. */
  function Erased(b: seq<Byte>, rs: seq<Rec>, k: nat): (r: seq<Byte>)
    requires k < |rs| && HEADER <= |b| && (k > 0 ==> Total(rs[..k - 1]) + HEADER <= |b|)
    ensures |r| == |b|
  {
    if k == 0 then NoIno(b) else Relen(b, Total(rs[..k - 1]), (rs[k - 1].len + rs[k].len) % U16)
  }

  lemma ErasedAt(b: seq<Byte>, rs: seq<Rec>, k: nat)
    requires Laid(b, 0, rs, |b|) && k < |rs|
    ensures HEADER <= |b| && (k > 0 ==> Total(rs[..k - 1]) + HEADER <= |b|)
  {
    hide Laid, RecAt, Total;
    Bound(b, rs, 0);
    if k > 0 {
      Bound(b, rs, k - 1);
    }
  }

  /** The block is tiled by the records that should remain exactly when the merged length fits. */
  lemma ErasedLaid(b: seq<Byte>, rs: seq<Rec>, k: nat)
    requires Laid(b, 0, rs, |b|) && k < |rs| && HEADER <= |b| && (k > 0 ==> Total(rs[..k - 1]) + HEADER <= |b|)
    ensures Laid(Erased(b, rs, k), 0, Cut(rs, k), |b|) <==> Fits(rs, k)
    ensures |b| < U16 ==> Fits(rs, k)
  {
    hide Laid, Total, RecAt, Cut, Erased;
    if k == 0 {
      CutFirst(b, rs);
      ErasedFirst(b, rs);
    } else {
      Bound(b, rs, k - 1);
      Bound(b, rs, k);
      if rs[k - 1].len + rs[k].len < U16 {
        CutMerge(b, rs, k);
        ErasedFits(b, rs, k);
      } else {
        CutIs(rs, k);
        TooLong(Erased(b, rs, k), Cut(rs, k), k - 1);
      }
    }
  }

  lemma ErasedFirst(b: seq<Byte>, rs: seq<Rec>)
    requires rs != [] && HEADER <= |b|
    ensures Erased(b, rs, 0) == NoIno(b)
  {
  }

  lemma ErasedFits(b: seq<Byte>, rs: seq<Rec>, k: nat)
    requires 0 < k < |rs| && Total(rs[..k - 1]) + HEADER <= |b| && rs[k - 1].len + rs[k].len < U16
    ensures Erased(b, rs, k) == Relen(b, Total(rs[..k - 1]), rs[k - 1].len + rs[k].len)
  {
    hide Relen, Total;
  }

  lemma TooLong(b: seq<Byte>, rs: seq<Rec>, k: nat)
    requires k < |rs| && rs[k].len >= U16
    ensures !Laid(b, 0, rs, |b|)
  {
    hide Laid, Total, LenAt, InoAt;
    if Laid(b, 0, rs, |b|) {
      Part(b, rs, k);
    }
  }

  /** The loop of `remove_entry` over one block. */
  method RemoveInBlock(buf: array<Byte>, name: seq<Byte>, ghost rs: seq<Rec>) returns (removed: nat, ghost k: nat)
    requires Laid(buf[..], 0, rs, buf.Length)
    modifies buf
    ensures removed == 0 ==> buf[..] == old(buf[..]) && forall i :: 0 <= i < |rs| ==> !Named(rs[i], name)
    ensures removed != 0 ==> FirstNamed(rs, k, name) && removed == rs[k].ino
    ensures removed != 0 ==>
              && HEADER <= buf.Length && (k > 0 ==> Total(rs[..k - 1]) + HEADER <= buf.Length)
              && buf[..] == Erased(old(buf[..]), rs, k)
              && (Laid(buf[..], 0, Cut(rs, k), buf.Length) <==> Fits(rs, k)) && (buf.Length < U16 ==> Fits(rs, k))
  {
    hide Laid, Total, Word, Cut, RecAt, Erased, Fits;
    var pos, prev := 0, -1;
    k := 0;
    removed := 0;
    Bound(buf[..], rs, 0);
    while pos + HEADER <= buf.Length
      invariant k <= |rs| && pos == Total(rs[..k]) && buf[..] == old(buf[..]) && removed == 0
      invariant prev == if k == 0 then -1 else Total(rs[..k - 1])
      invariant forall i :: 0 <= i < k ==> !Named(rs[i], name)
      decreases |rs| - k
    {
      Bound(buf[..], rs, k);
      Fields(buf, rs, k);
      var len, ino := LenOf(buf, pos), InoOf(buf, pos);
      if len == 0 {
        break;
      }
      var nameLen: int := buf[pos + 6];
      if ino != 0 && nameLen == |name| && buf[pos + HEADER..pos + HEADER + nameLen] == name {
        removed := ino;
        ErasedAt(buf[..], rs, k);
        ErasedLaid(buf[..], rs, k);
        Erase(buf, pos, prev, len, rs, k);
        return;
      }
      prev := pos;
      pos := pos + len;
      k := k + 1;
      Bound(buf[..], rs, k);
    }
    Bound(buf[..], rs, k);
  }

  /** The bytes written by `remove_entry`. */
  method Erase(buf: array<Byte>, pos: nat, prev: int, len: nat, ghost rs: seq<Rec>, ghost k: nat)
    requires Laid(buf[..], 0, rs, buf.Length) && k < |rs| && pos == Total(rs[..k]) && len == rs[k].len
    requires prev == if k == 0 then -1 else Total(rs[..k - 1])
    requires HEADER <= buf.Length && (k > 0 ==> Total(rs[..k - 1]) + HEADER <= buf.Length)
    modifies buf
    ensures buf[..] == Erased(old(buf[..]), rs, k)
  {
    hide Laid, Total, Word, RecAt, Relen, NoIno, LenAt;
    if prev >= 0 {
      LenIs(buf, rs, k - 1);
      SetLen(buf, prev, (LenOf(buf, prev) + len) % U16);
    } else {
      ClearIno(buf);
    }
  }

  method SetLen(buf: array<Byte>, pos: nat, len: nat)
    requires pos + HEADER <= buf.Length && len < U16
    modifies buf
    ensures buf[..] == Relen(old(buf[..]), pos, len)
  {
    buf[pos + 4] := len % 0x100;
    buf[pos + 5] := len / 0x100;
  }

  method ClearIno(buf: array<Byte>)
    requires HEADER <= buf.Length
    modifies buf
    ensures buf[..] == NoIno(old(buf[..]))
  {
    buf[0], buf[1], buf[2], buf[3] := 0, 0, 0, 0;
  }

  lemma LenIs(buf: array<Byte>, rs: seq<Rec>, k: nat)
    requires Laid(buf[..], 0, rs, buf.Length) && k < |rs|
    ensures Total(rs[..k]) + HEADER <= buf.Length && LenOf(buf, Total(rs[..k])) == rs[k].len
  {
    Fields(buf, rs, k);
  }

  function NoIno(b: seq<Byte>): (r: seq<Byte>)
    requires HEADER <= |b|
    ensures |r| == |b|
  {
    b[0 := 0][1 := 0][2 := 0][3 := 0]
  }

  lemma CutMerge(b: seq<Byte>, rs: seq<Rec>, k: nat)
    requires Laid(b, 0, rs, |b|) && 0 < k < |rs| && rs[k - 1].len + rs[k].len < U16
    ensures Total(rs[..k - 1]) + HEADER <= |b|
    ensures Laid(Relen(b, Total(rs[..k - 1]), rs[k - 1].len + rs[k].len), 0, Cut(rs, k), |b|)
  {
    hide Laid, Total, RecAt, Relen, Agree, Longer, Cut;
    var p := Neighbours(b, rs, k);
    MergeTwo(b, p, rs[..k - 1], rs[k - 1], rs[k], rs[k + 1..]);
    CutIs(rs, k);
  }

  lemma Neighbours(b: seq<Byte>, rs: seq<Rec>, k: nat) returns (p: nat)
    requires Laid(b, 0, rs, |b|) && 0 < k < |rs|
    ensures p == Total(rs[..k - 1]) && Laid(b, 0, rs[..k - 1], p) && RecAt(b, p, rs[k - 1])
    ensures RecAt(b, p + rs[k - 1].len, rs[k]) && Laid(b, p + rs[k - 1].len + rs[k].len, rs[k + 1..], |b|)
  {
    hide Laid, Total, RecAt;
    p := Total(rs[..k - 1]);
    Part(b, rs, k - 1);
    TotalNext(rs, k - 1);
    Part(b, rs, k);
  }

  lemma CutIs(rs: seq<Rec>, k: nat)
    requires 0 < k < |rs|
    ensures Cut(rs, k) == rs[..k - 1] + [Longer(rs[k - 1], rs[k])] + rs[k + 1..]
  {
  }

  lemma MergeTwo(b: seq<Byte>, p: nat, front: seq<Rec>, r: Rec, s: Rec, back: seq<Rec>)
    requires Laid(b, 0, front, p) && RecAt(b, p, r) && RecAt(b, p + r.len, s) && Laid(b, p + r.len + s.len, back, |b|)
    requires r.len + s.len < U16
    ensures p + HEADER <= |b|
    ensures Laid(Relen(b, p, r.len + s.len), 0, front + [Longer(r, s)] + back, |b|)
  {
    hide Laid, Total, RecAt, Relen, Agree;
    RecBound(b, p, r);
    RecBound(b, p + r.len, s);
    Merged(b, p, r, s);
    var d := Relen(b, p, r.len + s.len);
    Tile(d, p, [Longer(r, s)], r.len + s.len);
    Rejoined(b, d, p, p + r.len + s.len, front, [Longer(r, s)], back);
  }

  lemma CutFirst(b: seq<Byte>, rs: seq<Rec>)
    requires Laid(b, 0, rs, |b|) && rs != []
    ensures HEADER <= |b| && Laid(NoIno(b), 0, Cut(rs, 0), |b|)
  {
    hide Laid, Total, RecAt, NoIno, Agree;
    Bound(b, rs, 0);
    Part(b, rs, 0);
    Killed(b, rs[0]);
    Tile(NoIno(b), 0, [Dead(rs[0])], rs[0].len);
    Relaid(b, NoIno(b), rs, 0, 1, [Dead(rs[0])]);
    assert rs[..0] + [Dead(rs[0])] + rs[1..] == [Dead(rs[0])] + rs[1..];
  }

  lemma Merged(b: seq<Byte>, p: nat, r: Rec, s: Rec)
    requires RecAt(b, p, r) && RecAt(b, p + r.len, s) && r.len + s.len < U16
    ensures var d := Relen(b, p, r.len + s.len);
            RecAt(d, p, Longer(r, s)) && Agree(b, d, 0, p) && Agree(b, d, p + r.len + s.len, |b|)
  {
    hide Word, Relen, LenAt;
    var len := r.len + s.len;
    var d := Relen(b, p, len);
    RelenAt(b, p, len);
    assert d[p..p + 4] == b[p..p + 4];
    if r.ino != 0 {
      assert d[p + HEADER..p + HEADER + |r.name|] == b[p + HEADER..p + HEADER + |r.name|];
    }
  }

  lemma RelenAt(b: seq<Byte>, p: nat, len: nat)
    requires p + HEADER <= |b| && len < U16
    ensures LenAt(Relen(b, p, len), p) == len
    ensures forall i :: 0 <= i < |b| && i != p + 4 && i != p + 5 ==> Relen(b, p, len)[i] == b[i]
  {
  }

  lemma Killed(b: seq<Byte>, r: Rec)
    requires RecAt(b, 0, r)
    ensures RecAt(NoIno(b), 0, Dead(r)) && Agree(b, NoIno(b), 0, 0) && Agree(b, NoIno(b), r.len, |b|)
  {
  }

  // ----- whole directories

  /** The listing of a directory; a hole lists nothing. */
  function All(recs: seq<seq<Rec>>): seq<Entry> {
    if recs == [] then [] else Entries(recs[0]) + All(recs[1..])
  }

  lemma {:induction false} AllConcat(a: seq<seq<Rec>>, b: seq<seq<Rec>>)
    ensures All(a + b) == All(a) + All(b)
  {
    hide Entries;
    if a == [] {
      assert a + b == b;
    } else {
      AllConcat(a[1..], b);
      assert (a + b)[1..] == a[1..] + b && (a + b)[0] == a[0];
      var x, y, z := Entries(a[0]), All(a[1..]), All(b);
      assert All(a + b) == x + (y + z) == (x + y) + z;
    }
  }

  lemma AllOne(rs: seq<Rec>)
    ensures All([rs]) == Entries(rs)
  {
  }

  lemma AllAround(recs: seq<seq<Rec>>, b: nat, rs: seq<Rec>)
    requires b < |recs|
    ensures All(recs[b := rs]) == All(recs[..b]) + Entries(rs) + All(recs[b + 1..])
  {
    hide All, Entries;
    assert recs[b := rs] == recs[..b] + [rs] + recs[b + 1..];
    AllConcat(recs[..b] + [rs], recs[b + 1..]);
    AllConcat(recs[..b], [rs]);
    AllOne(rs);
  }

  /** Block `b` of a directory. */
  predicate BlockOk(block: Option<seq<Byte>>, rs: seq<Rec>, size: nat) {
    match block
    case None => rs == []
    case Some(bytes) => |bytes| == size && Laid(bytes, 0, rs, size)
  }

  /** The block that `add_entry` makes when no record has room. */
  function NewBlock(size: nat, ino: nat, kind: Byte, name: seq<Byte>): seq<Byte>
    requires HEADER + |name| <= size
  {
    Overlay(Overlay(Zeros(size), 0, HeaderBytes(ino, size % U16, |name| % 0x100, kind)), HEADER, name)
  }

  lemma NewBlockLaid(size: nat, ino: nat, kind: Byte, name: seq<Byte>)
    requires HEADER + |name| <= size < U16 && size % 4 == 0 && 0 < ino < WORD
    ensures |NewBlock(size, ino, kind, name)| == size
    ensures Laid(NewBlock(size, ino, kind, name), 0, [Rec(size, ino, kind, Stored(name))], size)
    ensures Entries([Rec(size, ino, kind, Stored(name))]) == ShownAs(ino, kind, name)
  {
    hide Overlay, HeaderBytes, RecAt;
    var z := Zeros(size);
    var h := HeaderBytes(ino, size, |name| % 0x100, kind);
    HeaderLength(ino, size, |name| % 0x100, kind);
    OverlayLength(z, 0, h);
    OverlayLength(Overlay(z, 0, h), HEADER, name);
    Written(z, 0, size, ino, kind, name);
    Tile(NewBlock(size, ino, kind, name), 0, [Rec(size, ino, kind, Stored(name))], size);
    EntriesOne(Rec(size, ino, kind, Stored(name)));
  }

  /** The length of the record in a new block is the block size cut to 16 bits: of the block sizes, which
      are powers of two, exactly those below 64 KiB list the new entry. */
  lemma NewBlockListed(size: nat, ino: nat, kind: Byte, name: seq<Byte>)
    requires HEADER + |name| <= size && size % 4 == 0 && 0 < ino < WORD && (size < U16 || size % U16 == 0)
              && |name| % 0x100 != 0
    ensures Listed(NewBlock(size, ino, kind, name), 0) == ShownAs(ino, kind, name) <==> size < U16
    ensures size >= U16 ==> Listed(NewBlock(size, ino, kind, name), 0) == []
  {
    if size < U16 {
      NewBlockLaid(size, ino, kind, name);
      LaidListed(NewBlock(size, ino, kind, name), 0, [Rec(size, ino, kind, Stored(name))]);
    } else {
      var h := HeaderBytes(ino, 0, |name| % 0x100, kind);
      assert NewBlock(size, ino, kind, name)[4] == h[4] && NewBlock(size, ino, kind, name)[5] == h[5];
      ListedStep(NewBlock(size, ino, kind, name), 0);
    }
  }

  /** The new entry's place in the whole listing. */
  lemma PutListed(recs: seq<seq<Rec>>, b: nat, k: nat, ino: nat, kind: Byte, name: seq<Byte>) returns (at: nat)
    requires b < |recs| && k < |recs[b]| && Need(|name|) <= Room(recs[b][k]) && ino != 0
    ensures at <= |All(recs)|
    ensures All(recs[b := Put(recs[b], k, ino, kind, name)]) ==
              All(recs)[..at] + ShownAs(ino, kind, name) + All(recs)[at..]
  {
    hide Entries, All, Put, Room, Need, Shown;
    var rs := recs[b];
    PutShows(rs, k, ino, kind, name);
    AllAround(recs, b, Put(rs, k, ino, kind, name));
    AllAround(recs, b, rs);
    assert recs[b := rs] == recs;
    var i := |Entries(rs[..k])| + (if rs[k].ino != 0 then |Shown(rs[k])| else 0);
    at := |All(recs[..b])| + i;
    Inserted(All(recs[..b]), Entries(rs), i, ShownAs(ino, kind, name), All(recs[b + 1..]));
  }

  lemma Inserted(a: seq<Entry>, m: seq<Entry>, i: nat, x: seq<Entry>, c: seq<Entry>)
    requires i <= |m|
    ensures a + (m[..i] + x + m[i..]) + c == (a + m + c)[..|a| + i] + x + (a + m + c)[|a| + i..]
  {
    assert (a + m + c)[..|a| + i] == a + m[..i];
    assert (a + m + c)[|a| + i..] == m[i..] + c;
  }

  /** No entry of the list has this name. */
  predicate Unnamed(es: seq<Entry>, name: seq<Byte>) {
    forall i :: 0 <= i < |es| ==> es[i].name != name
  }

  lemma {:induction false} EntriesUnnamed(rs: seq<Rec>, name: seq<Byte>)
    requires forall i :: 0 <= i < |rs| ==> !Named(rs[i], name)
    ensures Unnamed(Entries(rs), name)
  {
    if rs != [] {
      assert forall i :: 0 <= i < |rs[1..]| ==> rs[1..][i] == rs[i + 1];
      EntriesUnnamed(rs[1..], name);
      assert !Named(rs[0], name);
    }
  }

  lemma {:induction false} AllUnnamed(recs: seq<seq<Rec>>, name: seq<Byte>)
    requires forall b, i :: 0 <= b < |recs| && 0 <= i < |recs[b]| ==> !Named(recs[b][i], name)
    ensures Unnamed(All(recs), name)
  {
    if recs != [] {
      EntriesUnnamed(recs[0], name);
      assert forall b :: 0 <= b < |recs[1..]| ==> recs[1..][b] == recs[b + 1];
      AllUnnamed(recs[1..], name);
    }
  }

  /** The listing around record `k` of block `b`, before and after it is cut. */
  lemma CutListed(recs: seq<seq<Rec>>, b: nat, k: nat) returns (front: seq<Entry>, back: seq<Entry>)
    requires b < |recs| && k < |recs[b]|
    ensures All(recs) == front + Shown(recs[b][k]) + back
    ensures All(recs[b := Cut(recs[b], k)]) == front + back
    ensures front == All(recs[..b]) + Entries(recs[b][..k])
  {
    hide Entries, All, Cut, Shown;
    var rs := recs[b];
    CutShows(rs, k);
    AllAround(recs, b, Cut(rs, k));
    AllAround(recs, b, rs);
    assert recs[b := rs] == recs;
    var x, y, z := All(recs[..b]), Entries(rs[..k]), Shown(rs[k]);
    var u, v := Entries(rs[k + 1..]), All(recs[b + 1..]);
    front, back := x + y, u + v;
    assert x + (y + z + u) + v == (x + y) + z + (u + v);
    assert x + (y + u) + v == (x + y) + (u + v);
  }

  class Directory {
    const blockSize: nat
    var blocks: seq<Option<seq<Byte>>>
    var size: nat
    ghost var recs: seq<seq<Rec>>

    /** Well formed: the size counts whole blocks, and every block that is there is tiled by records. */
    ghost predicate Valid()
      reads this
    {
      && blockSize > 0 && blockSize % 4 == 0
      && size == |blocks| * blockSize < WORD
      && |recs| == |blocks|
      && (forall b :: 0 <= b < |blocks| ==> BlockOk(blocks[b], recs[b], blockSize))
    }

    /** `mkdir` starts with one block: the entries for the directory itself and its parent. */
    constructor (blockSize: nat, first: seq<Byte>, ghost rs: seq<Rec>)
      requires 0 < blockSize < WORD && blockSize % 4 == 0 && |first| == blockSize && Laid(first, 0, rs, blockSize)
      ensures Valid() && this.blockSize == blockSize && recs == [rs]
    {
      this.blockSize := blockSize;
      blocks, size, recs := [Some(first)], blockSize, [rs];
    }

    method NumBlocks() returns (n: nat)
      requires Valid()
      ensures n == |blocks|
    {
      n := Arith.DivCeil(size, blockSize);
      Arith.DivModUnique(|blocks|, blockSize, blockSize - 1);
    }

    /** `read_block` into a fresh buffer. */
    method ReadBlock(b: nat) returns (buf: array<Byte>)
      requires b < |blocks| && blocks[b].Some?
      ensures fresh(buf) && buf[..] == blocks[b].value
    {
      var bytes := blocks[b].value;
      buf := new Byte[|bytes|](i requires 0 <= i < |bytes| => bytes[i]);
    }

    /** `read_dir_entries`. */
    method ReadDirEntries() returns (out: seq<Entry>)
      requires Valid()
      ensures out == All(recs)
    {
      hide Laid, Listed, Entries;
      var n := NumBlocks();
      out := [];
      var offset := 0;
      NoneListed();
      for b := 0 to n
        invariant out == All(recs[..b]) && offset == b * blockSize
      {
        AllNext(b);
        if blocks[b].Some? {
          var buf := ReadBlock(b);
          Arith.MulMono(b + 1, n, blockSize);
          Arith.MulStep(b, blockSize);
          LaidListed(buf[..], 0, recs[b]);
          var e := ListBlock(buf, offset, size);
          out := out + e;
        } else {
          NoEntries(recs[b]);
        }
        offset := offset + blockSize;
      }
      assert recs[..n] == recs;
    }

    lemma NoneListed()
      ensures All(recs[..0]) == []
    {
    }

    lemma AllNext(b: nat)
      requires b < |recs|
      ensures All(recs[..b + 1]) == All(recs[..b]) + Entries(recs[b])
    {
      assert recs[..b + 1] == recs[..b] + [recs[b]];
      AllConcat(recs[..b], [recs[b]]);
      AllOne(recs[b]);
    }

    lemma Content(b: nat)
      requires Valid() && b < |blocks| && blocks[b].Some?
      ensures |blocks[b].value| == blockSize && Laid(blocks[b].value, 0, recs[b], blockSize)
    {
      assert BlockOk(blocks[b], recs[b], blockSize);
    }

    lemma Hole(b: nat)
      requires Valid() && b < |blocks| && blocks[b].None?
      ensures recs[b] == []
    {
      assert BlockOk(blocks[b], recs[b], blockSize);
    }

    lemma Tiled(bytes: seq<Byte>, rs: seq<Rec>)
      requires |bytes| == blockSize && Laid(bytes, 0, rs, blockSize)
      ensures BlockOk(Some(bytes), rs, blockSize)
    {
    }

    lemma NewBlockOk(ino: nat, kind: Byte, name: seq<Byte>)
      requires Valid() && blockSize < U16 && 0 < ino < WORD && HEADER + |name| <= blockSize
      ensures BlockOk(Some(NewBlock(blockSize, ino, kind, name)), [Rec(blockSize, ino, kind, Stored(name))], blockSize)
      ensures All(recs + [[Rec(blockSize, ino, kind, Stored(name))]]) == All(recs) + ShownAs(ino, kind, name)
    {
      hide All, NewBlock, Entries, Laid;
      NewBlockLaid(blockSize, ino, kind, name);
      AllConcat(recs, [[Rec(blockSize, ino, kind, Stored(name))]]);
      AllOne([Rec(blockSize, ino, kind, Stored(name))]);
    }

    lemma NewBlockBad(ino: nat, kind: Byte, name: seq<Byte>)
      requires HEADER + |name| <= blockSize && blockSize >= U16
      ensures !BlockOk(Some(NewBlock(blockSize, ino, kind, name)), [Rec(blockSize, ino, kind, Stored(name))], blockSize)
    {
      hide NewBlock, Laid;
      TooLong(NewBlock(blockSize, ino, kind, name), [Rec(blockSize, ino, kind, Stored(name))], 0);
    }

    /** No record of the first `n` blocks has room for a name of this length. */
    ghost predicate Full(n: nat, need: nat)
      reads this
      requires n <= |recs|
    {
      forall b, i :: 0 <= b < n && 0 <= i < |recs[b]| ==> Room(recs[b][i]) < need
    }

    /** `add_entry`; `space` says whether a block can be allocated.  The listing gains the new entry at one
        place and keeps all others in order.  A new block is made only when no record has room, and then the
        directory stays well formed exactly when the block size fits 16 bits and the new size fits 32. */
    method AddEntry(ino: nat, kind: Byte, name: seq<Byte>, space: bool) returns (ok: bool, ghost at: nat)
      requires Valid() && 0 < ino < WORD && HEADER + |name| <= blockSize
      modifies this
      ensures ok <==> space || !old(Full(|recs|, Need(|name|)))
      ensures !ok ==> unchanged(this)
      ensures ok && old(Full(|recs|, Need(|name|))) ==>
                blocks == old(blocks) + [Some(NewBlock(blockSize, ino, kind, name))]
      ensures ok ==> (Valid() <==>
                !old(Full(|recs|, Need(|name|))) || (blockSize < U16 && (|old(blocks)| + 1) * blockSize < WORD))
      ensures ok && Valid() ==>
                && at <= |old(All(recs))|
                && All(recs) == old(All(recs))[..at] + ShownAs(ino, kind, name) + old(All(recs))[at..]
    {
      hide Laid, Entries, Put, All, NewBlock, Room, BlockOk;
      var n := NumBlocks();
      ghost var k;
      for b := 0 to n
        invariant unchanged(this) && Full(b, Need(|name|))
      {
        if blocks[b].Some? {
          Content(b);
          var buf := ReadBlock(b);
          ok, k := AddInBlock(buf, ino, kind, name, recs[b]);
          if ok {
            assert Room(recs[b][k]) >= Need(|name|);
            at := PutListed(recs, b, k, ino, kind, name);
            Tiled(buf[..], Put(recs[b], k, ino, kind, name));
            blocks, recs := blocks[b := Some(buf[..])], recs[b := Put(recs[b], k, ino, kind, name)];
            return;
          }
        } else {
          Hole(b);
        }
      }
      ok := space;
      at := |All(recs)|;
      if ok {
        AppendBlock(n, ino, kind, name);
      }
    }

    /** The end of `add_entry`: a new block that holds the new entry alone. */
    method AppendBlock(n: nat, ino: nat, kind: Byte, name: seq<Byte>)
      requires Valid() && 0 < ino < WORD && HEADER + |name| <= blockSize && n == |blocks|
      modifies this
      ensures blocks == old(blocks) + [Some(NewBlock(blockSize, ino, kind, name))]
      ensures Valid() <==> blockSize < U16 && (|old(blocks)| + 1) * blockSize < WORD
      ensures Valid() ==> All(recs) == old(All(recs)) + ShownAs(ino, kind, name)
    {
      hide Laid, Entries, All, NewBlock, BlockOk;
      if blockSize < U16 {
        NewBlockOk(ino, kind, name);
      } else {
        NewBlockBad(ino, kind, name);
      }
      blocks := blocks + [Some(NewBlock(blockSize, ino, kind, name))];
      recs := recs + [[Rec(blockSize, ino, kind, Stored(name))]];
      size := (n + 1) * blockSize % WORD;
      assert blockSize >= U16 ==> !BlockOk(blocks[n], recs[n], blockSize);
    }

    /** No live record of the first `n` blocks has this name. */
    ghost predicate Absent(n: nat, name: seq<Byte>)
      reads this
      requires n <= |recs|
    {
      forall b, i :: 0 <= b < n && 0 <= i < |recs[b]| ==> !Named(recs[b][i], name)
    }

    /** `remove_entry`; zero stands for ENOENT.  The first record with the name is cut out of its block, and
        its inode is returned.  The directory stays well formed, and then exactly that entry has left the
        listing, if and only if the merged length fits. */
    method RemoveEntry(name: seq<Byte>)
      returns (removed: nat, ghost b: nat, ghost k: nat, ghost front: seq<Entry>, ghost back: seq<Entry>)
      requires Valid()
      modifies this
      ensures removed == 0 <==> old(Absent(|recs|, name))
      ensures removed == 0 ==> unchanged(this)
      ensures removed != 0 ==>
                && b < |old(recs)| && old(Absent(b, name)) && FirstNamed(old(recs)[b], k, name)
                && removed == old(recs)[b][k].ino
                && recs == old(recs)[b := Cut(old(recs)[b], k)]
                && (Valid() <==> Fits(old(recs)[b], k)) && (blockSize < U16 ==> Fits(old(recs)[b], k))
                && Unnamed(front, name) && All(recs) == front + back
                && old(All(recs)) ==
                    front + (if name == [] then [] else [Entry(removed, old(recs)[b][k].kind, name)]) + back
    {
      hide Laid, Entries, Cut, All, Unnamed, Erased, Fits;
      var n := NumBlocks();
      b, k, front, back := 0, 0, [], [];
      removed := 0;
      for i := 0 to n
        invariant unchanged(this) && Absent(i, name) && removed == 0
      {
        if blocks[i].Some? {
          Content(i);
          var buf := ReadBlock(i);
          removed, k := RemoveInBlock(buf, name, recs[i]);
          if removed != 0 {
            b := i;
            assert Named(recs[b][k], name);
            front, back := CutListed(recs, b, k);
            FrontUnnamed(b, k, name);
            blocks, recs := blocks[i := Some(buf[..])], recs[b := Cut(recs[b], k)];
            assert BlockOk(blocks[b], recs[b], blockSize) <==> Laid(buf[..], 0, recs[b], blockSize);
            return;
          }
        } else {
          Hole(i);
        }
      }
    }

    lemma FrontUnnamed(b: nat, k: nat, name: seq<Byte>)
      requires b < |recs| && Absent(b, name) && FirstNamed(recs[b], k, name)
      ensures Unnamed(All(recs[..b]) + Entries(recs[b][..k]), name)
    {
      hide All, Entries;
      AllUnnamed(recs[..b], name);
      EntriesUnnamed(recs[b][..k], name);
    }
  }

  // ----- a block of 64 KiB

  const HALF: nat := 0x8000

  /** A record of 32 KiB at `p`, with a name of one byte. */
  function HalfAt(b: seq<Byte>, p: nat, ino: nat, c: Byte): (r: seq<Byte>)
    requires p + HALF <= |b| && ino < WORD
    ensures |r| == |b|
  {
    Overlay(Overlay(b, p, HeaderBytes(ino, HALF, 1, 1)), p + HEADER, [c])
  }

  lemma HalfIs(b: seq<Byte>, p: nat, ino: nat, c: Byte)
    requires p + HALF <= |b| && 0 < ino < WORD
    ensures RecAt(HalfAt(b, p, ino, c), p, Rec(HALF, ino, 1, [c]))
    ensures Agree(b, HalfAt(b, p, ino, c), 0, p)
  {
    Written(b, p, HALF, ino, 1, [c]);
    assert Stored([c]) == [c];
  }

  function BigBlock(): (b: seq<Byte>)
    ensures |b| == U16
  {
    HalfAt(HalfAt(Zeros(U16), 0, 1, 97), HALF, 2, 98)
  }

  function BigRecs(): seq<Rec> {
    [Rec(HALF, 1, 1, [97]), Rec(HALF, 2, 1, [98])]
  }

  lemma BigLaid()
    ensures Laid(BigBlock(), 0, BigRecs(), U16)
  {
    hide HalfAt, RecAt, Laid, Agree;
    var x := HalfAt(Zeros(U16), 0, 1, 97);
    HalfIs(Zeros(U16), 0, 1, 97);
    HalfIs(x, HALF, 2, 98);
    RecFrame(x, BigBlock(), 0, BigRecs()[0]);
    Tile(BigBlock(), 0, BigRecs(), U16);
  }

  /** Removing the second entry makes the length of the first one zero, and the block lists nothing. */
  method BigBlockLoses() returns (before: seq<Entry>, removed: nat, after: seq<Entry>)
    ensures before == [Entry(1, 1, [97]), Entry(2, 1, [98])] && removed == 2 && after == []
  {
    hide Laid, BigBlock, Listed, Erased;
    BigLaid();
    var bytes := BigBlock();
    var buf := new Byte[U16](i requires 0 <= i < U16 => bytes[i]);
    assert buf[..] == bytes;
    before := ListBlock(buf, 0, U16);
    LaidListed(bytes, 0, BigRecs());
    assert BigRecs()[1..] == [BigRecs()[1]] && BigRecs()[1..][1..] == [];
    ghost var k;
    assert Named(BigRecs()[1], [98]);
    removed, k := RemoveInBlock(buf, [98], BigRecs());
    assert k == 1;
    ErasedBig(bytes);
    after := ListBlock(buf, 0, U16);
  }

  lemma ErasedBig(b: seq<Byte>)
    requires |b| == U16
    ensures Total(BigRecs()[..0]) == 0 && Listed(Erased(b, BigRecs(), 1), 0) == []
  {
    ListedStep(Erased(b, BigRecs(), 1), 0);
  }
}
