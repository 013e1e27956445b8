/** Facts about multiplication, division and remainder that several modules share. */
module Arith {

  lemma MulMono(a: nat, b: nat, d: nat)
    requires a <= b
    ensures a * d <= b * d
  {
  }

  lemma MulStep(a: nat, d: nat)
    ensures (a + 1) * d == a * d + d
  {
  }

  /** A product that a proof can choose not to look into. */
  function Times(a: nat, b: nat): nat {
    a * b
  }

  lemma TimesPositive(a: nat, b: nat)
    requires a > 0 && b > 0
    ensures Times(a, b) > 0
  {
    MulMono(1, a, b);
  }

  lemma TimesZero(s: nat)
    ensures Times(0, s) == 0
  {
  }

  lemma TimesOne(s: nat)
    ensures Times(1, s) == s
  {
  }

  lemma TimesAdd(a: nat, b: nat, s: nat)
    ensures Times(a + b, s) == Times(a, s) + Times(b, s)
  {
  }

  lemma Total(x: nat, y: nat, z: nat, a: nat, b: nat, s: nat) returns (n: nat)
    requires y == x + Times(a, s) && z == y + Times(b, s)
    ensures n == a + b && z == x + Times(n, s)
  {
    TimesAdd(a, b, s);
    n := a + b;
  }

  lemma RowFits(i: nat, p: nat, s: nat)
    requires i < p
    ensures Times(i, s) + s <= Times(p, s)
  {
    MulStep(i, s);
    MulMono(i + 1, p, s);
  }

  lemma MulApart(x: int, d: int)
    requires x != 0 && d >= 0
    ensures x * d >= d || x * d <= -d
  {
    if x > 0 {
      MulMono(1, x, d);
    } else {
      MulMono(1, -x, d);
    }
  }

  lemma DivModUnique(q: nat, d: nat, r: nat)
    requires r < d
    ensures (q * d + r) / d == q && (q * d + r) % d == r
  {
    var n := q * d + r;
    if n / d != q {
      MulApart(n / d - q, d);
    }
  }

  /** `div_ceil`; a zero divisor gives zero. */
  function DivCeil(n: nat, d: nat): nat {
    if d == 0 then 0 else (n + d - 1) / d
  }

  /** The `o`-th place of a search that starts at `start` and wraps at `n`. */
  function Cyclic(start: nat, o: nat, n: nat): nat
    requires n > 0
  {
    (start + o) % n
  }

  lemma CyclicCover(start: nat, n: nat, k: nat) returns (o: nat)
    requires k < n
    ensures o < n && Cyclic(start, o, n) == k
  {
    var s := start % n;
    o := if k >= s then k - s else k + n - s;
    var q := start / n;
    assert start + o == if k >= s then q * n + k else (q + 1) * n + k;
    DivModUnique(if k >= s then q else q + 1, n, k);
  }

  lemma ModApart(a: nat, b: nat, d: nat)
    requires a < b < a + d
    ensures a % d != b % d
  {
    if a % d == b % d {
      var q, r := a / d, b / d;
      assert a == q * d + a % d && b == r * d + b % d;
      assert b - a == (r - q) * d;
      MulApart(r - q, d);
    }
  }

  // ----- counting

  function Elements(s: seq<nat>): set<nat> {
    set x | x in s
  }

  /** Different ids below `n` are at most `n` many. */
  lemma Pigeons(s: seq<nat>, n: nat)
    requires forall i :: 0 <= i < |s| ==> s[i] < n
    requires forall i, j :: 0 <= i < j < |s| ==> s[i] != s[j]
    ensures |s| <= n
  {
    Distinct(s);
    var u := Below(n);
    Smaller(Elements(s), u);
  }

  lemma {:induction false} Distinct(s: seq<nat>)
    requires forall i, j :: 0 <= i < j < |s| ==> s[i] != s[j]
    ensures |Elements(s)| == |s|
  {
    if s != [] {
      var n := |s| - 1;
      Distinct(s[..n]);
      assert s == s[..n] + [s[n]];
      assert s[n] !in s[..n];
      assert Elements(s) == Elements(s[..n]) + {s[n]};
    }
  }

  lemma {:induction false} Below(n: nat) returns (u: set<nat>)
    ensures |u| == n && forall x: nat :: x in u <==> x < n
  {
    if n == 0 {
      u := {};
    } else {
      var v := Below(n - 1);
      u := v + {n - 1};
    }
  }

  lemma {:induction false} Smaller(t: set<nat>, u: set<nat>)
    requires t <= u
    ensures |t| <= |u|
    decreases t
  {
    if t != {} {
      var x :| x in t;
      Smaller(t - {x}, u - {x});
    }
  }
}
