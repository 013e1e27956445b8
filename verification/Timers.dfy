/**
  Interval timers: the stepping loop of `kernel/src/process/itimer.rs` and the division form of
  `kernel/src/vfs/timerfd.rs`, proved against one closed form.  Times are nanoseconds since boot.
  */
module Timers {
  import opened Common
  import Arith

  /** The longest `Duration`. */
  const MAX_TIME: nat := 0x1_0000_0000_0000_0000 * 1_000_000_000 - 1
  const U32_MAX: nat := 0xffff_ffff
  const U64_MAX: nat := 0xffff_ffff_ffff_ffff

  datatype Timer = Timer(interval: nat, next: Option<nat>)

  // ----- the closed form

  /** How often a timer due at `deadline` has fired by `now`, and when it is due next. */
  function Count(deadline: nat, interval: nat, now: nat): nat
    requires interval > 0
  {
    if now < deadline then 0 else 1 + (now - deadline) / interval
  }

  function Next(deadline: nat, interval: nat, now: nat): nat
    requires interval > 0
  {
    deadline + Arith.Times(Count(deadline, interval, now), interval)
  }

  /** The next deadline is the first one after `now`. */
  lemma NextIsFirst(deadline: nat, interval: nat, now: nat)
    requires interval > 0
    ensures now < Next(deadline, interval, now)
    ensures now >= deadline ==> Next(deadline, interval, now) - interval <= now
  {
    if now >= deadline {
      var q := (now - deadline) / interval;
      Arith.MulStep(q, interval);
      assert now - deadline == q * interval + (now - deadline) % interval;
    } else {
      Arith.TimesZero(interval);
    }
  }

  /** The count is the only number of steps that leads from the deadline to just past `now`. */
  lemma CountUnique(deadline: nat, interval: nat, now: nat, k: nat)
    requires interval > 0 && k > 0
              && deadline + Arith.Times(k, interval) - interval <= now < deadline + Arith.Times(k, interval)
    ensures Count(deadline, interval, now) == k
  {
    Arith.MulStep(k - 1, interval);
    var r := now - deadline - (k - 1) * interval;
    Arith.DivModUnique(k - 1, interval, r);
  }

  function Poll(t: Timer, now: nat): (Timer, nat) {
    if t.next.None? || now < t.next.value then (t, 0)
    else if t.interval == 0 then (t.(next := None), 1)
    else (t.(next := Some(Next(t.next.value, t.interval, now))), Count(t.next.value, t.interval, now))
  }

  /** Two polls count and end up as the later one alone. */
  lemma PollTwice(t: Timer, now: nat, later: nat)
    requires now <= later
    ensures Poll(Poll(t, now).0, later).0 == Poll(t, later).0
    ensures Poll(t, now).1 + Poll(Poll(t, now).0, later).1 == Poll(t, later).1
  {
    if t.next.Some? && now >= t.next.value && t.interval > 0 {
      Later(t.next.value, t.interval, now, later);
    }
  }

  lemma Later(d: nat, i: nat, now: nat, later: nat)
    requires i > 0 && d <= now <= later
    ensures Count(d, i, now) + Count(Next(d, i, now), i, later) == Count(d, i, later)
    ensures Next(Next(d, i, now), i, later) == Next(d, i, later)
  {
    hide Count, Arith.Times;
    var a, e := Count(d, i, now), Next(d, i, now);
    var b := Count(e, i, later);
    Arith.TimesAdd(a, b, i);
    NextIsFirst(d, i, now);
    NextIsFirst(e, i, later);
    Fired(d, i, now);
    if later < e {
      NotYet(e, i, later);
      Arith.TimesZero(i);
    }
    CountUnique(d, i, later, a + b);
  }

  lemma Fired(d: nat, i: nat, now: nat)
    requires i > 0 && d <= now
    ensures Count(d, i, now) > 0
  {
  }

  lemma NotYet(d: nat, i: nat, now: nat)
    requires i > 0 && now < d
    ensures Count(d, i, now) == 0
  {
  }

  // ----- the moments at which a timer is due

  /** A timer is due at its deadline and, if it repeats, every interval after. */
  predicate IsDue(t: Timer, m: nat) {
    && t.next.Some? && m >= t.next.value
    && if t.interval == 0 then m == t.next.value else (m - t.next.value) % t.interval == 0
  }

  function DueBy(t: Timer, now: nat): set<nat> {
    set m | 0 <= m <= now && IsDue(t, m)
  }

  /** A poll counts the moments at which the timer was due, each once.  What is due later stays so, and nothing that
      was counted stays due. */
  lemma PollCounts(t: Timer, now: nat)
    ensures Poll(t, now).1 == |DueBy(t, now)|
    ensures forall m: nat :: IsDue(Poll(t, now).0, m) <==> IsDue(t, m) && m > now
  {
    if t.next.None? || now < t.next.value {
      assert DueBy(t, now) == {};
    } else if t.interval == 0 {
      assert DueBy(t, now) == {t.next.value};
    } else {
      var d, i := t.next.value, t.interval;
      MomentsMany(d, i, Count(d, i, now));
      forall m: nat
        ensures m in DueBy(t, now) <==> m in Moments(d, i, Count(d, i, now))
        ensures IsDue(Poll(t, now).0, m) <==> IsDue(t, m) && m > now
      {
        MomentsAre(d, i, Count(d, i, now), m);
        DueLater(d, i, now, m);
      }
      assert DueBy(t, now) == Moments(d, i, Count(d, i, now));
    }
  }

  /** The first `n` moments of a timer that repeats. */
  function Moments(d: nat, i: nat, n: nat): set<nat> {
    if n == 0 then {} else Moments(d, i, n - 1) + {d + Arith.Times(n - 1, i)}
  }

  lemma {:induction false} MomentsMany(d: nat, i: nat, n: nat)
    requires i > 0
    ensures |Moments(d, i, n)| == n
    ensures forall m :: m in Moments(d, i, n) ==> m < d + Arith.Times(n, i)
  {
    if n > 0 {
      MomentsMany(d, i, n - 1);
      Arith.MulStep(n - 1, i);
    }
  }

  lemma {:induction false} MomentsAre(d: nat, i: nat, n: nat, m: nat)
    requires i > 0
    ensures m in Moments(d, i, n) <==> m >= d && (m - d) % i == 0 && m < d + Arith.Times(n, i)
  {
    if n == 0 {
      Arith.TimesZero(i);
    } else {
      MomentsAre(d, i, n - 1, m);
      Arith.MulStep(n - 1, i);
      if m == d + Arith.Times(n - 1, i) {
        Arith.DivModUnique(n - 1, i, 0);
      } else if m >= d && (m - d) % i == 0 && d + Arith.Times(n - 1, i) <= m < d + Arith.Times(n, i) {
        Arith.DivModUnique(n - 1, i, m - d - (n - 1) * i);
      }
    }
  }

  lemma DueLater(d: nat, i: nat, now: nat, m: nat)
    requires i > 0 && now >= d
    ensures m >= Next(d, i, now) && (m - Next(d, i, now)) % i == 0 <==> m >= d && (m - d) % i == 0 && m > now
    ensures m >= d && (m - d) % i == 0 ==> (m <= now <==> m < d + Arith.Times(Count(d, i, now), i))
  {
    NextIsFirst(d, i, now);
    var c, e := Count(d, i, now), Next(d, i, now);
    if m >= d && (m - d) % i == 0 {
      var q := (m - d) / i;
      assert m - d == q * i;
      if q >= c {
        Arith.TimesAdd(c, q - c, i);
        Arith.DivModUnique(q - c, i, 0);
      } else {
        Arith.MulMono(q + 1, c, i);
        Arith.MulStep(q, i);
      }
    }
    if m >= e && (m - e) % i == 0 {
      var q := (m - e) / i;
      assert m - e == q * i;
      Arith.TimesAdd(c, q, i);
      Arith.DivModUnique(c + q, i, 0);
    }
  }

  // ----- any number of polls

  function PollAll(t: Timer, times: seq<nat>): (Timer, nat) {
    if times == [] then (t, 0)
    else
      var (u, n) := PollAll(t, times[..|times| - 1]);
      var (w, m) := Poll(u, times[|times| - 1]);
      (w, n + m)
  }

  predicate Increasing(times: seq<nat>) {
    forall i, j :: 0 <= i < j < |times| ==> times[i] <= times[j]
  }

  /** Polling at any increasing times gives the total and the deadline of one poll at the last time. */
  lemma {:induction false} PollsCompose(t: Timer, times: seq<nat>)
    requires Increasing(times) && times != []
    ensures PollAll(t, times) == Poll(t, times[|times| - 1])
  {
    var n := |times| - 1;
    if n == 0 {
      assert times[..n] == [];
    } else {
      PollsCompose(t, times[..n]);
      assert times[..n][n - 1] == times[n - 1];
      PollTwice(t, times[n - 1], times[n]);
    }
  }

  // ----- the stepping loop

  /** Timers of all processes and the global count of the armed ones. */
  class IntervalTimers {
    var timers: seq<Timer>
    var armed: nat

    constructor (n: nat)
      ensures Valid() && timers == seq(n, _ => Timer(0, None))
    {
      timers := seq(n, _ => Timer(0, None));
      armed := 0;
      new;
      NoneArmed(n);
    }

    ghost predicate Valid()
      reads this
    {
      armed == Armed(timers)
    }

    /** `expire`: the loop arrives at the closed form; the timer is disarmed when the next deadline would not
        be a time any more. */
    method Expire(i: nat, now: nat) returns (count: Option<nat>)
      requires Valid() && i < |timers| && now <= MAX_TIME
      modifies this
      ensures Valid()
      ensures count == if Poll(old(timers)[i], now).1 == 0 then None else Some(Poll(old(timers)[i], now).1)
      ensures var t := Poll(old(timers)[i], now).0;
              timers == old(timers)[i := if t.next.Some? && t.next.value > MAX_TIME
                  && count.Some? then t.(next := None) else t]
    {
      var t := timers[i];
      if t.next.None? || t.next.value > now {
        assert timers[i := t] == timers;
        return None;
      }
      if t.interval == 0 {
        count := Some(1);
        Set(i, t.(next := None));
        return;
      }
      var deadline := t.next.value;
      var n, at := 1, deadline;
      Arith.TimesZero(t.interval);
      while at + t.interval <= MAX_TIME && at + t.interval <= now
        invariant timers == old(timers) && armed == old(armed)
        invariant n >= 1 && at == deadline + Arith.Times(n - 1, t.interval) && deadline <= at <= now
        decreases now - at
      {
        Arith.TimesAdd(n - 1, 1, t.interval);
        Arith.TimesOne(t.interval);
        at := at + t.interval;
        n := n + 1;
      }
      Arith.TimesAdd(n - 1, 1, t.interval);
      Arith.TimesOne(t.interval);
      CountUnique(deadline, t.interval, now, n);
      count := Some(n);
      Set(i, t.(next := if at + t.interval <= MAX_TIME then Some(at + t.interval) else None));
    }

    /** The timer changes, and with it the count of armed timers (`note_transition`). */
    method Set(i: nat, t: Timer)
      requires Valid() && i < |timers|
      modifies this
      ensures Valid() && timers == old(timers)[i := t]
    {
      ArmedUpdate(timers, i, t);
      if timers[i].next.None? && t.next.Some? {
        armed := armed + 1;
      } else if timers[i].next.Some? && t.next.None? {
        armed := armed - 1;
      }
      timers := timers[i := t];
    }

    /** `replace`; a time that is not valid is `None`.  A failed call may still have changed the interval. */
    method Replace(i: nat, now: nat, interval: Option<nat>, initial: Option<nat>) returns (ok: bool)
      requires Valid() && i < |timers|
      modifies this
      ensures Valid()
      ensures ok <==> interval.Some? && initial.Some? && (initial.value == 0 || now + initial.value <= MAX_TIME)
      ensures ok ==>
                timers == old(timers)[i :=
                    Timer(interval.value, if initial.value == 0 then None else Some(now + initial.value))]
      ensures !ok ==>
                timers == old(timers)[i :=
                    old(timers)[i].(interval := if interval.Some? then interval.value else old(timers)[i].interval)]
    {
      if interval.None? {
        assert timers[i := timers[i]] == timers;
        return false;
      }
      Set(i, timers[i].(interval := interval.value));
      if initial.None? {
        return false;
      }
      if initial.value == 0 {
        Set(i, timers[i].(next := None));
      } else if now + initial.value > MAX_TIME {
        return false;
      } else {
        Set(i, timers[i].(next := Some(now + initial.value)));
      }
      return true;
    }

    /** `disarm`. */
    method Disarm(i: nat)
      requires Valid() && i < |timers|
      modifies this
      ensures Valid() && timers == old(timers)[i := Timer(0, None)]
    {
      Set(i, Timer(0, None));
    }
  }

  // ----- the division form

  function Min(a: nat, b: nat): nat {
    if a < b then a else b
  }

  /** The next deadline as `advance` computes it: the count is capped at 32 bits before multiplying. */
  function NextCapped(deadline: nat, interval: nat, count: nat): nat {
    deadline + Min(Arith.Times(interval, Min(count, U32_MAX)), MAX_TIME)
  }

  /** The capped form is the closed form exactly when the count fits 32 bits. */
  lemma CappedIff(deadline: nat, interval: nat, now: nat)
    requires interval > 0 && now >= deadline && Next(deadline, interval, now) <= MAX_TIME
    ensures NextCapped(deadline, interval, Count(deadline, interval, now)) == Next(deadline, interval, now)
       <==> Count(deadline, interval, now) <= U32_MAX
    ensures Count(deadline, interval, now) > U32_MAX ==>
              NextCapped(deadline, interval, Count(deadline, interval, now)) <= now
  {
    hide Count;
    var c := Count(deadline, interval, now);
    Commutes(c, interval);
    if c > U32_MAX {
      NextIsFirst(deadline, interval, now);
      Arith.RowFits(U32_MAX, c, interval);
      Commutes(U32_MAX, interval);
    }
  }

  lemma Commutes(a: nat, b: nat)
    ensures Arith.Times(a, b) == Arith.Times(b, a)
  {
  }

  /** A timer due every nanosecond that is looked at after 2^32 of them: the deadline set is two behind, and the
      next look counts those two again. */
  lemma CountedTwice()
    ensures var t, now := Timer(1, Some(0)), U32_MAX + 1;
            && Poll(t, now).0.next == Some(now + 1) && Adv(t, now).0.next == Some(now - 1)
            && AdvAll(t, [now, now]).1 == PollAll(t, [now, now]).1 + 2
  {
    var t, now := Timer(1, Some(0)), U32_MAX + 1;
    assert Poll(t, now) == (Timer(1, Some(now + 1)), now + 1);
    assert Adv(t, now) == (Timer(1, Some(now - 1)), now + 1);
    assert Poll(Poll(t, now).0, now).1 == 0 && Adv(Adv(t, now).0, now).1 == 2;
    assert [now, now][..1] == [now] && [now][..0] == [];
    assert PollAll(t, [now]) == Poll(t, now) && AdvAll(t, [now]) == Adv(t, now);
  }

  // ----- any number of advances

  /** What `advance` makes of a timer, and how much it counts. */
  function Adv(t: Timer, now: nat): (Timer, nat) {
    if t.next.None? || now < t.next.value then (t, 0)
    else if t.interval == 0 then (t.(next := None), 1)
    else (t.(next := Some(NextCapped(t.next.value, t.interval, Added(t, now)))), Added(t, now))
  }

  /** An advance counts the moments at which the timer was due if 64 bits can; a one-shot timer fires once and is
      done. */
  lemma AdvCounts(t: Timer, now: nat)
    ensures |DueBy(t, now)| <= U64_MAX ==> Adv(t, now).1 == |DueBy(t, now)|
    ensures t.interval == 0 ==> Adv(t, now) == Poll(t, now)
  {
    PollCounts(t, now);
  }

  function AdvAll(t: Timer, times: seq<nat>): (Timer, nat) {
    if times == [] then (t, 0)
    else
      var (u, n) := AdvAll(t, times[..|times| - 1]);
      var (w, m) := Adv(u, times[|times| - 1]);
      (w, n + m)
  }

  /** The deadlines and counts up to `last` are times and 64-bit numbers. */
  predicate Bounded(t: Timer, last: nat) {
    t.next.Some? && t.interval > 0 && t.next.value <= last ==>
      Next(t.next.value, t.interval, last) <= MAX_TIME && Count(t.next.value, t.interval, last) <= U64_MAX
  }

  /** The division form is `k` intervals behind the right schedule, in which `last` has been dealt with. */
  predicate Lag(u: Timer, w: Timer, k: nat, last: nat) {
    && (k == 0 ==> u == w)
    && (k > 0 ==>
          && u.interval == w.interval > 0 && u.next.Some? && w.next.Some?
          && w.next.value == u.next.value + Arith.Times(k, u.interval)
          && w.next.value - w.interval <= last < w.next.value)
  }

  function Excess(count: nat): nat {
    if count > U32_MAX then count - U32_MAX else 0
  }

  /** One more advance counts what it is behind once more, and falls behind by what does not fit 32 bits. */
  lemma LagStep(u: Timer, w: Timer, k: nat, last: nat, now: nat)
    requires Lag(u, w, k, last) && last <= now && Bounded(w, now) && Poll(w, now).1 + k <= U64_MAX
    requires k > 0 ==> w.next.value <= MAX_TIME
    ensures Adv(u, now).1 == Poll(w, now).1 + k
    ensures Lag(Adv(u, now).0, Poll(w, now).0, Excess(Adv(u, now).1), now)
  {
    hide Count, Arith.Times, Next, Lag;
    LagIs(u, w, k, last);
    if u.next.Some? && u.next.value <= now && u.interval > 0 {
      LagFires(u, w, k, last, now);
    } else {
      LagRests(u, w, k, last, now);
    }
  }

  lemma LagIs(u: Timer, w: Timer, k: nat, last: nat)
    requires Lag(u, w, k, last)
    ensures k == 0 ==> u == w
    ensures k > 0 ==> u.interval == w.interval > 0 && u.next.Some? && w.next.Some?
  {
  }

  lemma LagRests(u: Timer, w: Timer, k: nat, last: nat, now: nat)
    requires Lag(u, w, k, last) && last <= now && !(u.next.Some? && u.next.value <= now && u.interval > 0)
    ensures k == 0 && Adv(u, now).1 == Poll(w, now).1 && Lag(Adv(u, now).0, Poll(w, now).0, Excess(Adv(u, now).1), now)
  {
    if k > 0 {
      Arith.MulMono(1, k, u.interval);
    }
  }

  lemma LagFires(u: Timer, w: Timer, k: nat, last: nat, now: nat)
    requires Lag(u, w, k, last) && last <= now && u.next.Some? && u.next.value <= now && u.interval > 0
    requires Bounded(w, now) && Poll(w, now).1 + k <= U64_MAX && (k > 0 ==> w.next.value <= MAX_TIME)
    ensures Adv(u, now).1 == Poll(w, now).1 + k
    ensures Lag(Adv(u, now).0, Poll(w, now).0, Excess(Adv(u, now).1), now)
  {
    hide Count, Arith.Times;
    var i, d := u.interval, u.next.value;
    var c := Poll(w, now).1 + k;
    Arith.TimesAdd(k, Poll(w, now).1, i);
    Arith.TimesZero(i);
    if now >= w.next.value {
      NextIsFirst(w.next.value, i, now);
      Fired(w.next.value, i, now);
    }
    var w' := Poll(w, now).0;
    assert w'.next.value == d + Arith.Times(c, i) && w'.next.value - i <= now < w'.next.value <= MAX_TIME;
    CountUnique(d, i, now, c);
    AddedIs(u, now);
    Commutes(i, Min(c, U32_MAX));
    Arith.TimesAdd(Excess(c), Min(c, U32_MAX), i);
  }

  lemma AddedIs(t: Timer, now: nat)
    requires t.next.Some? && t.next.value <= now && t.interval > 0 && Count(t.next.value, t.interval, now) <= U64_MAX
    ensures Added(t, now) == Count(t.next.value, t.interval, now)
  {
  }

  /** The count of poll `j` fits 32 bits. */
  predicate Small(t: Timer, times: seq<nat>, j: nat)
    requires j < |times|
  {
    Poll(PollAll(t, times[..j]).0, times[j]).1 <= U32_MAX
  }

  ghost predicate AllSmall(t: Timer, times: seq<nat>, n: nat)
    requires n <= |times|
  {
    forall j :: 0 <= j < n ==> Small(t, times, j)
  }

  lemma BoundedBefore(t: Timer, now: nat, later: nat)
    requires now <= later && Bounded(t, later)
    ensures Bounded(t, now) && Bounded(Poll(t, now).0, later)
    ensures t.next.Some? && t.interval > 0 && t.next.value <= now ==> Poll(t, now).0.next.value <= MAX_TIME
    ensures t.interval > 0 && Poll(t, now).1 > 0 ==> Poll(t, later).1 <= U64_MAX
  {
    hide Count, Arith.Times;
    if t.next.Some? && t.interval > 0 && t.next.value <= now {
      var d, i := t.next.value, t.interval;
      Later(d, i, now, later);
      var e := Next(d, i, now);
      Arith.TimesAdd(Count(d, i, now), Count(e, i, later), i);
    }
  }

  /** How far the division form has got after some advances. */
  lemma {:induction false} RunLag(t: Timer, times: seq<nat>) returns (k: nat)
    requires times != [] && Increasing(times) && Bounded(t, times[|times| - 1])
    ensures var n, a, b := |times|, AdvAll(t, times), PollAll(t, times);
            && Lag(a.0, b.0, k, times[n - 1]) && k <= b.1 <= a.1
            && (AllSmall(t, times, n) <==> k == 0 && a.1 == b.1)
            && (AllSmall(t, times, n - 1) <==> a.1 == b.1)
  {
    hide Lag, Poll, Adv, Bounded, Small;
    var n := |times| - 1;
    PollsCompose(t, times);
    if n == 0 {
      FirstLag(t, times);
      k := Excess(Adv(t, times[0]).1);
    } else {
      var before := times[..n];
      BoundedBefore(t, times[n - 1], times[n]);
      var h := RunLag(t, before);
      PollsCompose(t, before);
      NextLag(t, times, h);
      k := Excess(Adv(AdvAll(t, before).0, times[n]).1);
      SmallPrefix(t, times, n);
      SmallAt(t, times, n);
    }
  }

  lemma SmallAt(t: Timer, times: seq<nat>, j: nat)
    requires j < |times|
    ensures Small(t, times, j) <==> Poll(PollAll(t, times[..j]).0, times[j]).1 <= U32_MAX
  {
  }

  lemma FirstLag(t: Timer, times: seq<nat>)
    requires |times| == 1 && Bounded(t, times[0])
    ensures times[..0] == []
    ensures AdvAll(t, times) == Adv(t, times[0]) && PollAll(t, times) == Poll(t, times[0])
    ensures Adv(t, times[0]).1 == Poll(t, times[0]).1
    ensures Lag(Adv(t, times[0]).0, Poll(t, times[0]).0, Excess(Adv(t, times[0]).1), times[0])
    ensures Small(t, times, 0) <==> Excess(Adv(t, times[0]).1) == 0
  {
    hide Count, Arith.Times;
    assert times[..0] == [];
    PollBound(t, times[0]);
    LagStep(t, t, 0, times[0], times[0]);
  }

  lemma PollBound(t: Timer, now: nat)
    requires Bounded(t, now)
    ensures Poll(t, now).1 <= U64_MAX
  {
  }

  lemma NextLag(t: Timer, times: seq<nat>, h: nat)
    requires |times| > 1 && Increasing(times) && Bounded(t, times[|times| - 1])
    requires var n := |times| - 1;
             Lag(AdvAll(t, times[..n]).0, PollAll(t, times[..n]).0, h, times[n - 1]) && h <= PollAll(t, times[..n]).1
    requires PollAll(t, times[..|times| - 1]) == Poll(t, times[|times| - 2])
    ensures var n := |times| - 1;
            var a, b, now := AdvAll(t, times[..n]), PollAll(t, times[..n]), times[n];
            && AdvAll(t, times) == (Adv(a.0, now).0, a.1 + Adv(a.0, now).1)
            && PollAll(t, times) == (Poll(b.0, now).0, b.1 + Poll(b.0, now).1)
            && Adv(a.0, now).1 == Poll(b.0, now).1 + h
            && Lag(Adv(a.0, now).0, Poll(b.0, now).0, Excess(Adv(a.0, now).1), now)
  {
    hide Count, Arith.Times, Lag, Poll, Adv, Bounded;
    var n := |times| - 1;
    BoundedBefore(t, times[n - 1], times[n]);
    PollTwice(t, times[n - 1], times[n]);
    PollBound(t, times[n]);
    LagBound(t, AdvAll(t, times[..n]).0, h, times[n - 1]);
    LagStep(AdvAll(t, times[..n]).0, PollAll(t, times[..n]).0, h, times[n - 1], times[n]);
  }

  lemma LagBound(t: Timer, u: Timer, k: nat, now: nat)
    requires Lag(u, Poll(t, now).0, k, now) && k <= Poll(t, now).1 && Bounded(t, now)
    ensures k > 0 ==> Poll(t, now).0.next.Some? && Poll(t, now).0.next.value <= MAX_TIME
  {
  }

  lemma SmallPrefix(t: Timer, times: seq<nat>, n: nat)
    requires n <= |times|
    ensures forall j :: 0 <= j < n ==> (Small(t, times[..n], j) <==> Small(t, times, j))
  {
    forall j | 0 <= j < n
      ensures Small(t, times[..n], j) <==> Small(t, times, j)
    {
      assert times[..n][..j] == times[..j];
    }
  }

  /** Advances at any increasing times count as often as the timer is due exactly when each count but the last
      fits 32 bits; otherwise they count too much. */
  lemma AdvancesCompose(t: Timer, times: seq<nat>)
    requires times != [] && Increasing(times) && Bounded(t, times[|times| - 1])
    ensures AdvAll(t, times).1 == Poll(t, times[|times| - 1]).1 <==> AllSmall(t, times, |times| - 1)
    ensures AdvAll(t, times).1 >= Poll(t, times[|times| - 1]).1
    ensures AllSmall(t, times, |times|) ==> AdvAll(t, times).0 == Poll(t, times[|times| - 1]).0
  {
    hide AllSmall, Poll, AdvAll, Bounded;
    var k := RunLag(t, times);
    PollsCompose(t, times);
  }

  /** What `advance` does; adding durations whose sum is not a time stops the kernel. */
  datatype Advanced = Rested | Fired | Panicked

  class Timerfd {
    var timer: Timer
    var expirations: nat
    /** All expirations counted since the timer was set, and those read. */
    ghost var fired: nat
    ghost var taken: nat

    /** Nothing counted is lost or read twice. */
    ghost predicate Valid()
      reads this
    {
      fired == taken + expirations && expirations <= U64_MAX
    }

    constructor ()
      ensures Valid() && timer == Timer(0, None) && expirations == fired == taken == 0
    {
      timer, expirations, fired, taken := Timer(0, None), 0, 0, 0;
    }

    /** `settime`: pending expirations are dropped. */
    method SetTime(deadline: Option<nat>, interval: nat)
      modifies this
      ensures Valid() && timer == Timer(interval, deadline) && expirations == fired == taken == 0
    {
      timer, expirations, fired, taken := Timer(interval, deadline), 0, 0, 0;
    }

    /** `advance`: one division instead of the loop.  While the count fits 32 bits and the next deadline is a
        time, it agrees with the closed form. */
    method Advance(now: nat) returns (r: Advanced)
      requires Valid()
      modifies this
      ensures Valid() && taken == old(taken)
      ensures r == Panicked <==> Overflows(old(timer), now)
      ensures r != Panicked ==> timer == Adv(old(timer), now).0 && (r == Fired <==> Poll(old(timer), now).1 > 0)
      ensures r == Panicked ==> timer == old(timer)
      ensures expirations == Min(old(expirations) + Adv(old(timer), now).1, U64_MAX)
      ensures InRange(old(timer), now) ==> r != Panicked && Adv(old(timer), now) == Poll(old(timer), now)
    {
      ghost var was := expirations;
      if timer.next.None? || now < timer.next.value {
        return Rested;
      }
      var deadline := timer.next.value;
      r := Fired;
      if timer.interval == 0 {
        expirations := Min(expirations + 1, U64_MAX);
        timer := timer.(next := None);
      } else {
        var elapsed := now - deadline;
        var extra := elapsed / timer.interval % (U64_MAX + 1);
        var count := Min(1 + extra, U64_MAX);
        if InRange(timer, now) {
          CappedIff(deadline, timer.interval, now);
        }
        expirations := Min(expirations + count, U64_MAX);
        var next := NextCapped(deadline, timer.interval, count);
        if next > MAX_TIME {
          r := Panicked;
        } else {
          timer := timer.(next := Some(next));
        }
      }
      fired := fired + (expirations - was);
    }

    /** The counter part of `read`: what has been counted is handed out and the counter starts over. */
    method Read(now: nat) returns (count: Option<nat>)
      requires Valid()
      modifies this
      ensures Valid() && (count == None <==> Overflows(old(timer), now))
      ensures count.Some? ==>
                && expirations == 0 && taken == fired == old(taken) + count.value && timer == Adv(old(timer), now).0
                && count.value == Min(old(expirations) + Adv(old(timer), now).1, U64_MAX)
    {
      var r := Advance(now);
      if r == Panicked {
        return None;
      }
      count := Some(expirations);
      expirations := 0;
      taken := taken + count.value;
    }

    /** Reads at any increasing times add up to the number of times the timer was due, exactly when each count
        but the last fits 32 bits. */
    method Reads(times: seq<nat>) returns (total: nat)
      requires Valid() && expirations == 0 && times != [] && Increasing(times) && Bounded(timer, times[|times| - 1])
      modifies this
      ensures Valid() && expirations == 0 && total == taken - old(taken)
      ensures total == Poll(old(timer), times[|times| - 1]).1 <==> AllSmall(old(timer), times, |times| - 1)
    {
      hide AllSmall, Poll, Bounded, Adv, Overflows;
      total := 0;
      AdvancesCompose(timer, times);
      for n := 0 to |times|
        invariant Valid() && expirations == 0 && total == taken - old(taken)
        invariant AdvAll(old(timer), times[..n]) == (timer, total)
      {
        StaysBounded(old(timer), times, n);
        assert times[..n + 1][..n] == times[..n];
        var count := Read(times[n]);
        total := total + count.value;
      }
      assert times[..|times|] == times;
    }
  }

  /** In such a run nothing panics and no count is cut. */
  lemma StaysBounded(t: Timer, times: seq<nat>, n: nat)
    requires n < |times| && Increasing(times) && Bounded(t, times[|times| - 1])
    ensures !Overflows(AdvAll(t, times[..n]).0, times[n])
    ensures Adv(AdvAll(t, times[..n]).0, times[n]).1 <= U64_MAX
  {
    hide Bounded, Lag, Poll, AllSmall, NextCapped;
    var m := n + 1;
    if t.next.None? || times[n] < t.next.value {
      NotDue(t, times[..n], times[n]);
      return;
    }
    BoundedBefore(t, times[n], times[|times| - 1]);
    var k := RunLag(t, times[..m]);
    assert times[..m][..n] == times[..n];
    PollsCompose(t, times[..m]);
    LagTime(t, AdvAll(t, times[..m]).0, k, times[n]);
    NoOverflow(AdvAll(t, times[..n]).0, times[n]);
  }

  lemma {:induction false} NotDue(t: Timer, times: seq<nat>, now: nat)
    requires (t.next.None? || now < t.next.value) && forall i :: 0 <= i < |times| ==> times[i] <= now
    ensures AdvAll(t, times) == (t, 0)
  {
    if times != [] {
      NotDue(t, times[..|times| - 1], now);
    }
  }

  lemma LagTime(t: Timer, u: Timer, k: nat, now: nat)
    requires Lag(u, Poll(t, now).0, k, now) && Bounded(t, now) && t.next.Some? && t.next.value <= now
    ensures u.next.Some? ==> u.next.value <= MAX_TIME
  {
  }

  lemma NoOverflow(t: Timer, now: nat)
    requires Adv(t, now).0.next.Some? && Adv(t, now).1 > 0 ==> Adv(t, now).0.next.value <= MAX_TIME
    ensures !Overflows(t, now) && Adv(t, now).1 <= U64_MAX
  {
  }

  /** The count as `advance` computes it, cut to 64 bits. */
  function Added(t: Timer, now: nat): nat {
    if t.next.None? || now < t.next.value then 0
    else if t.interval == 0 then 1
    else Min(1 + (now - t.next.value) / t.interval % (U64_MAX + 1), U64_MAX)
  }

  /** Adding the capped product to the deadline would panic. */
  predicate Overflows(t: Timer, now: nat) {
    t.next.Some? && now >= t.next.value && t.interval > 0
        && NextCapped(t.next.value, t.interval, Added(t, now)) > MAX_TIME
  }

  predicate InRange(t: Timer, now: nat) {
    t.next.Some? && now >= t.next.value && t.interval > 0 ==>
      Next(t.next.value, t.interval, now) <= MAX_TIME && Count(t.next.value, t.interval, now) <= U32_MAX
  }

  function Armed(timers: seq<Timer>): nat {
    if timers == [] then 0 else (if timers[0].next.Some? then 1 else 0) + Armed(timers[1..])
  }

  lemma {:induction false} ArmedUpdate(timers: seq<Timer>, i: nat, t: Timer)
    requires i < |timers|
    ensures Armed(timers[i := t]) ==
              Armed(timers) - (if timers[i].next.Some? then 1 else 0) + (if t.next.Some? then 1 else 0)
    ensures timers[i].next.Some? ==> Armed(timers) > 0
  {
    if i > 0 {
      ArmedUpdate(timers[1..], i - 1, t);
      assert timers[i := t][1..] == timers[1..][i - 1 := t];
    } else {
      assert timers[i := t][1..] == timers[1..];
    }
  }

  lemma {:induction false} NoneArmed(n: nat)
    ensures Armed(seq(n, _ => Timer(0, None))) == 0
  {
    if n > 0 {
      NoneArmed(n - 1);
      assert seq(n, _ => Timer(0, None))[1..] == seq(n - 1, _ => Timer(0, None));
    }
  }
}
