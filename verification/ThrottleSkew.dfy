/** The throttle when clock readings may arrive out of order. A request reads the clock
    before it takes the shard lock, so a later locked section may carry a reading that
    is earlier by up to some skew. */
module ThrottleSkew {
  import opened Wrappers
  import opened IpAddresses
  import opened PerIpThrottle

  /** No reading is more than `skew` behind one taken into account before it. */
  ghost predicate Skewed(qs: seq<Request>, skew: nat) {
    forall i, j | 0 <= i <= j < |qs| :: qs[i].now <= qs[j].now + skew
  }

  /** The latest reading among the first `n` requests. */
  ghost function Top(qs: seq<Request>, n: nat): nat
    requires n <= |qs|
  {
    if n == 0 then 0 else if Top(qs, n - 1) < qs[n - 1].now then qs[n - 1].now else Top(qs, n - 1)
  }

  lemma {:induction false} TopIsNear(qs: seq<Request>, skew: nat, n: nat, m: nat)
    requires Skewed(qs, skew) && n <= m < |qs|
    ensures Top(qs, n) <= qs[m].now + skew
  {
    if n > 0 {
      TopIsNear(qs, skew, n - 1, m);
      assert qs[n - 1].now <= qs[m].now + skew;
    }
  }

  // ---------------------------------------------------------------- one address

  /** `w` is the last window of `a`: still in the shard, or gone because some reading so
      far had seen it expired. */
  ghost predicate Holds(l: Limits, s: Shard, a: IpAddr, w: Option<Window>, top: nat) {
    && (w.Some? ==> 1 <= w.value.count <= l.rate && w.value.start <= top)
    && (if a in s.windows then w == Some(s.windows[a]) else w.Some? ==> w.value.start + l.window <= top)
  }

  function Later(a: nat, b: nat): nat { if a < b then b else a }

  /** How one request of `a` may move its last window, when windows open at least `gap`
      apart; `top` is the latest reading, this one included. */
  ghost predicate Moves(l: Limits, gap: nat, w: Option<Window>, after: Option<Window>, top: nat, now: nat,
                        allowed: bool) {
    || (!allowed && after == w)
    || (&& allowed && w.Some? && w.value.count < l.rate
        && now < w.value.start + l.window
        && after == Some(w.value.(count := w.value.count + 1)))
    || (&& allowed && after == Some(Window(now, 1))
        && (w.Some? ==> w.value.start + l.window <= top && w.value.start + gap <= now))
  }

  lemma {:induction false} SweepHolds(l: Limits, s: Shard, a: IpAddr, w: Option<Window>, top: nat, now: nat)
    requires Holds(l, s, a, w, top) && l.window > 0
    ensures Holds(l, if DueForSweep(s, now) then Sweep(l, s, now) else s, a, w, Later(top, now))
  {
  }

  lemma {:induction false} ChargeMoves(l: Limits, s: Shard, a: IpAddr, w: Option<Window>, top: nat, skew: nat, now: nat)
      returns (after: Option<Window>)
    requires Holds(l, s, a, w, top) && now <= top <= now + skew && l.rate > 0 && skew < l.window
    requires !Charge(l, s, a, now).1.Untracked?
    ensures Holds(l, Charge(l, s, a, now).0, a, after, top)
    ensures Moves(l, l.window - skew, w, after, top, now, Allows(Charge(l, s, a, now).1))
  {
    after := Some(Charge(l, s, a, now).0.windows[a]);
  }

  lemma {:induction false} OthersHold(l: Limits, s: Shard, a: IpAddr, ip: IpAddr, w: Option<Window>, top: nat, now: nat)
    requires Holds(l, s, a, w, top) && ip != a
    ensures Holds(l, Charge(l, s, ip, now).0, a, w, top)
  {
  }

  /** One request of the run, seen from `a`. */
  lemma {:induction false} StepMoves(l: Limits, t: Throttle, q: Request, a: IpAddr, w: Option<Window>, top: nat,
                                     skew: nat)
      returns (after: Option<Window>)
    requires WellFormed(t) && l.rate > 0 && skew < l.window && top <= q.now + skew
    requires Holds(l, ShardOf(t, a), a, w, top)
    requires From(q, a) ==> !Step(l, t, q).1.Untracked?
    ensures Holds(l, ShardOf(Step(l, t, q).0, a), a, after, Later(top, q.now))
    ensures if From(q, a) then Moves(l, l.window - skew, w, after, Later(top, q.now), q.now, Allows(Step(l, t, q).1))
            else after == w
  {
    StepShard(l, t, q, a);
    var ip, s, top' := Canonical(q.ip), ShardOf(t, a), Later(top, q.now);
    after := w;
    if ShardIndex(ip) == ShardIndex(a) {
      SweepHolds(l, s, a, w, top, q.now);
      var swept := if DueForSweep(s, q.now) then Sweep(l, s, q.now) else s;
      if ip == a {
        after := ChargeMoves(l, swept, a, w, top', skew, q.now);
      } else {
        OthersHold(l, swept, a, ip, w, top', q.now);
      }
    }
  }

  // ---------------------------------------------------------------- counting windows

  lemma {:induction false} DivideLeq(x: int, y: int, d: nat)
    requires d > 0 && x <= y
    ensures x / d <= y / d
  {
    TimesBelow(x / d, y / d, d, x, y);
  }

  lemma {:induction false} TimesBelow(p: int, q: int, d: nat, x: int, y: int)
    requires d > 0 && p * d <= x <= y < q * d + d
    ensures p <= q
  {
    assert (q + 1) * d == q * d + d;
    if q + 1 <= p {
      TimesLeq(q + 1, p, d);
    }
  }

  lemma {:induction false} DivideStep(x: int, y: int, d: nat)
    requires d > 0 && x + d <= y
    ensures x / d + 1 <= y / d
  {
    TimesBelow(x / d + 1, y / d, d, x + d, y);
  }

  lemma {:induction false} TimesLeq(a: int, b: int, r: nat)
    requires a <= b
    ensures a * r <= b * r
  {
  }

  /** How many windows that open `gap` apart can hold a reading of one interval one window
      long, and how many of them can open inside it. */
  function Windows(l: Limits, skew: nat, gap: nat): nat
    requires l.window > 0 && gap > 0
  {
    DivideLeq(-1, l.window + skew - 2, gap);
    MinusOne(gap);
    (l.window + skew - 2) / gap + 2
  }

  lemma {:induction false} MinusOne(d: nat)
    requires d > 0
    ensures -1 / d == -1
  {
  }

  function Openings(l: Limits, gap: nat): nat
    requires l.window > 0 && gap > 0
  {
    (l.window - 1) / gap + 1
  }

  /** Each window admits `rate`, one of them as it opens. */
  function Burst(l: Limits, skew: nat, gap: nat): nat
    requires l.rate > 0 && l.window > 0 && gap > 0
  {
    Windows(l, skew, gap) * (l.rate - 1) + Openings(l, gap)
  }

  /** The window that opens at `s` is at most this many-th one with a reading in the
      interval from `lo`. */
  function Ordinal(l: Limits, gap: nat, s: nat, lo: nat): nat
    requires gap > 0 && s + l.window > lo
  {
    (s + l.window - 1 - lo) / gap + 1
  }

  /** At most this many windows up to the one that opens at `s` open in the interval. */
  function Opened(l: Limits, gap: nat, s: nat, lo: nat): nat
    requires l.window > 0 && gap > 0
  {
    if s < lo then 0 else (if s < lo + l.window then s - lo else l.window - 1) / gap + 1
  }

  function Least(a: nat, b: nat): nat { if a < b then a else b }

  /** What the last window says about the admissions so far in [lo, lo + window). Once
      `top` is beyond `skew` after the interval, no reading can fall into it again. */
  ghost predicate Spread(l: Limits, skew: nat, gap: nat, w: Option<Window>, admitted: nat, lo: nat, top: nat)
    requires l.rate > 0 && l.window > 0 && gap > 0
  {
    match w
    case None => admitted == 0
    case Some(Window(s, c)) =>
      && admitted <= Burst(l, skew, gap)
      && (s + l.window <= lo ==> admitted == 0)
      && (s + l.window > lo && top < lo + l.window + skew ==>
            admitted <= (Least(Ordinal(l, gap, s, lo), Windows(l, skew, gap)) - 1) * (l.rate - 1) +
                        (c - 1) + Opened(l, gap, s, lo))
  }

  /** While readings can still fall into the interval, the next window to open is one
      further, and counts as opened inside if it is. */
  lemma {:induction false} NextOrdinal(l: Limits, skew: nat, gap: nat, s: nat, now: nat, lo: nat, top: nat)
    requires l.window > 0 && gap > 0 && s + l.window > lo
    requires s + l.window <= top < lo + l.window + skew && s + gap <= now
    ensures now + l.window > lo
    ensures Least(Ordinal(l, gap, s, lo), Windows(l, skew, gap)) + 1 <=
            Least(Ordinal(l, gap, now, lo), Windows(l, skew, gap))
    ensures Opened(l, gap, s, lo) + (if lo <= now < lo + l.window then 1 else 0) <= Opened(l, gap, now, lo)
  {
    DivideStep(s + l.window - 1 - lo, now + l.window - 1 - lo, gap);
    DivideLeq(s + l.window - 1 - lo, l.window + skew - 2, gap);
    if lo <= now {
      DivideLeq(0, if now < lo + l.window then now - lo else l.window - 1, gap);
      if lo <= s {
        if now < lo + l.window {
          DivideStep(s - lo, now - lo, gap);
        } else {
          DivideLeq(if s < lo + l.window then s - lo else l.window - 1, l.window - 1, gap);
        }
      }
    }
  }

  lemma {:induction false} BurstCovers(l: Limits, skew: nat, gap: nat, s: nat, c: nat, lo: nat)
    requires l.rate > 0 && l.window > 0 && gap > 0 && s + l.window > lo && 1 <= c <= l.rate
    ensures (Least(Ordinal(l, gap, s, lo), Windows(l, skew, gap)) - 1) * (l.rate - 1) +
            (c - 1) + Opened(l, gap, s, lo) <= Burst(l, skew, gap)
  {
    var k, n := Least(Ordinal(l, gap, s, lo), Windows(l, skew, gap)), Windows(l, skew, gap);
    TimesLeq(k, n, l.rate - 1);
    if lo <= s {
      DivideLeq(if s < lo + l.window then s - lo else l.window - 1, l.window - 1, gap);
    }
    DivideLeq(0, l.window - 1, gap);
    assert (k - 1) * (l.rate - 1) + (l.rate - 1) == k * (l.rate - 1);
  }

  lemma {:induction false} CountSpreads(l: Limits, skew: nat, gap: nat, w: Window, top: nat, now: nat, admitted: nat,
                                        lo: nat)
    requires l.rate > 0 && l.window > 0 && gap > 0 && 1 <= w.count < l.rate
    requires now < w.start + l.window && top <= now + skew
    requires Spread(l, skew, gap, Some(w), admitted, lo, top)
    ensures Spread(l, skew, gap, Some(w.(count := w.count + 1)),
                   admitted + if lo <= now < lo + l.window then 1 else 0, lo, top)
  {
    if lo <= now < lo + l.window {
      BurstCovers(l, skew, gap, w.start, w.count + 1, lo);
    }
  }

  lemma {:induction false} OpenSpreads(l: Limits, skew: nat, gap: nat, w: Option<Window>, top: nat, now: nat,
                                       admitted: nat, lo: nat)
    requires l.rate > 0 && l.window > 0 && gap > 0 && now <= top <= now + skew
    requires w.Some? ==> 1 <= w.value.count <= l.rate && w.value.start + l.window <= top && w.value.start + gap <= now
    requires Spread(l, skew, gap, w, admitted, lo, top)
    ensures Spread(l, skew, gap, Some(Window(now, 1)), admitted + if lo <= now < lo + l.window then 1 else 0, lo, top)
  {
    if now + l.window > lo && top < lo + l.window + skew {
      var k := Least(Ordinal(l, gap, now, lo), Windows(l, skew, gap));
      if lo <= now {
        DivideLeq(0, if now < lo + l.window then now - lo else l.window - 1, gap);
      }
      DivideLeq(0, now + l.window - 1 - lo, gap);
      WindowsPositive(l, skew, gap);
      TimesLeq(0, k - 1, l.rate - 1);
      if w.Some? && w.value.start + l.window > lo {
        var s, c := w.value.start, w.value.count;
        NextOrdinal(l, skew, gap, s, now, lo, top);
        var j := Least(Ordinal(l, gap, s, lo), Windows(l, skew, gap));
        TimesLeq(j, k - 1, l.rate - 1);
        assert (j - 1) * (l.rate - 1) + (l.rate - 1) == j * (l.rate - 1);
      }
      BurstCovers(l, skew, gap, now, 1, lo);
    }
  }

  lemma {:induction false} WindowsPositive(l: Limits, skew: nat, gap: nat)
    requires l.window > 0 && gap > 0
    ensures Windows(l, skew, gap) >= 1
  {
    DivideLeq(-1, l.window + skew - 2, gap);
    MinusOne(gap);
  }

  lemma {:induction false} SpreadStep(l: Limits, skew: nat, gap: nat, w: Option<Window>, after: Option<Window>,
                                      top: nat, now: nat, allowed: bool, admitted: nat, lo: nat)
    requires l.rate > 0 && l.window > 0 && gap > 0 && now <= top <= now + skew
    requires w.Some? ==> 1 <= w.value.count <= l.rate
    requires Moves(l, gap, w, after, top, now, allowed) && Spread(l, skew, gap, w, admitted, lo, top)
    ensures Spread(l, skew, gap, after, admitted + if allowed && lo <= now < lo + l.window then 1 else 0, lo, top)
  {
    if allowed {
      if after == Some(Window(now, 1)) && (w.Some? ==> w.value.start + l.window <= top && w.value.start + gap <= now) {
        OpenSpreads(l, skew, gap, w, top, now, admitted, lo);
      } else {
        CountSpreads(l, skew, gap, w.value, top, now, admitted, lo);
      }
    }
  }

  /** Later readings of others take nothing away. */
  lemma {:induction false} SpreadLater(l: Limits, skew: nat, gap: nat, w: Option<Window>, admitted: nat, lo: nat,
                                       top: nat, top': nat)
    requires l.rate > 0 && l.window > 0 && gap > 0 && top <= top'
    requires Spread(l, skew, gap, w, admitted, lo, top)
    ensures Spread(l, skew, gap, w, admitted, lo, top')
  {
  }

  // ---------------------------------------------------------------- the bounds

  lemma {:induction false} StepSpreads(l: Limits, t: Throttle, q: Request, a: IpAddr, w: Option<Window>, top: nat,
                                       skew: nat, admitted: nat, lo: nat, top': nat, admitted': nat)
      returns (after: Option<Window>)
    requires WellFormed(t) && l.rate > 0 && skew < l.window && top <= q.now + skew && top' == Later(top, q.now)
    requires Holds(l, ShardOf(t, a), a, w, top) && Spread(l, skew, l.window - skew, w, admitted, lo, top)
    requires From(q, a) ==> !Step(l, t, q).1.Untracked?
    requires admitted' == admitted + if From(q, a) && Within(q, lo, l) && Allows(Step(l, t, q).1) then 1 else 0
    ensures Holds(l, ShardOf(Step(l, t, q).0, a), a, after, top')
    ensures Spread(l, skew, l.window - skew, after, admitted', lo, top')
  {
    after := StepMoves(l, t, q, a, w, top, skew);
    SpreadLater(l, skew, l.window - skew, w, admitted, lo, top, top');
    if From(q, a) {
      SpreadStep(l, skew, l.window - skew, w, after, top', q.now, Allows(Step(l, t, q).1), admitted, lo);
    }
  }

  lemma {:induction false} AdmissionsSpread(l: Limits, qs: seq<Request>, outs: seq<Outcome>, a: IpAddr, skew: nat,
                                            lo: nat, n: nat)
      returns (w: Option<Window>)
    requires l.rate > 0 && skew < l.window
    requires Skewed(qs, skew) && Outcomes(l, qs, outs) && n <= |qs| && AlwaysTracked(qs, outs, a, n)
    ensures Holds(l, ShardOf(Run(l, qs, n), a), a, w, Top(qs, n))
    ensures Spread(l, skew, l.window - skew, w, Admissions(l, qs, outs, a, lo, n), lo, Top(qs, n))
  {
    if n == 0 {
      InitialIsEmpty(a);
      w := None;
    } else {
      var before := AdmissionsSpread(l, qs, outs, a, skew, lo, n - 1);
      assert outs[n - 1] == OutcomeAt(l, qs, n - 1);
      TopIsNear(qs, skew, n - 1, n - 1);
      w := StepSpreads(l, Run(l, qs, n - 1), qs[n - 1], a, before, Top(qs, n - 1), skew,
                       Admissions(l, qs, outs, a, lo, n - 1), lo,
                       Top(qs, n), Admissions(l, qs, outs, a, lo, n));
    }
  }

  /** With readings out of order by less than a window, whatever other addresses do to its
      shard, an address that is never admitted untracked gets at most this many
      admissions in any interval one window long. */
  lemma {:induction false} SkewedRateBound(l: Limits, qs: seq<Request>, outs: seq<Outcome>, a: IpAddr, skew: nat,
                                           lo: nat)
    requires l.rate > 0 && skew < l.window
    requires Skewed(qs, skew) && Outcomes(l, qs, outs) && AlwaysTracked(qs, outs, a, |qs|)
    ensures Admissions(l, qs, outs, a, lo, |qs|) <= Burst(l, skew, l.window - skew)
  {
    var w := AdmissionsSpread(l, qs, outs, a, skew, lo, |qs|);
  }

  /** Up to a third of the window the bound is 3 * rate - 1, and 2 * rate - 1 in order. */
  lemma {:induction false} SkewedBurstInNumbers(l: Limits, skew: nat)
    requires l.rate > 0 && l.window > 1 && 3 * skew <= l.window + 1
    ensures skew < l.window
    ensures Burst(l, skew, l.window - skew) == if skew == 0 then 2 * l.rate - 1 else 3 * l.rate - 1
  {
    var gap := l.window - skew;
    if skew == 0 {
      Quotient(l.window + skew - 2, gap, 0);
      Quotient(l.window - 1, gap, 0);
    } else {
      Quotient(l.window + skew - 2, gap, 1);
      Quotient(l.window - 1, gap, 1);
    }
  }

  lemma {:induction false} Quotient(x: nat, d: nat, q: nat)
    requires d > 0 && q * d <= x < q * d + d
    ensures x / d == q
  {
    TimesBelow(x / d, q, d, x, x);
    TimesBelow(q, x / d, d, x, x);
  }
}
