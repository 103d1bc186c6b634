/** An address alone in its shard, with clock readings out of order: the exact burst for
    every rate, window and skew, and exactly when it stays within twice the rate. */
module LoneBursts {
  import opened Wrappers
  import opened IpAddresses
  import opened PerIpThrottle
  import opened ThrottleSkew

  // ---------------------------------------------------------------- runs and what they admit

  ghost function OutcomesOf(l: Limits, qs: seq<Request>): (outs: seq<Outcome>)
    ensures Outcomes(l, qs, outs)
  {
    seq(|qs|, i requires 0 <= i < |qs| => OutcomeAt(l, qs, i))
  }

  /** Admissions of `a` in [lo, lo + window) over a whole run. */
  ghost function Admits(l: Limits, qs: seq<Request>, a: IpAddr, lo: nat): nat {
    Admissions(l, qs, OutcomesOf(l, qs), a, lo, |qs|)
  }

  // ---------------------------------------------------------------- no sweeps

  function Alone(a: IpAddr, w: Option<Window>): map<IpAddr, Window> {
    if w.None? then map[] else map[a := w.value]
  }

  lemma {:induction false} LoneCharge(l: Limits, s: Shard, a: IpAddr, w: Option<Window>, now: nat)
    requires s.windows == Alone(a, w)
    ensures AdmitTo(l, s, a, now).0.windows == Alone(a, Some(ReferenceStep(l, w, now).0))
    ensures Allows(AdmitTo(l, s, a, now).1) <==> ReferenceStep(l, w, now).1
  {
    assert |s.windows| <= 1;
  }

  /** An address alone in its shard is never swept, whatever the clock does. */
  lemma {:induction false} LoneIsReference(l: Limits, qs: seq<Request>, a: IpAddr, n: nat)
    requires l.rate > 0 && n <= |qs| && OnlyFrom(qs, a)
    ensures ShardOf(Run(l, qs, n), a).windows == Alone(a, Reference(l, qs, a, n))
    ensures n > 0 ==> (Allows(OutcomeAt(l, qs, n - 1)) <==> ReferenceAllows(l, qs, a, n - 1))
  {
    if n == 0 {
      InitialIsEmpty(a);
    } else {
      LoneIsReference(l, qs, a, n - 1);
      assert From(qs[n - 1], a);
      var t, w := Run(l, qs, n - 1), Reference(l, qs, a, n - 1);
      StepShard(l, t, qs[n - 1], a);
      LoneCharge(l, ShardOf(t, a), a, w, qs[n - 1].now);
    }
  }

  // ---------------------------------------------------------------- the bound

  ghost predicate Recent(l: Limits, w: Option<Window>, top: nat) {
    w.Some? ==> 1 <= w.value.count <= l.rate && w.value.start <= top
  }

  lemma {:induction false} ReferenceSpreads(l: Limits, skew: nat, lo: nat, now: nat, w: Option<Window>, top: nat,
                                            admitted: nat, after: Option<Window>, top': nat, admitted': nat)
    requires l.rate > 0 && l.window > 0 && top <= now + skew && top' == Later(top, now)
    requires after == Some(ReferenceStep(l, w, now).0)
    requires admitted' == admitted + if ReferenceStep(l, w, now).1 && lo <= now < lo + l.window then 1 else 0
    requires Recent(l, w, top) && Spread(l, skew, l.window, w, admitted, lo, top)
    ensures Recent(l, after, top') && Spread(l, skew, l.window, after, admitted', lo, top')
  {
    SpreadLater(l, skew, l.window, w, admitted, lo, top, top');
    SpreadStep(l, skew, l.window, w, after, top', now, ReferenceStep(l, w, now).1, admitted, lo);
  }

  /** What one more request of a lone address does to the three numbers kept of it. */
  lemma {:induction false} LoneStep(l: Limits, qs: seq<Request>, outs: seq<Outcome>, a: IpAddr, lo: nat, n: nat)
    requires l.rate > 0 && 0 < n <= |qs| && Outcomes(l, qs, outs) && OnlyFrom(qs, a)
    ensures var w, now := Reference(l, qs, a, n - 1), qs[n - 1].now;
            && Reference(l, qs, a, n) == Some(ReferenceStep(l, w, now).0)
            && Admissions(l, qs, outs, a, lo, n) ==
                 Admissions(l, qs, outs, a, lo, n - 1) +
                 (if ReferenceStep(l, w, now).1 && lo <= now < lo + l.window then 1 else 0)
            && Top(qs, n) == Later(Top(qs, n - 1), now)
  {
    LoneIsReference(l, qs, a, n);
    assert From(qs[n - 1], a) && outs[n - 1] == OutcomeAt(l, qs, n - 1);
  }

  lemma {:induction false} LoneSpread(l: Limits, qs: seq<Request>, outs: seq<Outcome>, a: IpAddr, skew: nat, lo: nat,
                                      n: nat)
    requires l.rate > 0 && l.window > 0 && n <= |qs|
    requires Skewed(qs, skew) && Outcomes(l, qs, outs) && OnlyFrom(qs, a)
    ensures Recent(l, Reference(l, qs, a, n), Top(qs, n))
    ensures Spread(l, skew, l.window, Reference(l, qs, a, n), Admissions(l, qs, outs, a, lo, n), lo, Top(qs, n))
  {
    if n > 0 {
      LoneSpread(l, qs, outs, a, skew, lo, n - 1);
      LoneStep(l, qs, outs, a, lo, n);
      TopIsNear(qs, skew, n - 1, n - 1);
      ReferenceSpreads(l, skew, lo, qs[n - 1].now,
                       Reference(l, qs, a, n - 1), Top(qs, n - 1), Admissions(l, qs, outs, a, lo, n - 1),
                       Reference(l, qs, a, n), Top(qs, n), Admissions(l, qs, outs, a, lo, n));
    }
  }

  /** For any skew. */
  lemma {:induction false} LoneRateBound(l: Limits, qs: seq<Request>, a: IpAddr, skew: nat, lo: nat)
    requires l.rate > 0 && l.window > 0 && Skewed(qs, skew) && OnlyFrom(qs, a)
    ensures Admits(l, qs, a, lo) <= Burst(l, skew, l.window)
  {
    LoneSpread(l, qs, OutcomesOf(l, qs), a, skew, lo, |qs|);
  }

  // ---------------------------------------------------------------- the bound is attained

  /** Readings of window `k` of the run below, after its first: as late as the interval
      from window - 1 allows. */
  function Rest(l: Limits, k: nat): nat
    requires l.window > 0
  {
    if k == 0 then l.window - 1 else Least(k * l.window, 2 * l.window - 2)
  }

  /** Request `j` is number j % rate of window j / rate; window k opens at k * window. */
  function Reading(l: Limits, j: nat): nat
    requires l.rate > 0 && l.window > 0
  {
    if j % l.rate == 0 then j / l.rate * l.window else Rest(l, j / l.rate)
  }

  function LateRun(l: Limits, skew: nat, a: IpAddr): seq<Request>
    requires l.rate > 0 && l.window > 0
  {
    seq(Windows(l, skew, l.window) * l.rate, j requires j >= 0 => Request(a, Reading(l, j), true))
  }

  ghost predicate ReadsLate(l: Limits, qs: seq<Request>, a: IpAddr)
    requires l.rate > 0 && l.window > 0
  {
    forall j | 0 <= j < |qs| :: From(qs[j], a) && qs[j].now == Reading(l, j)
  }

  lemma {:induction false} Previous(j: nat, r: nat)
    requires 0 < j && 0 < r
    ensures if j % r == 0 then j / r > 0 && (j - 1) / r == j / r - 1 && (j - 1) % r == r - 1
                          else (j - 1) / r == j / r && (j - 1) % r == j % r - 1
  {
    var q := j / r;
    assert j == q * r + j % r;
    if j % r == 0 {
      assert (q - 1) * r == q * r - r;
      if q == 0 { assert false; }
      Quotient(j - 1, r, q - 1);
    } else {
      Quotient(j - 1, r, q);
    }
  }

  lemma {:induction false} LateOpens(l: Limits, k: nat)
    requires l.rate > 0 && l.window > 0 && k > 0
    ensures (k - 1) * l.window >= 0
    ensures ReferenceStep(l, Some(Window((k - 1) * l.window, l.rate)), k * l.window) == (Window(k * l.window, 1), true)
  {
    assert (k - 1) * l.window + l.window == k * l.window;
  }

  lemma {:induction false} LateCounts(l: Limits, k: nat, r: nat)
    requires l.window > 0 && 0 < r < l.rate
    ensures ReferenceStep(l, Some(Window(k * l.window, r)), Rest(l, k)) == (Window(k * l.window, r + 1), true)
  {
  }

  /** Request `j`, number `r` of window `k`, is admitted and leaves that window. */
  ghost predicate Arrives(l: Limits, qs: seq<Request>, a: IpAddr, j: nat, k: nat, r: nat)
    requires j < |qs|
  {
    Reference(l, qs, a, j + 1) == Some(Window(k * l.window, r + 1)) && ReferenceAllows(l, qs, a, j)
  }

  lemma {:induction false} LateStep(l: Limits, qs: seq<Request>, a: IpAddr, j: nat, k: nat, r: nat)
    requires l.rate > 0 && l.window > 0 && 0 < j < |qs| && r < l.rate && From(qs[j], a)
    requires qs[j].now == if r == 0 then k * l.window else Rest(l, k)
    requires if r == 0 then k > 0 && Arrives(l, qs, a, j - 1, k - 1, l.rate - 1) else Arrives(l, qs, a, j - 1, k, r - 1)
    ensures Arrives(l, qs, a, j, k, r)
  {
    if r == 0 { LateOpens(l, k); } else { LateCounts(l, k, r); }
  }

  lemma {:induction false} LateReference(l: Limits, qs: seq<Request>, a: IpAddr, j: nat)
    requires l.rate > 0 && l.window > 0 && j < |qs| && ReadsLate(l, qs, a)
    ensures Arrives(l, qs, a, j, j / l.rate, j % l.rate)
  {
    assert From(qs[j], a) && qs[j].now == Reading(l, j);
    if j > 0 {
      LateReference(l, qs, a, j - 1);
      Previous(j, l.rate);
      LateStep(l, qs, a, j, j / l.rate, j % l.rate);
    } else {
      Quotient(0, l.rate, 0);
      assert Reference(l, qs, a, 0) == None;
    }
  }

  lemma {:induction false} LateIsAdmitted(l: Limits, qs: seq<Request>, a: IpAddr)
    requires l.rate > 0 && l.window > 0 && ReadsLate(l, qs, a)
    ensures AllAdmitted(qs, OutcomesOf(l, qs), a)
  {
    var outs := OutcomesOf(l, qs);
    forall j | 0 <= j < |qs| ensures From(qs[j], a) && Allows(outs[j]) {
      LateReference(l, qs, a, j);
      LoneIsReference(l, qs, a, j + 1);
      assert outs[j] == OutcomeAt(l, qs, j);
    }
  }

  /** The window that opens inside the interval from window - 1. */
  function Inside(l: Limits): nat { if l.window == 1 then 0 else 1 }

  /** The reading of number `r` of window `k`. */
  function ReadingOf(l: Limits, k: nat, r: nat): nat
    requires l.window > 0
  {
    if r == 0 then k * l.window else Rest(l, k)
  }

  lemma {:induction false} LateWithin(l: Limits, k: nat, r: nat)
    requires l.window > 0
    ensures (l.window - 1 <= ReadingOf(l, k, r) < 2 * l.window - 1) <==> (r > 0 || k == Inside(l))
  {
    if k >= 2 { TimesLeq(2, k, l.window); }
  }

  /** What the first requests up to number `r` of window `k` put into the interval. */
  function Tally(l: Limits, k: nat, r: nat): nat
    requires l.rate > 0
  {
    k * (l.rate - 1) + r + if k >= Inside(l) then 1 else 0
  }

  lemma {:induction false} TallyStep(l: Limits, k: nat, r: nat)
    requires l.rate > 0 && r < l.rate && (k > 0 || r > 0)
    ensures Tally(l, k, r) ==
              (if r == 0 then Tally(l, k - 1, l.rate - 1) else Tally(l, k, r - 1)) +
              if r > 0 || k == Inside(l) then 1 else 0
  {
    if r == 0 {
      assert (k - 1) * (l.rate - 1) + (l.rate - 1) == k * (l.rate - 1);
    }
  }

  lemma {:induction false} LateCountNext(l: Limits, qs: seq<Request>, outs: seq<Outcome>, a: IpAddr, j: nat, k: nat,
                                         r: nat)
    requires l.rate > 0 && l.window > 0 && 0 < j < |qs| == |outs| && r < l.rate && (k > 0 || r > 0)
    requires From(qs[j], a) && Allows(outs[j]) && qs[j].now == ReadingOf(l, k, r)
    requires Admissions(l, qs, outs, a, l.window - 1, j) ==
               if r == 0 then Tally(l, k - 1, l.rate - 1) else Tally(l, k, r - 1)
    ensures Admissions(l, qs, outs, a, l.window - 1, j + 1) == Tally(l, k, r)
  {
    LateWithin(l, k, r);
    TallyStep(l, k, r);
  }

  lemma {:induction false} LateCountFirst(l: Limits, qs: seq<Request>, outs: seq<Outcome>, a: IpAddr)
    requires l.rate > 0 && l.window > 0 && 0 < |qs| == |outs| && From(qs[0], a) && Allows(outs[0]) && qs[0].now == 0
    ensures Admissions(l, qs, outs, a, l.window - 1, 1) == Tally(l, 0, 0)
  {
    assert Admissions(l, qs, outs, a, l.window - 1, 0) == 0;
  }

  lemma {:induction false} LateCount(l: Limits, qs: seq<Request>, outs: seq<Outcome>, a: IpAddr, j: nat)
    requires l.rate > 0 && l.window > 0 && j < |qs| == |outs| && ReadsLate(l, qs, a) && AllAdmitted(qs, outs, a)
    ensures Admissions(l, qs, outs, a, l.window - 1, j + 1) == Tally(l, j / l.rate, j % l.rate)
  {
    assert From(qs[j], a) && Allows(outs[j]) && qs[j].now == Reading(l, j);
    if j > 0 {
      LateCount(l, qs, outs, a, j - 1);
      Previous(j, l.rate);
      LateCountNext(l, qs, outs, a, j, j / l.rate, j % l.rate);
    } else {
      Quotient(0, l.rate, 0);
      LateCountFirst(l, qs, outs, a);
    }
  }

  lemma {:induction false} LateIsSkewed(l: Limits, skew: nat, i: nat, j: nat)
    requires l.rate > 0 && l.window > 0 && i <= j && j / l.rate < Windows(l, skew, l.window)
    ensures Reading(l, i) <= Reading(l, j) + skew
  {
    var h, k := i / l.rate, j / l.rate;
    DivideLeq(i, j, l.rate);
    TimesLeq(h, k, l.window);
    if k > 0 {
      TimesLeq(1, k, l.window);
      LastOpening(l, skew, k);
    } else if j % l.rate == 0 {
      assert j == k * l.rate + j % l.rate;
    }
  }

  lemma {:induction false} LastOpening(l: Limits, skew: nat, k: nat)
    requires l.window > 0 && 0 < k < Windows(l, skew, l.window)
    ensures k * l.window <= 2 * l.window - 2 + skew
  {
    var x := l.window + skew - 2;
    TimesLeq(k, x / l.window + 1, l.window);
    assert (x / l.window + 1) * l.window == x / l.window * l.window + l.window;
  }

  lemma {:induction false} IndexBelow(j: nat, n: nat, r: nat)
    requires r > 0 && j < n * r
    ensures j / r < n
  {
    assert (n - 1) * r + r == n * r;
    TimesBelow(j / r, n - 1, r, j, j);
  }

  lemma {:induction false} LastIndex(n: nat, r: nat)
    requires n > 0 && r > 0
    ensures n * r > 0 && (n * r - 1) / r == n - 1 && (n * r - 1) % r == r - 1
  {
    TimesLeq(1, n, r);
    var last := n * r - 1;
    assert (n - 1) * r + r == n * r;
    Quotient(last, r, n - 1);
    assert last == last / r * r + last % r;
  }

  lemma {:induction false} LateRunIsSkewed(l: Limits, skew: nat, a: IpAddr)
    requires l.rate > 0 && l.window > 0
    ensures Skewed(LateRun(l, skew, a), skew)
  {
    var qs := LateRun(l, skew, a);
    forall i, j | 0 <= i <= j < |qs| ensures qs[i].now <= qs[j].now + skew {
      IndexBelow(j, Windows(l, skew, l.window), l.rate);
      LateIsSkewed(l, skew, i, j);
    }
  }

  lemma {:induction false} LateRunReads(l: Limits, skew: nat, a: IpAddr)
    requires l.rate > 0 && l.window > 0 && Canonical(a) == a
    ensures ReadsLate(l, LateRun(l, skew, a), a) && OnlyFrom(LateRun(l, skew, a), a)
    ensures |LateRun(l, skew, a)| == Windows(l, skew, l.window) * l.rate
  {
  }

  lemma {:induction false} LateCountAt(l: Limits, qs: seq<Request>, outs: seq<Outcome>, a: IpAddr, n: nat, k: nat,
                                       r: nat)
    requires l.rate > 0 && l.window > 0 && 0 < n <= |qs| == |outs| && ReadsLate(l, qs, a) && AllAdmitted(qs, outs, a)
    requires (n - 1) / l.rate == k && (n - 1) % l.rate == r
    ensures Admissions(l, qs, outs, a, l.window - 1, n) == Tally(l, k, r)
  {
    LateCount(l, qs, outs, a, n - 1);
  }

  lemma {:induction false} LateAdmitted(l: Limits, qs: seq<Request>, outs: seq<Outcome>, a: IpAddr, n: nat, size: nat)
    requires l.rate > 0 && l.window > 0 && ReadsLate(l, qs, a) && n > 0 && |qs| == |outs| == size == n * l.rate
             && AllAdmitted(qs, outs, a)
    ensures Admissions(l, qs, outs, a, l.window - 1, size) == Tally(l, n - 1, l.rate - 1)
  {
    LastIndex(n, l.rate);
    LateCountAt(l, qs, outs, a, size, n - 1, l.rate - 1);
  }

  lemma {:induction false} LateAdmits(l: Limits, qs: seq<Request>, a: IpAddr, n: nat)
    requires l.rate > 0 && l.window > 0 && ReadsLate(l, qs, a) && n > 0 && |qs| == n * l.rate
    ensures Admits(l, qs, a, l.window - 1) == Tally(l, n - 1, l.rate - 1)
  {
    LateIsAdmitted(l, qs, a);
    LateAdmitted(l, qs, OutcomesOf(l, qs), a, n, |qs|);
  }

  /** For every rate, window, skew and canonical address a run attains the bound. */
  lemma {:induction false} LoneBurstIsAttained(l: Limits, skew: nat, a: IpAddr)
    requires l.rate > 0 && l.window > 0 && Canonical(a) == a
    ensures var qs := LateRun(l, skew, a);
            Skewed(qs, skew) && OnlyFrom(qs, a) && Admits(l, qs, a, l.window - 1) == Burst(l, skew, l.window)
  {
    LateRunIsSkewed(l, skew, a);
    LateRunReads(l, skew, a);
    LateTotal(l, skew);
    LateAdmits(l, LateRun(l, skew, a), a, Windows(l, skew, l.window));
  }

  lemma {:induction false} LateTotal(l: Limits, skew: nat)
    requires l.rate > 0 && l.window > 0
    ensures Windows(l, skew, l.window) > 0
    ensures Tally(l, Windows(l, skew, l.window) - 1, l.rate - 1) == Burst(l, skew, l.window)
  {
    var n := Windows(l, skew, l.window);
    WindowsPositive(l, skew, l.window);
    Quotient(l.window - 1, l.window, 0);
    if l.window > 1 { DivideLeq(0, l.window + skew - 2, l.window); }
    assert (n - 1) * (l.rate - 1) + (l.rate - 1) == n * (l.rate - 1);
  }

  // ---------------------------------------------------------------- within twice the rate

  lemma {:induction false} TwiceInNumbers(l: Limits, skew: nat)
    requires l.rate > 0 && l.window > 0
    ensures Burst(l, skew, l.window) <= 2 * l.rate <==>
            skew <= 1 || l.rate == 1 || (l.rate == 2 && skew <= l.window + 1)
  {
    var n, x := Windows(l, skew, l.window), l.window + skew - 2;
    Quotient(l.window - 1, l.window, 0);
    if skew <= 1 {
      DivideLeq(x, l.window - 1, l.window);
      TimesLeq(n, 2, l.rate - 1);
    } else {
      DivideLeq(l.window, x, l.window);
      Quotient(l.window, l.window, 1);
      TimesLeq(3, n, l.rate - 1);
      if skew <= l.window + 1 {
        Quotient(x, l.window, 1);
      } else {
        DivideLeq(2 * l.window, x, l.window);
        Quotient(2 * l.window, l.window, 2);
      }
    }
  }

  ghost predicate AlwaysWithin(l: Limits, skew: nat, a: IpAddr, bound: nat) {
    forall qs, lo | Skewed(qs, skew) && OnlyFrom(qs, a) :: Admits(l, qs, a, lo) <= bound
  }

  /** The burst of an address alone in its shard stays within twice the rate if and only
      if readings are out of order by at most one tick, or the rate is one, or it is two
      and the skew at most one tick more than the window. */
  lemma {:induction false} LoneBurstWithinTwice(l: Limits, skew: nat, a: IpAddr)
    requires l.rate > 0 && l.window > 0 && Canonical(a) == a
    ensures AlwaysWithin(l, skew, a, 2 * l.rate) <==> skew <= 1 || l.rate == 1 || (l.rate == 2 && skew <= l.window + 1)
  {
    TwiceInNumbers(l, skew);
    LoneBurstIsAttained(l, skew, a);
    if Burst(l, skew, l.window) <= 2 * l.rate {
      forall qs, lo | Skewed(qs, skew) && OnlyFrom(qs, a) ensures Admits(l, qs, a, lo) <= 2 * l.rate {
        LoneRateBound(l, qs, a, skew, lo);
      }
    } else {
      assert Admits(l, LateRun(l, skew, a), a, l.window - 1) > 2 * l.rate;
    }
  }
}
