/** An address in a full shard, with clock readings out of order by more than half a window:
    the sweeps that others trigger let it open three windows within one. */
module CrowdBursts {
  import opened Wrappers
  import opened IpAddresses
  import opened PerIpThrottle
  import opened ThrottleSkew
  import opened LoneBursts
  import opened Crowding

  // ---------------------------------------------------------------- one shard's requests

  ghost function Next(l: Limits, s: Shard, q: Request): (Shard, Outcome) {
    AdmitTo(l, s, Canonical(q.ip), q.now)
  }

  type Stepper = (Shard, Request) -> (Shard, Outcome)

  /** Marks the steps that are looked into. */
  ghost predicate Looked(s: Shard, q: Request) { true }

  ghost predicate Steps(f: Stepper, l: Limits) {
    forall s, q {:trigger Looked(s, q)} :: f(s, q) == Next(l, s, q)
  }

  lemma {:induction false} StepperOf(l: Limits) returns (f: Stepper)
    ensures Steps(f, l)
  {
    f := (s: Shard, q: Request) => Next(l, s, q);
  }

  /** The shard after requests that all concern it. */
  ghost function Play(f: Stepper, s: Shard, qs: seq<Request>): Shard {
    if qs == [] then s else f(Play(f, s, qs[..|qs| - 1]), qs[|qs| - 1]).0
  }

  /** Admissions of `a` in the interval from `lo`. */
  ghost function Hits(f: Stepper, l: Limits, s: Shard, qs: seq<Request>, a: IpAddr, lo: nat): nat {
    if qs == [] then 0
    else
      var front, q := qs[..|qs| - 1], qs[|qs| - 1];
      Hits(f, l, s, front, a, lo) + if From(q, a) && Within(q, lo, l) && Allows(f(Play(f, s, front), q).1) then 1 else 0
  }

  /** Request `i` is not one of `a` admitted untracked. */
  ghost predicate TrackedAt(f: Stepper, s: Shard, qs: seq<Request>, a: IpAddr, i: nat)
    requires i < |qs|
  {
    From(qs[i], a) ==> !f(Play(f, s, qs[..i]), qs[i]).1.Untracked?
  }

  ghost predicate Tracked(f: Stepper, s: Shard, qs: seq<Request>, a: IpAddr) {
    forall i | 0 <= i < |qs| :: TrackedAt(f, s, qs, a, i)
  }

  /** The requests take the shard from `s` to `after`, with so many hits. */
  ghost predicate Plays(f: Stepper, l: Limits, s: Shard, qs: seq<Request>, a: IpAddr, lo: nat, after: Shard,
                        hits: nat) {
    Play(f, s, qs) == after && Hits(f, l, s, qs, a, lo) == hits && Tracked(f, s, qs, a)
  }

  lemma {:induction false} PlayThen(f: Stepper, s: Shard, x: seq<Request>, y: seq<Request>)
    ensures Play(f, s, x + y) == Play(f, Play(f, s, x), y)
  {
    if y == [] {
      assert x + y == x;
    } else {
      PlayThen(f, s, x, y[..|y| - 1]);
      assert (x + y)[..|x + y| - 1] == x + y[..|y| - 1];
    }
  }

  lemma {:induction false} HitsThen(f: Stepper, l: Limits, s: Shard, x: seq<Request>, y: seq<Request>, a: IpAddr,
                                    lo: nat)
    ensures Hits(f, l, s, x + y, a, lo) == Hits(f, l, s, x, a, lo) + Hits(f, l, Play(f, s, x), y, a, lo)
  {
    if y == [] {
      assert x + y == x;
    } else {
      HitsThen(f, l, s, x, y[..|y| - 1], a, lo);
      PlayThen(f, s, x, y[..|y| - 1]);
      assert (x + y)[..|x + y| - 1] == x + y[..|y| - 1];
    }
  }

  lemma {:induction false} TrackedThen(f: Stepper, s: Shard, x: seq<Request>, y: seq<Request>, a: IpAddr)
    requires Tracked(f, s, x, a) && Tracked(f, Play(f, s, x), y, a)
    ensures Tracked(f, s, x + y, a)
  {
    forall i | 0 <= i < |x + y| ensures TrackedAt(f, s, x + y, a, i) {
      if i < |x| {
        assert TrackedAt(f, s, x, a, i) && (x + y)[..i] == x[..i];
      } else {
        var j := i - |x|;
        assert TrackedAt(f, Play(f, s, x), y, a, j) && (x + y)[..i] == x + y[..j];
        PlayThen(f, s, x, y[..j]);
      }
    }
  }

  lemma {:induction false} PlaysThen(f: Stepper, l: Limits, s: Shard, x: seq<Request>, y: seq<Request>, a: IpAddr,
                                     lo: nat, mid: Shard, after: Shard, h: nat, k: nat)
    requires Plays(f, l, s, x, a, lo, mid, h) && Plays(f, l, mid, y, a, lo, after, k)
    ensures Plays(f, l, s, x + y, a, lo, after, h + k)
  {
    PlayThen(f, s, x, y);
    HitsThen(f, l, s, x, y, a, lo);
    TrackedThen(f, s, x, y, a);
  }

  lemma {:induction false} PlaysOne(f: Stepper, l: Limits, s: Shard, q: Request, a: IpAddr, lo: nat, after: Shard,
                                    o: Outcome)
    requires Steps(f, l) && Next(l, s, q) == (after, o) && (From(q, a) ==> !o.Untracked?)
    ensures Plays(f, l, s, [q], a, lo, after, if From(q, a) && Within(q, lo, l) && Allows(o) then 1 else 0)
  {
    assert Looked(s, q);
    assert [q][..0] == [];
    assert Play(f, s, []) == s;
  }

  ghost predicate Local(qs: seq<Request>, a: IpAddr) {
    forall i | 0 <= i < |qs| :: ShardIndex(Canonical(qs[i].ip)) == ShardIndex(a)
  }

  /** A run that stays in the shard of `a` is what that shard plays. */
  lemma {:induction false} RunIsPlay(f: Stepper, l: Limits, qs: seq<Request>, a: IpAddr, n: nat)
    requires Steps(f, l) && l.rate > 0 && n <= |qs| && Local(qs, a)
    ensures ShardOf(Run(l, qs, n), a) == Play(f, ShardOf(Initial(), a), qs[..n])
    ensures n > 0 ==> OutcomeAt(l, qs, n - 1) == f(Play(f, ShardOf(Initial(), a), qs[..n - 1]), qs[n - 1]).1
  {
    if n == 0 {
      assert qs[..0] == [];
    } else {
      RunIsPlay(f, l, qs, a, n - 1);
      StepShard(l, Run(l, qs, n - 1), qs[n - 1], a);
      assert Looked(ShardOf(Run(l, qs, n - 1), a), qs[n - 1]);
      assert qs[..n][..n - 1] == qs[..n - 1] && qs[..n][n - 1] == qs[n - 1];
    }
  }

  /** `outs` are what the shard answers to `qs`. */
  ghost predicate Answers(f: Stepper, s: Shard, qs: seq<Request>, outs: seq<Outcome>) {
    && |outs| == |qs|
    && forall i | 0 <= i < |qs| :: AnswersAt(f, s, qs, outs[i], i)
  }

  ghost predicate AnswersAt(f: Stepper, s: Shard, qs: seq<Request>, o: Outcome, i: nat)
    requires i < |qs|
  {
    o == f(Play(f, s, qs[..i]), qs[i]).1
  }

  lemma {:induction false} RunAnswers(f: Stepper, l: Limits, qs: seq<Request>, outs: seq<Outcome>, a: IpAddr)
    requires Steps(f, l) && l.rate > 0 && Local(qs, a) && Outcomes(l, qs, outs)
    ensures Answers(f, ShardOf(Initial(), a), qs, outs)
  {
    forall i | 0 <= i < |qs| ensures AnswersAt(f, ShardOf(Initial(), a), qs, outs[i], i) {
      RunIsPlay(f, l, qs, a, i + 1);
      assert outs[i] == OutcomeAt(l, qs, i);
    }
  }

  lemma {:induction false} HitsAt(f: Stepper, l: Limits, qs: seq<Request>, o: Outcome, s: Shard, a: IpAddr, lo: nat,
                                  n: nat)
    requires 0 < n <= |qs| && AnswersAt(f, s, qs, o, n - 1)
    ensures Hits(f, l, s, qs[..n], a, lo) ==
              Hits(f, l, s, qs[..n - 1], a, lo) +
              if From(qs[n - 1], a) && Within(qs[n - 1], lo, l) && Allows(o) then 1 else 0
  {
    assert qs[..n][..n - 1] == qs[..n - 1];
  }

  lemma {:induction false} AdmissionsAreHits(f: Stepper, l: Limits, qs: seq<Request>, outs: seq<Outcome>, s: Shard,
                                             a: IpAddr, lo: nat, n: nat)
    requires Answers(f, s, qs, outs) && n <= |qs|
    ensures Admissions(l, qs, outs, a, lo, n) == Hits(f, l, s, qs[..n], a, lo)
  {
    if n > 0 {
      AdmissionsAreHits(f, l, qs, outs, s, a, lo, n - 1);
      assert AnswersAt(f, s, qs, outs[n - 1], n - 1);
      HitsAt(f, l, qs, outs[n - 1], s, a, lo, n);
    }
  }

  lemma {:induction false} TrackedThroughout(f: Stepper, l: Limits, qs: seq<Request>, outs: seq<Outcome>, s: Shard,
                                             a: IpAddr)
    requires Answers(f, s, qs, outs) && Tracked(f, s, qs, a)
    ensures AlwaysTracked(qs, outs, a, |qs|)
  {
    forall i | 0 <= i < |qs| && From(qs[i], a) ensures !outs[i].Untracked? {
      assert AnswersAt(f, s, qs, outs[i], i) && TrackedAt(f, s, qs, a, i);
    }
  }

  // ---------------------------------------------------------------- scenes

  function By(ip: IpAddr, now: nat): Request { Request(ip, now, true) }

  function Repeat(q: Request, n: nat): seq<Request> { seq(n, _ => q) }

  function Count(b: bool, n: nat): nat { if b then n else 0 }

  /** `a` opens a window where there is room. */
  lemma {:induction false} Opens(f: Stepper, l: Limits, s: Shard, a: IpAddr, now: nat, lo: nat) returns (after: Shard)
    requires Steps(f, l)
    requires Canonical(a) == a && a !in s.windows && |s.windows| < MAX_IPS_PER_SHARD
    ensures after == s.(windows := s.windows[a := Window(now, 1)])
    ensures Plays(f, l, s, [By(a, now)], a, lo, after, Count(Within(By(a, now), lo, l), 1))
  {
    after := s.(windows := s.windows[a := Window(now, 1)]);
    PlaysOne(f, l, s, By(a, now), a, lo, after, PerIpThrottle.Outcome.Opened);
  }

  /** `a` uses up `n` more places of its window, while no sweep is due. */
  lemma {:induction false} Fills(f: Stepper, l: Limits, s: Shard, a: IpAddr, now: nat, lo: nat, n: nat)
      returns (after: Shard)
    requires Steps(f, l)
    requires Canonical(a) == a && a in s.windows && !Expired(l, s.windows[a], now) && !DueForSweep(s, now)
    requires s.windows[a].count + n <= l.rate
    ensures after == s.(windows := s.windows[a := s.windows[a].(count := s.windows[a].count + n)])
    ensures Plays(f, l, s, Repeat(By(a, now), n), a, lo, after, Count(Within(By(a, now), lo, l), n))
  {
    if n == 0 {
      after := s;
    } else {
      var q := By(a, now);
      var mid := Fills(f, l, s, a, now, lo, n - 1);
      assert mid.windows.Keys == s.windows.Keys;
      assert |mid.windows| == |mid.windows.Keys| && |s.windows| == |s.windows.Keys|;
      after := mid.(windows := mid.windows[a := mid.windows[a].(count := mid.windows[a].count + 1)]);
      PlaysOne(f, l, mid, q, a, lo, after, Counted);
      PlaysThen(f, l, s, Repeat(q, n - 1), [q], a, lo, mid, after, Count(Within(q, lo, l), n - 1),
                Count(Within(q, lo, l), 1));
      assert Repeat(q, n) == Repeat(q, n - 1) + [q];
    }
  }

  /** The windows are those of the first `n` of the crowd, opened at `start`, and that of
      `a`, if it has one. */
  ghost predicate Scene(s: Shard, a: IpAddr, w: Option<Window>, crowd: seq<IpAddr>, n: nat, start: nat)
    requires n <= |crowd|
  {
    && s.windows.Keys == (set i | 0 <= i < n :: crowd[i]) + (if w.Some? then {a} else {})
    && (forall i | 0 <= i < n :: crowd[i] in s.windows && s.windows[crowd[i]].start == start)
    && (w.Some? ==> a in s.windows && s.windows[a] == w.value)
  }

  lemma {:induction false} CrowdSize(crowd: seq<IpAddr>, n: nat)
    requires n <= |crowd| && Crowding.Distinct(crowd)
    ensures |set i | 0 <= i < n :: crowd[i]| == n
  {
    if n > 0 {
      CrowdSize(crowd, n - 1);
      assert (set i | 0 <= i < n :: crowd[i]) == (set i | 0 <= i < n - 1 :: crowd[i]) + {crowd[n - 1]};
    }
  }

  lemma {:induction false} SceneSize(s: Shard, a: IpAddr, w: Option<Window>, crowd: seq<IpAddr>, n: nat, start: nat)
    requires n <= |crowd| && IsCrowd(a, crowd) && Scene(s, a, w, crowd, n, start)
    ensures |s.windows| == n + if w.Some? then 1 else 0
  {
    CrowdSize(crowd, n);
    assert |s.windows| == |s.windows.Keys|;
  }

  lemma {:induction false} OneArrives(f: Stepper, l: Limits, mid: Shard, a: IpAddr, w: Window, crowd: seq<IpAddr>,
                                      now: nat, lo: nat, n: nat)
      returns (after: Shard)
    requires Steps(f, l)
    requires 0 < n <= |crowd| && IsCrowd(a, crowd) && Scene(mid, a, Some(w), crowd, n - 1, now)
    ensures Scene(after, a, Some(w), crowd, n, now) && after.sweepAfter == mid.sweepAfter
    ensures Plays(f, l, mid, [By(crowd[n - 1], now)], a, lo, after, 0)
  {
    var c := crowd[n - 1];
    SceneSize(mid, a, Some(w), crowd, n - 1, now);
    assert c !in mid.windows;
    after := mid.(windows := mid.windows[c := Window(now, 1)]);
    assert Neighbour(a, c) && c in crowd;
    PlaysOne(f, l, mid, By(c, now), a, lo, after, PerIpThrottle.Outcome.Opened);
    SceneGrows(mid, after, a, w, crowd, n, now);
  }

  /** The crowd arrives, one address after another. */
  lemma {:induction false} CrowdArrives(f: Stepper, l: Limits, s: Shard, a: IpAddr, w: Window, crowd: seq<IpAddr>,
                                        now: nat, lo: nat, n: nat)
      returns (after: Shard)
    requires Steps(f, l)
    requires n <= |crowd| && IsCrowd(a, crowd) && s.windows == map[a := w]
    ensures Scene(after, a, Some(w), crowd, n, now) && after.sweepAfter == s.sweepAfter
    ensures Plays(f, l, s, Arrivals(crowd, now, n), a, lo, after, 0)
  {
    if n == 0 {
      after := s;
    } else {
      var mid := CrowdArrives(f, l, s, a, w, crowd, now, lo, n - 1);
      after := OneArrives(f, l, mid, a, w, crowd, now, lo, n);
      PlaysThen(f, l, s, Arrivals(crowd, now, n - 1), [By(crowd[n - 1], now)], a, lo, mid, after, 0, 0);
      ArrivalsSnoc(crowd, now, n);
    }
  }

  lemma {:induction false} ArrivalsSnoc(crowd: seq<IpAddr>, now: nat, n: nat)
    requires 0 < n <= |crowd|
    ensures Arrivals(crowd, now, n) == Arrivals(crowd, now, n - 1) + [By(crowd[n - 1], now)]
  {
  }

  lemma {:induction false} SceneGrows(mid: Shard, after: Shard, a: IpAddr, w: Window, crowd: seq<IpAddr>, n: nat,
                                      now: nat)
    requires 0 < n <= |crowd| && IsCrowd(a, crowd) && Scene(mid, a, Some(w), crowd, n - 1, now)
    requires after.windows == mid.windows[crowd[n - 1] := Window(now, 1)]
    ensures Scene(after, a, Some(w), crowd, n, now)
  {
    assert (set i | 0 <= i < n :: crowd[i]) == (set i | 0 <= i < n - 1 :: crowd[i]) + {crowd[n - 1]};
  }

  function Arrivals(crowd: seq<IpAddr>, now: nat, n: nat): seq<Request>
    requires n <= |crowd|
  {
    seq(n, i requires 0 <= i < n => By(crowd[i], now))
  }

  // ---------------------------------------------------------------- the sweeps

  /** The window of `a` has expired and the crowd's have not: a request of the crowd sweeps
      `a` away. */
  lemma {:induction false} SweptAway(f: Stepper, l: Limits, s: Shard, a: IpAddr, w: Window, crowd: seq<IpAddr>,
                                     start: nat, now: nat, lo: nat)
      returns (after: Shard)
    requires Steps(f, l)
    requires IsCrowd(a, crowd) && Scene(s, a, Some(w), crowd, |crowd|, start) && s.sweepAfter.None?
    requires Expired(l, w, now) && start <= now < start + l.window && l.rate > 0
    ensures Scene(after, a, None, crowd, |crowd|, start) && after.sweepAfter == Some(start + l.window)
    ensures Plays(f, l, s, [By(crowd[0], now)], a, lo, after, 0)
  {
    SceneSize(s, a, Some(w), crowd, |crowd|, start);
    SweepKeepsCrowd(l, s, a, w, crowd, start, now);
    CrowdCounts(l, Sweep(l, s, now), a, crowd, start, now);
    var (next, o) := Charge(l, Sweep(l, s, now), crowd[0], now);
    after := next;
    assert Neighbour(a, crowd[0]) && crowd[0] in crowd;
    PlaysOne(f, l, s, By(crowd[0], now), a, lo, after, o);
  }

  lemma {:induction false} CrowdStaysLive(l: Limits, s: Shard, a: IpAddr, w: Window, crowd: seq<IpAddr>, start: nat,
                                          now: nat, after: Shard)
    requires a !in crowd && Scene(s, a, Some(w), crowd, |crowd|, start)
    requires Expired(l, w, now) && start <= now < start + l.window
    requires after.windows == Live(l, s.windows, now)
    ensures Scene(after, a, None, crowd, |crowd|, start)
  {
    forall ip ensures ip in after.windows <==> ip in (set i | 0 <= i < |crowd| :: crowd[i]) {
      if ip in s.windows && ip != a {
        var i :| 0 <= i < |crowd| && crowd[i] == ip;
      }
    }
  }

  lemma {:induction false} CrowdIsEarliest(s: Shard, a: IpAddr, crowd: seq<IpAddr>, start: nat)
    requires |crowd| > 0 && Scene(s, a, None, crowd, |crowd|, start)
    ensures Earliest(s.windows) == Some(start)
  {
    forall ip | ip in s.windows ensures s.windows[ip].start == start {
      var i :| 0 <= i < |crowd| && crowd[i] == ip;
    }
    assert crowd[0] in s.windows;
    EarliestIsUnique(s.windows, Some(start));
  }

  lemma {:induction false} SweepKeepsCrowd(l: Limits, s: Shard, a: IpAddr, w: Window, crowd: seq<IpAddr>, start: nat,
                                           now: nat)
    requires a !in crowd && |crowd| > 0 && Scene(s, a, Some(w), crowd, |crowd|, start)
    requires Expired(l, w, now) && start <= now < start + l.window
    ensures Scene(Sweep(l, s, now), a, None, crowd, |crowd|, start)
            && Sweep(l, s, now).sweepAfter == Some(start + l.window)
  {
    CrowdStaysLive(l, s, a, w, crowd, start, now, Sweep(l, s, now));
    CrowdIsEarliest(Sweep(l, s, now), a, crowd, start);
  }

  lemma {:induction false} CrowdCounts(l: Limits, s: Shard, a: IpAddr, crowd: seq<IpAddr>, start: nat, now: nat)
    requires |crowd| > 0 && Scene(s, a, None, crowd, |crowd|, start) && start <= now < start + l.window
    ensures Scene(Charge(l, s, crowd[0], now).0, a, None, crowd, |crowd|, start)
    ensures Charge(l, s, crowd[0], now).0.sweepAfter == s.sweepAfter
  {
    assert crowd[0] in s.windows;
  }

  /** Every window has expired: a request of the crowd clears the shard. */
  lemma {:induction false} AllSwept(f: Stepper, l: Limits, s: Shard, a: IpAddr, w: Window, crowd: seq<IpAddr>,
                                    start: nat, now: nat, lo: nat)
      returns (after: Shard)
    requires Steps(f, l)
    requires IsCrowd(a, crowd) && Scene(s, a, Some(w), crowd, |crowd|, start)
    requires s.sweepAfter == Some(start + l.window) && now == start + l.window && Expired(l, w, now) && l.window > 0
    ensures after == Shard(map[crowd[0] := Window(now, 1)], None)
    ensures Plays(f, l, s, [By(crowd[0], now)], a, lo, after, 0)
  {
    SceneSize(s, a, Some(w), crowd, |crowd|, start);
    assert Live(l, s.windows, now) == map[];
    after := Shard(map[crowd[0] := Window(now, 1)], None);
    assert Neighbour(a, crowd[0]) && crowd[0] in crowd;
    PlaysOne(f, l, s, By(crowd[0], now), a, lo, after, PerIpThrottle.Outcome.Opened);
  }

  lemma {:induction false} Added(windows: map<IpAddr, Window>, a: IpAddr, w: Window)
    requires a !in windows
    ensures |windows[a := w]| == |windows| + 1
  {
    assert windows[a := w].Keys == windows.Keys + {a};
    assert |windows[a := w]| == |windows[a := w].Keys| && |windows| == |windows.Keys|;
  }

  lemma {:induction false} SceneWith(s: Shard, a: IpAddr, crowd: seq<IpAddr>, start: nat, w: Window)
    requires a !in crowd && Scene(s, a, None, crowd, |crowd|, start)
    ensures a !in s.windows
    ensures Scene(s.(windows := s.windows[a := w]), a, Some(w), crowd, |crowd|, start)
  {
    assert forall i | 0 <= i < |crowd| :: crowd[i] != a;
  }

  // ---------------------------------------------------------------- its readings

  /** Requests in the shard of `a`, with readings between `lo` and `hi`. */
  ghost predicate Reads(qs: seq<Request>, a: IpAddr, lo: nat, hi: nat) {
    forall i | 0 <= i < |qs| :: lo <= qs[i].now <= hi && ShardIndex(Canonical(qs[i].ip)) == ShardIndex(a)
  }

  lemma {:induction false} ReadsThen(x: seq<Request>, y: seq<Request>, a: IpAddr, lo: nat, hi: nat)
    requires Reads(x, a, lo, hi) && Reads(y, a, lo, hi)
    ensures Reads(x + y, a, lo, hi)
  {
  }

  lemma {:induction false} SkewedThen(x: seq<Request>, y: seq<Request>, a: IpAddr, skew: nat, hi: nat, lo: nat,
                                      top: nat)
    requires Skewed(x, skew) && Skewed(y, skew) && Reads(x, a, 0, hi) && Reads(y, a, lo, top) && hi <= lo + skew
    ensures Skewed(x + y, skew)
  {
    var qs := x + y;
    forall i, j | 0 <= i <= j < |qs| ensures qs[i].now <= qs[j].now + skew {
      if i < |x| <= j {
        assert qs[i] == x[i] && qs[j] == y[j - |x|];
      } else if j < |x| {
        assert qs[i] == x[i] && qs[j] == x[j];
      } else {
        assert qs[i] == y[i - |x|] && qs[j] == y[j - |x|];
      }
    }
  }

  lemma {:induction false} NearIsSkewed(qs: seq<Request>, a: IpAddr, lo: nat, hi: nat, skew: nat)
    requires Reads(qs, a, lo, hi) && hi <= lo + skew
    ensures Skewed(qs, skew)
  {
  }

  // ---------------------------------------------------------------- three windows in one

  /** The readings of the run below: `x` is as far back as `skew` allows from one window
      after zero, and the crowd arrives at `g`. */
  function Back(l: Limits, skew: nat): nat { if skew < l.window then l.window - skew else 0 }

  function Arrival(l: Limits, skew: nat): nat { Later(Back(l, skew), 1) }

  /** The crowd fills the shard and sweeps `a` away one window after zero. */
  function Swap(l: Limits, crowd: seq<IpAddr>, g: nat): seq<Request>
    requires |crowd| > 0
  {
    Arrivals(crowd, g, |crowd|) + [By(crowd[0], l.window)]
  }

  function FrontRun(l: Limits, a: IpAddr, crowd: seq<IpAddr>, g: nat, x: nat): seq<Request>
    requires |crowd| > 0
  {
    [By(a, 0)] + Swap(l, crowd, g) + [By(a, x)]
  }

  function TailRun(l: Limits, a: IpAddr, crowd: seq<IpAddr>, g: nat, x: nat): seq<Request>
    requires |crowd| > 0
  {
    [By(crowd[0], l.window + g)] + [By(a, g + x)]
  }

  /** At a rate of one: `a` opens its window, is swept away, opens another one early, is
      swept away again and opens a third, all within one window. */
  function ThriceRun(l: Limits, skew: nat, a: IpAddr, crowd: seq<IpAddr>): seq<Request>
    requires |crowd| > 0
  {
    FrontRun(l, a, crowd, Arrival(l, skew), Back(l, skew)) + TailRun(l, a, crowd, Arrival(l, skew), Back(l, skew))
  }

  lemma {:induction false} EarlySwap(f: Stepper, l: Limits, s: Shard, a: IpAddr, crowd: seq<IpAddr>, g: nat)
      returns (after: Shard)
    requires Steps(f, l)
    requires l.rate > 0 && 1 <= g < l.window && IsCrowd(a, crowd) && s == Shard(map[a := Window(0, 1)], None)
    ensures Scene(after, a, None, crowd, |crowd|, g) && after.sweepAfter == Some(g + l.window)
    ensures Plays(f, l, s, Swap(l, crowd, g), a, 0, after, 0)
  {
    var full := CrowdArrives(f, l, s, a, Window(0, 1), crowd, g, 0, |crowd|);
    after := SweptAway(f, l, full, a, Window(0, 1), crowd, g, l.window, 0);
    PlaysThen(f, l, s, Arrivals(crowd, g, |crowd|), [By(crowd[0], l.window)], a, 0, full, after, 0, 0);
  }

  lemma {:induction false} EarlyOpening(f: Stepper, l: Limits, s: Shard, a: IpAddr, crowd: seq<IpAddr>, g: nat, x: nat)
      returns (after: Shard)
    requires Steps(f, l)
    requires Canonical(a) == a && IsCrowd(a, crowd) && x < l.window
    requires Scene(s, a, None, crowd, |crowd|, g)
    ensures Scene(after, a, Some(Window(x, 1)), crowd, |crowd|, g) && after.sweepAfter == s.sweepAfter
    ensures Plays(f, l, s, [By(a, x)], a, 0, after, 1)
  {
    SceneSize(s, a, None, crowd, |crowd|, g);
    SceneWith(s, a, crowd, g, Window(x, 1));
    after := Opens(f, l, s, a, x, 0);
  }

  lemma {:induction false} ThirdOpening(f: Stepper, l: Limits, s: Shard, a: IpAddr, crowd: seq<IpAddr>, g: nat, x: nat)
      returns (after: Shard)
    requires Steps(f, l)
    requires Canonical(a) == a && IsCrowd(a, crowd) && x <= g && g + x < l.window
    requires Scene(s, a, Some(Window(x, 1)), crowd, |crowd|, g) && s.sweepAfter == Some(g + l.window)
    ensures Plays(f, l, s, TailRun(l, a, crowd, g, x), a, 0, after, 1)
  {
    var clear := AllSwept(f, l, s, a, Window(x, 1), crowd, g, l.window + g, 0);
    assert crowd[0] in crowd && |clear.windows| == 1;
    after := Opens(f, l, clear, a, g + x, 0);
    PlaysThen(f, l, s, [By(crowd[0], l.window + g)], [By(a, g + x)], a, 0, clear, after, 0, 1);
  }

  lemma {:induction false} FrontPlays(f: Stepper, l: Limits, a: IpAddr, crowd: seq<IpAddr>, g: nat, x: nat)
      returns (after: Shard)
    requires Steps(f, l)
    requires l.rate > 0 && 1 <= g < l.window && x < l.window && Canonical(a) == a && IsCrowd(a, crowd)
    ensures Scene(after, a, Some(Window(x, 1)), crowd, |crowd|, g) && after.sweepAfter == Some(g + l.window)
    ensures Plays(f, l, EMPTY, FrontRun(l, a, crowd, g, x), a, 0, after, 2)
  {
    var first := Opens(f, l, EMPTY, a, 0, 0);
    assert first.windows == map[a := Window(0, 1)];
    var swapped := EarlySwap(f, l, first, a, crowd, g);
    after := EarlyOpening(f, l, swapped, a, crowd, g, x);
    PlaysThen(f, l, EMPTY, [By(a, 0)], Swap(l, crowd, g), a, 0, first, swapped, 1, 0);
    PlaysThen(f, l, EMPTY, [By(a, 0)] + Swap(l, crowd, g), [By(a, x)], a, 0, swapped, after, 1, 1);
  }

  lemma {:induction false} ThricePlays(f: Stepper, l: Limits, skew: nat, a: IpAddr, crowd: seq<IpAddr>)
      returns (after: Shard)
    requires Steps(f, l)
    requires l.rate > 0 && l.window > 1 && 2 * skew > l.window && Canonical(a) == a && IsCrowd(a, crowd)
    ensures Plays(f, l, EMPTY, ThriceRun(l, skew, a, crowd), a, 0, after, 3)
  {
    var x, g := Back(l, skew), Arrival(l, skew);
    var second := FrontPlays(f, l, a, crowd, g, x);
    after := ThirdOpening(f, l, second, a, crowd, g, x);
    PlaysThen(f, l, EMPTY, FrontRun(l, a, crowd, g, x), TailRun(l, a, crowd, g, x), a, 0, second, after, 2, 1);
  }

  /** One more request, no more than `skew` behind the latest reading. */
  lemma {:induction false} SkewedSnoc(qs: seq<Request>, q: Request, a: IpAddr, skew: nat, hi: nat)
    requires Skewed(qs, skew) && Reads(qs, a, 0, hi) && hi <= q.now + skew
             && ShardIndex(Canonical(q.ip)) == ShardIndex(a)
    ensures Skewed(qs + [q], skew) && Reads(qs + [q], a, 0, Later(hi, q.now))
  {
    SkewedThen(qs, [q], a, skew, hi, q.now, q.now);
  }

  lemma {:induction false} SwapIsSkewed(l: Limits, skew: nat, a: IpAddr, crowd: seq<IpAddr>, g: nat)
    requires g < l.window && IsCrowd(a, crowd)
    ensures Skewed(Swap(l, crowd, g), skew) && Reads(Swap(l, crowd, g), a, 0, l.window)
  {
    forall i | 0 <= i < |crowd| ensures Neighbour(a, crowd[i]) {}
    NearIsSkewed(Arrivals(crowd, g, |crowd|), a, g, g, skew);
    SkewedSnoc(Arrivals(crowd, g, |crowd|), By(crowd[0], l.window), a, skew, g);
  }

  lemma {:induction false} FrontIsSkewed(l: Limits, skew: nat, a: IpAddr, crowd: seq<IpAddr>, g: nat, x: nat)
    requires g < l.window && l.window <= x + skew && x <= l.window && Canonical(a) == a && IsCrowd(a, crowd)
    ensures Skewed(FrontRun(l, a, crowd, g, x), skew) && Reads(FrontRun(l, a, crowd, g, x), a, 0, l.window)
  {
    var first, swap := [By(a, 0)], Swap(l, crowd, g);
    SwapIsSkewed(l, skew, a, crowd, g);
    NearIsSkewed(first, a, 0, 0, skew);
    SkewedThen(first, swap, a, skew, 0, 0, l.window);
    ReadsThen(first, swap, a, 0, l.window);
    SkewedSnoc(first + swap, By(a, x), a, skew, l.window);
  }

  lemma {:induction false} ThriceIsSkewed(l: Limits, skew: nat, a: IpAddr, crowd: seq<IpAddr>)
    requires l.window > 1 && skew > 0 && Canonical(a) == a && IsCrowd(a, crowd)
    ensures Skewed(ThriceRun(l, skew, a, crowd), skew) && Local(ThriceRun(l, skew, a, crowd), a)
  {
    var x, g := Back(l, skew), Arrival(l, skew);
    var front, q, r := FrontRun(l, a, crowd, g, x), By(crowd[0], l.window + g), By(a, g + x);
    FrontIsSkewed(l, skew, a, crowd, g, x);
    assert Neighbour(a, crowd[0]);
    SkewedSnoc(front, q, a, skew, l.window);
    SkewedSnoc(front + [q], r, a, skew, l.window + g);
    assert front + ([q] + [r]) == front + [q] + [r];
  }

  lemma {:induction false} PlayedIsAdmitted(f: Stepper, l: Limits, qs: seq<Request>, a: IpAddr, lo: nat, after: Shard,
                                            hits: nat)
    requires Steps(f, l) && l.rate > 0 && Local(qs, a) && Plays(f, l, ShardOf(Initial(), a), qs, a, lo, after, hits)
    ensures AlwaysTracked(qs, OutcomesOf(l, qs), a, |qs|) && Admits(l, qs, a, lo) == hits
  {
    var s, outs := ShardOf(Initial(), a), OutcomesOf(l, qs);
    RunAnswers(f, l, qs, outs, a);
    TrackedThroughout(f, l, qs, outs, s, a);
    AdmissionsAreHits(f, l, qs, outs, s, a, lo, |qs|);
    assert qs[..|qs|] == qs;
  }

  /** Beyond half a window of disorder three windows open within one. */
  lemma {:induction false} ThriceIsAdmitted(l: Limits, skew: nat, a: IpAddr, crowd: seq<IpAddr>)
    requires l.rate > 0 && l.window > 1 && 2 * skew > l.window && Canonical(a) == a && IsCrowd(a, crowd)
    ensures var qs := ThriceRun(l, skew, a, crowd);
            && Skewed(qs, skew) && AlwaysTracked(qs, OutcomesOf(l, qs), a, |qs|)
            && Admits(l, qs, a, 0) == 3
  {
    var f := StepperOf(l);
    ThriceIsSkewed(l, skew, a, crowd);
    var after := ThricePlays(f, l, skew, a, crowd);
    PlayedIsAdmitted(f, l, ThriceRun(l, skew, a, crowd), a, 0, after, 3);
  }
}
