/** An address in a full shard, for every skew below the window: two groups of neighbours
    fill the shard in turns, each sweep clears the older group and the address, and the
    general bound is attained. */
module PhasedBursts {
  import opened Wrappers
  import opened IpAddresses
  import opened PerIpThrottle
  import opened ThrottleSkew
  import opened LoneBursts
  import opened Crowding
  import opened CrowdBursts

  // ---------------------------------------------------------------- two groups

  function Members(group: seq<IpAddr>): set<IpAddr> { set c | c in group }

  ghost predicate IsGroup(a: IpAddr, group: seq<IpAddr>) {
    && |group| > 0 && Crowding.Distinct(group) && a !in group
    && forall i {:trigger Neighbour(a, group[i])} | 0 <= i < |group| :: Neighbour(a, group[i])
  }

  /** Two groups that together with `a` fill the shard. */
  ghost predicate FillShard(a: IpAddr, x: seq<IpAddr>, y: seq<IpAddr>) {
    && IsGroup(a, x) && IsGroup(a, y) && Members(x) !! Members(y)
    && |x| + |y| + 1 == MAX_IPS_PER_SHARD
  }

  lemma {:induction false} MembersSize(group: seq<IpAddr>)
    requires Crowding.Distinct(group)
    ensures |Members(group)| == |group|
  {
    if group != [] {
      var front, last := group[..|group| - 1], group[|group| - 1];
      MembersSize(front);
      assert group == front + [last];
      assert Members(group) == Members(front) + {last};
    }
  }

  /** The windows are those of `group`, opened at `start`. */
  ghost predicate Only(s: Shard, group: seq<IpAddr>, start: nat) {
    && s.windows.Keys == Members(group)
    && forall c | c in group :: c in s.windows && s.windows[c].start == start
  }

  /** The windows are those of `x`, of the first `n` of `y` and of `a`. */
  ghost predicate Stage(s: Shard, a: IpAddr, w: Window, x: seq<IpAddr>, at: nat, y: seq<IpAddr>, n: nat, start: nat)
    requires n <= |y|
  {
    && s.windows.Keys == Members(x) + Members(y[..n]) + {a}
    && (forall c | c in x :: c in s.windows && s.windows[c].start == at)
    && (forall c | c in y[..n] :: c in s.windows && s.windows[c].start == start)
    && a in s.windows && s.windows[a] == w
  }

  lemma {:induction false} StageSize(s: Shard, a: IpAddr, w: Window, x: seq<IpAddr>, at: nat, y: seq<IpAddr>, n: nat,
                                     start: nat)
    requires n <= |y| && FillShard(a, x, y) && Stage(s, a, w, x, at, y, n, start)
    ensures |s.windows| == |x| + n + 1
  {
    MembersSize(x);
    MembersSize(y[..n]);
    assert Members(y[..n]) <= Members(y);
    ThreeDisjoint(Members(x), Members(y[..n]), a);
    assert |s.windows| == |s.windows.Keys|;
  }

  lemma {:induction false} ThreeDisjoint<T>(x: set<T>, y: set<T>, a: T)
    requires x !! y && a !in x && a !in y
    ensures |x + y + {a}| == |x| + |y| + 1
  {
  }

  // ---------------------------------------------------------------- one phase

  /** `a` opens a window at `s` and fills it at `t`. */
  function HalfPhase(l: Limits, a: IpAddr, s: nat, t: nat): seq<Request>
    requires l.rate > 0
  {
    [By(a, s)] + Repeat(By(a, t), l.rate - 1)
  }

  /** The group that is away comes back at `e`, and one of it sweeps the shard at `now`. */
  function TurnRun(group: seq<IpAddr>, e: nat, now: nat): seq<Request>
    requires |group| > 0
  {
    Arrivals(group, e, |group|) + [By(group[0], now)]
  }

  function Phase(l: Limits, a: IpAddr, group: seq<IpAddr>, s: nat, t: nat, e: nat): seq<Request>
    requires l.rate > 0 && |group| > 0
  {
    HalfPhase(l, a, s, t) + TurnRun(group, e, s + l.window)
  }

  lemma {:induction false} OnlySize(s: Shard, group: seq<IpAddr>, start: nat)
    requires Only(s, group, start) && Crowding.Distinct(group)
    ensures |s.windows| == |group|
  {
    MembersSize(group);
    assert |s.windows| == |s.windows.Keys|;
  }

  lemma {:induction false} HalfPlays(f: Stepper, l: Limits, s: Shard, a: IpAddr, x: seq<IpAddr>, at: nat,
                                     y: seq<IpAddr>, open: nat, t: nat, lo: nat)
      returns (after: Shard)
    requires Steps(f, l)
    requires l.rate > 0 && Canonical(a) == a && FillShard(a, x, y) && Only(s, x, at)
    requires open <= t < open + l.window && lo <= t < lo + l.window
    ensures Stage(after, a, Window(open, l.rate), x, at, y, 0, 0) && after.sweepAfter == s.sweepAfter
    ensures Plays(f, l, s, HalfPhase(l, a, open, t), a, lo, after, l.rate - 1 + Count(lo <= open, 1))
  {
    OnlySize(s, x, at);
    assert a !in Members(x);
    var mid := Opens(f, l, s, a, open, lo);
    Added(s.windows, a, Window(open, 1));
    after := Fills(f, l, mid, a, t, lo, l.rate - 1);
    PlaysThen(f, l, s, [By(a, open)], Repeat(By(a, t), l.rate - 1), a, lo, mid, after, Count(lo <= open, 1),
              l.rate - 1);
    assert y[..0] == [];
  }

  lemma {:induction false} StageGrows(mid: Shard, after: Shard, a: IpAddr, w: Window, x: seq<IpAddr>, at: nat,
                                      y: seq<IpAddr>, n: nat, start: nat)
    requires 0 < n <= |y| && FillShard(a, x, y) && Stage(mid, a, w, x, at, y, n - 1, start)
    requires after.windows == mid.windows[y[n - 1] := Window(start, 1)]
    ensures y[n - 1] !in mid.windows
    ensures Stage(after, a, w, x, at, y, n, start)
  {
    var c := y[n - 1];
    assert y[..n] == y[..n - 1] + [c];
    assert Members(y[..n]) == Members(y[..n - 1]) + {c};
    assert c in y && c in Members(y);
    assert c !in y[..n - 1];
  }

  lemma {:induction false} OneJoins(f: Stepper, l: Limits, mid: Shard, a: IpAddr, w: Window, x: seq<IpAddr>, at: nat,
                                    y: seq<IpAddr>, n: nat, start: nat, lo: nat)
      returns (after: Shard)
    requires Steps(f, l)
    requires 0 < n <= |y| && FillShard(a, x, y) && Stage(mid, a, w, x, at, y, n - 1, start)
    ensures Stage(after, a, w, x, at, y, n, start) && after.sweepAfter == mid.sweepAfter
    ensures Plays(f, l, mid, [By(y[n - 1], start)], a, lo, after, 0)
  {
    var c := y[n - 1];
    after := mid.(windows := mid.windows[c := Window(start, 1)]);
    StageSize(mid, a, w, x, at, y, n - 1, start);
    StageGrows(mid, after, a, w, x, at, y, n, start);
    assert Neighbour(a, c) && c in y;
    PlaysOne(f, l, mid, By(c, start), a, lo, after, PerIpThrottle.Outcome.Opened);
  }

  lemma {:induction false} GroupJoins(f: Stepper, l: Limits, s: Shard, a: IpAddr, w: Window, x: seq<IpAddr>, at: nat,
                                      y: seq<IpAddr>, n: nat, start: nat, lo: nat)
      returns (after: Shard)
    requires Steps(f, l)
    requires n <= |y| && FillShard(a, x, y) && Stage(s, a, w, x, at, y, 0, 0)
    ensures Stage(after, a, w, x, at, y, n, start) && after.sweepAfter == s.sweepAfter
    ensures Plays(f, l, s, Arrivals(y, start, n), a, lo, after, 0)
  {
    if n == 0 {
      after := s;
    } else {
      var mid := GroupJoins(f, l, s, a, w, x, at, y, n - 1, start, lo);
      after := OneJoins(f, l, mid, a, w, x, at, y, n, start, lo);
      PlaysThen(f, l, s, Arrivals(y, start, n - 1), [By(y[n - 1], start)], a, lo, mid, after, 0, 0);
      ArrivalsSnoc(y, start, n);
    }
  }

  // ---------------------------------------------------------------- the sweep of a phase

  lemma {:induction false} YoungerStay(l: Limits, s: Shard, a: IpAddr, w: Window, x: seq<IpAddr>, at: nat,
                                       y: seq<IpAddr>, start: nat, now: nat, after: Shard)
    requires FillShard(a, x, y) && Stage(s, a, w, x, at, y, |y|, start)
    requires Expired(l, w, now) && at + l.window <= now && start <= now < start + l.window
    requires after.windows == Live(l, s.windows, now)
    ensures Only(after, y, start)
  {
    assert y[..|y|] == y;
    forall c ensures c in after.windows <==> c in Members(y) {
      if c in Members(x) { assert c in x && s.windows[c].start == at; }
      if c in Members(y) { assert c in y && s.windows[c].start == start; }
    }
  }

  lemma {:induction false} OnlyIsEarliest(s: Shard, group: seq<IpAddr>, start: nat)
    requires |group| > 0 && Only(s, group, start)
    ensures Earliest(s.windows) == Some(start)
  {
    forall c | c in s.windows ensures s.windows[c].start == start { assert c in Members(group); }
    assert group[0] in group;
    EarliestIsUnique(s.windows, Some(start));
  }

  lemma {:induction false} MemberCounts(l: Limits, s: Shard, group: seq<IpAddr>, start: nat, now: nat)
    requires |group| > 0 && Only(s, group, start) && start <= now < start + l.window
    ensures Only(Charge(l, s, group[0], now).0, group, start)
    ensures Charge(l, s, group[0], now).0.sweepAfter == s.sweepAfter
  {
    assert group[0] in group;
  }

  lemma {:induction false} SweepTurns(l: Limits, s: Shard, a: IpAddr, w: Window, x: seq<IpAddr>, at: nat,
                                      y: seq<IpAddr>, start: nat, now: nat)
    requires FillShard(a, x, y) && Stage(s, a, w, x, at, y, |y|, start)
    requires Expired(l, w, now) && at + l.window <= now && start <= now < start + l.window
    ensures Only(Sweep(l, s, now), y, start) && Sweep(l, s, now).sweepAfter == Some(start + l.window)
  {
    YoungerStay(l, s, a, w, x, at, y, start, now, Sweep(l, s, now));
    OnlyIsEarliest(Sweep(l, s, now), y, start);
  }

  lemma {:induction false} SweptCharge(l: Limits, s: Shard, c: IpAddr, now: nat) returns (after: Shard, o: Outcome)
    requires Canonical(c) == c && DueForSweep(s, now)
    ensures after == Charge(l, Sweep(l, s, now), c, now).0 && Next(l, s, By(c, now)) == (after, o)
  {
    after, o := Charge(l, Sweep(l, s, now), c, now).0, Charge(l, Sweep(l, s, now), c, now).1;
  }

  lemma {:induction false} Turn(f: Stepper, l: Limits, s: Shard, a: IpAddr, w: Window, x: seq<IpAddr>, at: nat,
                                y: seq<IpAddr>, start: nat, now: nat, lo: nat)
      returns (after: Shard)
    requires Steps(f, l)
    requires FillShard(a, x, y) && Stage(s, a, w, x, at, y, |y|, start)
    requires s.sweepAfter.Some? ==> s.sweepAfter.value <= now
    requires Expired(l, w, now) && at + l.window <= now && start <= now < start + l.window
    ensures Only(after, y, start) && after.sweepAfter == Some(start + l.window)
    ensures Plays(f, l, s, [By(y[0], now)], a, lo, after, 0)
  {
    StageSize(s, a, w, x, at, y, |y|, start);
    SweepTurns(l, s, a, w, x, at, y, start, now);
    MemberCounts(l, Sweep(l, s, now), y, start, now);
    assert Neighbour(a, y[0]) && y[0] in y;
    var o;
    after, o := SweptCharge(l, s, y[0], now);
    PlaysOne(f, l, s, By(y[0], now), a, lo, after, o);
  }

  /** A whole phase: the window of `a` and the turn of the groups. */
  lemma {:induction false} PhasePlays(f: Stepper, l: Limits, s: Shard, a: IpAddr, x: seq<IpAddr>, at: nat,
                                      y: seq<IpAddr>, open: nat, t: nat, e: nat, lo: nat)
      returns (after: Shard)
    requires Steps(f, l)
    requires l.rate > 0 && Canonical(a) == a && FillShard(a, x, y) && Only(s, x, at) && at <= open
    requires s.sweepAfter.Some? ==> s.sweepAfter.value <= open + l.window
    requires open <= t < open + l.window && lo <= t < lo + l.window && open < e <= open + l.window
    ensures Only(after, y, e) && after.sweepAfter == Some(e + l.window)
    ensures Plays(f, l, s, Phase(l, a, y, open, t, e), a, lo, after, l.rate - 1 + Count(lo <= open, 1))
  {
    var w, now := Window(open, l.rate), open + l.window;
    var half := HalfPlays(f, l, s, a, x, at, y, open, t, lo);
    var full := GroupJoins(f, l, half, a, w, x, at, y, |y|, e, lo);
    after := Turn(f, l, full, a, w, x, at, y, e, now, lo);
    PlaysThen(f, l, half, Arrivals(y, e, |y|), [By(y[0], now)], a, lo, full, after, 0, 0);
    PlaysThen(f, l, s, HalfPhase(l, a, open, t), TurnRun(y, e, now), a, lo, half, after,
              l.rate - 1 + Count(lo <= open, 1), 0);
  }

  // ---------------------------------------------------------------- the run

  /** The spacing of the windows, their number, and the interval that ends with the last. */
  function Gap(l: Limits, skew: nat): nat
    requires skew < l.window
  {
    l.window - skew
  }

  function Number(l: Limits, skew: nat): nat
    requires skew < l.window
  {
    Windows(l, skew, Gap(l, skew))
  }

  /** Window `k` opens at `k * gap`; the rest of it is read inside the interval from `lo`,
      and the group comes back when it may, but after the window opened. */
  function FillAt(l: Limits, skew: nat, lo: nat, k: nat): nat
    requires skew < l.window
  {
    Later(k * Gap(l, skew), lo)
  }

  function BackAt(l: Limits, skew: nat, lo: nat, k: nat): nat
    requires skew < l.window
  {
    var t := FillAt(l, skew, lo, k);
    Later(k * Gap(l, skew) + 1, if t < skew then 0 else t - skew)
  }

  /** The two groups take turns. */
  function GroupOf(x: seq<IpAddr>, y: seq<IpAddr>, k: nat): seq<IpAddr> { if k % 2 == 0 then y else x }

  /** `x` arrives, then `n` phases. */
  function PhasesRun(l: Limits, skew: nat, a: IpAddr, x: seq<IpAddr>, y: seq<IpAddr>, lo: nat, n: nat): seq<Request>
    requires l.rate > 0 && skew < l.window && |x| > 0 && |y| > 0
  {
    if n == 0 then Arrivals(x, 0, |x|)
    else PhasesRun(l, skew, a, x, y, lo, n - 1) + PhaseOf(l, skew, a, x, y, lo, n - 1)
  }

  function PhaseOf(l: Limits, skew: nat, a: IpAddr, x: seq<IpAddr>, y: seq<IpAddr>, lo: nat, k: nat): seq<Request>
    requires l.rate > 0 && skew < l.window && |x| > 0 && |y| > 0
  {
    Phase(l, a, GroupOf(x, y, k), k * Gap(l, skew), FillAt(l, skew, lo, k), BackAt(l, skew, lo, k))
  }

  /** Then the window that ends the interval. */
  function PhasedRun(l: Limits, skew: nat, a: IpAddr, x: seq<IpAddr>, y: seq<IpAddr>, lo: nat, n: nat): seq<Request>
    requires l.rate > 0 && skew < l.window && |x| > 0 && |y| > 0
  {
    PhasesRun(l, skew, a, x, y, lo, n) + HalfPhase(l, a, n * Gap(l, skew), FillAt(l, skew, lo, n))
  }

  /** The interval from `lo` reaches back to the first window and ends with window `n`. */
  ghost predicate Spans(l: Limits, skew: nat, lo: nat, n: nat) {
    0 < skew < l.window && lo < l.window && n * (l.window - skew) == lo + l.window - 1
  }

  lemma {:induction false} PhaseTimes(l: Limits, skew: nat, lo: nat, n: nat, k: nat)
    requires Spans(l, skew, lo, n) && k <= n
    ensures var open, t, e := k * Gap(l, skew), FillAt(l, skew, lo, k), BackAt(l, skew, lo, k);
            && open <= t < open + l.window && lo <= t < lo + l.window
            && open < e <= open + Gap(l, skew) && t <= e + skew
            && open + Gap(l, skew) == (k + 1) * Gap(l, skew)
  {
    TimesLeq(k, n, Gap(l, skew));
    assert (k + 1) * Gap(l, skew) == k * Gap(l, skew) + Gap(l, skew);
  }

  // ---------------------------------------------------------------- its admissions

  lemma {:induction false} OnlyGrows(mid: Shard, after: Shard, x: seq<IpAddr>, n: nat)
    requires 0 < n <= |x| && Crowding.Distinct(x) && Only(mid, x[..n - 1], 0)
    requires after.windows == mid.windows[x[n - 1] := Window(0, 1)]
    ensures x[n - 1] !in mid.windows && |mid.windows| == n - 1
    ensures Only(after, x[..n], 0)
  {
    OnlySize(mid, x[..n - 1], 0);
    assert x[n - 1] !in x[..n - 1];
    assert x[..n] == x[..n - 1] + [x[n - 1]];
  }

  lemma {:induction false} ArrivesAlone(f: Stepper, l: Limits, a: IpAddr, x: seq<IpAddr>, n: nat, lo: nat)
      returns (after: Shard)
    requires Steps(f, l)
    requires n <= |x| < MAX_IPS_PER_SHARD && IsGroup(a, x)
    ensures Only(after, x[..n], 0) && after.sweepAfter == None
    ensures Plays(f, l, EMPTY, Arrivals(x, 0, n), a, lo, after, 0)
  {
    if n == 0 {
      after := EMPTY;
    } else {
      var c := x[n - 1];
      var mid := ArrivesAlone(f, l, a, x, n - 1, lo);
      after := mid.(windows := mid.windows[c := Window(0, 1)]);
      OnlyGrows(mid, after, x, n);
      assert Neighbour(a, c) && c in x;
      PlaysOne(f, l, mid, By(c, 0), a, lo, after, PerIpThrottle.Outcome.Opened);
      PlaysThen(f, l, EMPTY, Arrivals(x, 0, n - 1), [By(c, 0)], a, lo, mid, after, 0, 0);
      ArrivalsSnoc(x, 0, n);
    }
  }

  /** How many of the first `k` windows open in the interval. */
  ghost function OpenedInside(l: Limits, skew: nat, lo: nat, k: nat): nat
    requires skew < l.window
  {
    if k == 0 then 0 else OpenedInside(l, skew, lo, k - 1) + Count(lo <= (k - 1) * Gap(l, skew), 1)
  }

  ghost predicate Ready(s: Shard, group: seq<IpAddr>, latest: nat, gate: nat) {
    (exists at | 0 <= at <= latest :: Only(s, group, at)) && (s.sweepAfter.Some? ==> s.sweepAfter.value <= gate)
  }

  /** What the first `k` windows put into the interval. */
  ghost function Total(l: Limits, skew: nat, lo: nat, k: nat): nat
    requires l.rate > 0 && skew < l.window
  {
    k * (l.rate - 1) + OpenedInside(l, skew, lo, k)
  }

  lemma {:induction false} TotalStep(l: Limits, skew: nat, lo: nat, k: nat)
    requires l.rate > 0 && skew < l.window
    ensures Total(l, skew, lo, k + 1) == Total(l, skew, lo, k) + (l.rate - 1 + Count(lo <= k * Gap(l, skew), 1))
  {
    assert (k + 1) * (l.rate - 1) == k * (l.rate - 1) + (l.rate - 1);
  }

  lemma {:induction false} PhasesStart(f: Stepper, l: Limits, skew: nat, a: IpAddr, x: seq<IpAddr>, y: seq<IpAddr>,
                                       lo: nat)
      returns (after: Shard)
    requires Steps(f, l)
    requires l.rate > 0 && FillShard(a, x, y) && skew < l.window
    ensures Ready(after, GroupOf(x, y, 1), 0, l.window)
    ensures Plays(f, l, EMPTY, PhasesRun(l, skew, a, x, y, lo, 0), a, lo, after, 0)
  {
    after := ArrivesAlone(f, l, a, x, |x|, lo);
    assert x[..|x|] == x && Only(after, x, 0);
  }

  lemma {:induction false} PhasesPlay(f: Stepper, l: Limits, skew: nat, a: IpAddr, x: seq<IpAddr>, y: seq<IpAddr>,
                                      lo: nat, n: nat, k: nat)
      returns (after: Shard)
    requires Steps(f, l)
    requires l.rate > 0 && Canonical(a) == a && FillShard(a, x, y) && Spans(l, skew, lo, n) && k <= n
    ensures Ready(after, GroupOf(x, y, k + 1), k * Gap(l, skew), k * Gap(l, skew) + l.window)
    ensures Plays(f, l, EMPTY, PhasesRun(l, skew, a, x, y, lo, k), a, lo, after, Total(l, skew, lo, k))
  {
    if k == 0 {
      after := PhasesStart(f, l, skew, a, x, y, lo);
    } else {
      var j := k - 1;
      var mid := PhasesPlay(f, l, skew, a, x, y, lo, n, j);
      after := OnePhase(f, l, skew, a, x, y, lo, n, j, mid);
      PhasesNext(f, l, skew, a, x, y, lo, j, mid, after);
    }
  }

  lemma {:induction false} PhasesNext(f: Stepper, l: Limits, skew: nat, a: IpAddr, x: seq<IpAddr>, y: seq<IpAddr>,
                                      lo: nat, j: nat, mid: Shard, after: Shard)
    requires l.rate > 0 && skew < l.window && |x| > 0 && |y| > 0
    requires Plays(f, l, EMPTY, PhasesRun(l, skew, a, x, y, lo, j), a, lo, mid, Total(l, skew, lo, j))
    requires Plays(f, l, mid, PhaseOf(l, skew, a, x, y, lo, j), a, lo, after,
                   l.rate - 1 + Count(lo <= j * Gap(l, skew), 1))
    ensures Plays(f, l, EMPTY, PhasesRun(l, skew, a, x, y, lo, j + 1), a, lo, after, Total(l, skew, lo, j + 1))
  {
    TotalStep(l, skew, lo, j);
    PlaysThen(f, l, EMPTY, PhasesRun(l, skew, a, x, y, lo, j), PhaseOf(l, skew, a, x, y, lo, j), a, lo, mid, after,
              Total(l, skew, lo, j), l.rate - 1 + Count(lo <= j * Gap(l, skew), 1));
  }

  lemma {:induction false} TurnsAreOthers(a: IpAddr, x: seq<IpAddr>, y: seq<IpAddr>, k: nat)
    requires FillShard(a, x, y)
    ensures FillShard(a, GroupOf(x, y, k + 1), GroupOf(x, y, k)) && GroupOf(x, y, k + 2) == GroupOf(x, y, k)
  {
  }

  lemma {:induction false} OnePhase(f: Stepper, l: Limits, skew: nat, a: IpAddr, x: seq<IpAddr>, y: seq<IpAddr>,
                                    lo: nat, n: nat, k: nat, s: Shard)
      returns (after: Shard)
    requires Steps(f, l)
    requires l.rate > 0 && Canonical(a) == a && FillShard(a, x, y) && Spans(l, skew, lo, n) && k < n
    requires Ready(s, GroupOf(x, y, k + 1), k * Gap(l, skew), k * Gap(l, skew) + l.window)
    ensures Ready(after, GroupOf(x, y, k + 2), (k + 1) * Gap(l, skew), (k + 1) * Gap(l, skew) + l.window)
    ensures Plays(f, l, s, PhaseOf(l, skew, a, x, y, lo, k), a, lo, after,
                  l.rate - 1 + Count(lo <= k * Gap(l, skew), 1))
  {
    var open, t, e := k * Gap(l, skew), FillAt(l, skew, lo, k), BackAt(l, skew, lo, k);
    PhaseTimes(l, skew, lo, n, k);
    TurnsAreOthers(a, x, y, k);
    var at :| 0 <= at <= open && Only(s, GroupOf(x, y, k + 1), at);
    after := PhasePlays(f, l, s, a, GroupOf(x, y, k + 1), at, GroupOf(x, y, k), open, t, e, lo);
  }

  lemma {:induction false} PhasedPlays(f: Stepper, l: Limits, skew: nat, a: IpAddr, x: seq<IpAddr>, y: seq<IpAddr>,
                                       lo: nat, n: nat)
      returns (after: Shard)
    requires Steps(f, l)
    requires l.rate > 0 && Canonical(a) == a && FillShard(a, x, y) && Spans(l, skew, lo, n)
    ensures Plays(f, l, EMPTY, PhasedRun(l, skew, a, x, y, lo, n), a, lo, after, Total(l, skew, lo, n + 1))
  {
    var open, t := n * Gap(l, skew), FillAt(l, skew, lo, n);
    var mid := PhasesPlay(f, l, skew, a, x, y, lo, n, n);
    PhaseTimes(l, skew, lo, n, n);
    TurnsAreOthers(a, x, y, n);
    var at :| 0 <= at <= open && Only(mid, GroupOf(x, y, n + 1), at);
    after := HalfPlays(f, l, mid, a, GroupOf(x, y, n + 1), at, GroupOf(x, y, n), open, t, lo);
    TotalStep(l, skew, lo, n);
    PlaysThen(f, l, EMPTY, PhasesRun(l, skew, a, x, y, lo, n), HalfPhase(l, a, open, t), a, lo, mid, after,
              Total(l, skew, lo, n), l.rate - 1 + Count(lo <= open, 1));
  }

  // ---------------------------------------------------------------- its readings

  lemma {:induction false} GroupReads(a: IpAddr, group: seq<IpAddr>, now: nat)
    requires IsGroup(a, group)
    ensures Reads(Arrivals(group, now, |group|), a, now, now)
  {
    forall i | 0 <= i < |group| ensures Neighbour(a, group[i]) {}
  }

  lemma {:induction false} Wider(qs: seq<Request>, a: IpAddr, lo: nat, hi: nat, lo': nat, hi': nat)
    requires Reads(qs, a, lo, hi) && lo' <= lo && hi <= hi'
    ensures Reads(qs, a, lo', hi')
  {
  }

  lemma {:induction false} HalfIsSkewed(l: Limits, a: IpAddr, open: nat, t: nat, skew: nat)
    requires l.rate > 0 && Canonical(a) == a && open <= t
    ensures Skewed(HalfPhase(l, a, open, t), skew) && Reads(HalfPhase(l, a, open, t), a, open, t)
  {
  }

  /** Readings from `lo` to `hi`, then readings from `back`, no more than `skew` behind. */
  lemma {:induction false} JoinIsSkewed(x: seq<Request>, y: seq<Request>, a: IpAddr, skew: nat, lo: nat, hi: nat,
                                        back: nat, end: nat)
    requires Skewed(x, skew) && Skewed(y, skew) && Reads(x, a, lo, hi) && Reads(y, a, back, end)
    requires lo <= back && hi <= back + skew && hi <= end
    ensures Skewed(x + y, skew) && Reads(x + y, a, lo, end)
  {
    Wider(x, a, lo, hi, 0, hi);
    SkewedThen(x, y, a, skew, hi, back, end);
    Wider(x, a, lo, hi, lo, end);
    Wider(y, a, back, end, lo, end);
    ReadsThen(x, y, a, lo, end);
  }

  lemma {:induction false} JoinedIsSkewed(x: seq<Request>, y: seq<Request>, z: seq<Request>, a: IpAddr, skew: nat,
                                          lo: nat, hi: nat, back: nat, end: nat)
    requires z == x + y
    requires Skewed(x, skew) && Skewed(y, skew) && Reads(x, a, lo, hi) && Reads(y, a, back, end)
    requires lo <= back && hi <= back + skew && hi <= end
    ensures Skewed(z, skew) && Reads(z, a, lo, end)
  {
    JoinIsSkewed(x, y, a, skew, lo, hi, back, end);
  }

  lemma {:induction false} TurnIsSkewed(skew: nat, a: IpAddr, group: seq<IpAddr>, e: nat, end: nat)
    requires IsGroup(a, group) && e <= end
    ensures Skewed(TurnRun(group, e, end), skew) && Reads(TurnRun(group, e, end), a, e, end)
  {
    var back, last := Arrivals(group, e, |group|), [By(group[0], end)];
    GroupReads(a, group, e);
    NearIsSkewed(back, a, e, e, skew);
    assert Neighbour(a, group[0]) && Reads(last, a, end, end);
    NearIsSkewed(last, a, end, end, skew);
    JoinIsSkewed(back, last, a, skew, e, e, end, end);
  }

  lemma {:induction false} PhaseIsSkewed(l: Limits, skew: nat, a: IpAddr, group: seq<IpAddr>, open: nat, t: nat, e: nat)
    requires l.rate > 0 && Canonical(a) == a && IsGroup(a, group)
    requires open <= t < open + l.window && open <= e <= open + l.window && t <= e + skew
    ensures Skewed(Phase(l, a, group, open, t, e), skew)
            && Reads(Phase(l, a, group, open, t, e), a, open, open + l.window)
  {
    HalfIsSkewed(l, a, open, t, skew);
    TurnIsSkewed(skew, a, group, e, open + l.window);
    JoinedIsSkewed(HalfPhase(l, a, open, t), TurnRun(group, e, open + l.window), Phase(l, a, group, open, t, e), a,
                   skew, open, t, e, open + l.window);
  }

  lemma {:induction false} PhasesAreSkewed(l: Limits, skew: nat, a: IpAddr, x: seq<IpAddr>, y: seq<IpAddr>, lo: nat,
                                           n: nat, k: nat)
    requires l.rate > 0 && Canonical(a) == a && FillShard(a, x, y) && Spans(l, skew, lo, n) && k <= n
    ensures Skewed(PhasesRun(l, skew, a, x, y, lo, k), skew)
    ensures Reads(PhasesRun(l, skew, a, x, y, lo, k), a, 0, k * Gap(l, skew) + skew)
  {
    if k == 0 {
      GroupReads(a, x, 0);
      NearIsSkewed(Arrivals(x, 0, |x|), a, 0, 0, skew);
    } else {
      var j := k - 1;
      PhasesAreSkewed(l, skew, a, x, y, lo, n, j);
      PhaseTimes(l, skew, lo, n, j);
      TurnsAreOthers(a, x, y, j);
      PhaseIsSkewed(l, skew, a, GroupOf(x, y, j), j * Gap(l, skew), FillAt(l, skew, lo, j), BackAt(l, skew, lo, j));
      JoinIsSkewed(PhasesRun(l, skew, a, x, y, lo, j), PhaseOf(l, skew, a, x, y, lo, j), a, skew, 0,
                   j * Gap(l, skew) + skew, j * Gap(l, skew), j * Gap(l, skew) + l.window);
    }
  }

  lemma {:induction false} PhasedIsSkewed(l: Limits, skew: nat, a: IpAddr, x: seq<IpAddr>, y: seq<IpAddr>, lo: nat,
                                          n: nat)
    requires l.rate > 0 && Canonical(a) == a && FillShard(a, x, y) && Spans(l, skew, lo, n)
    ensures Skewed(PhasedRun(l, skew, a, x, y, lo, n), skew) && Local(PhasedRun(l, skew, a, x, y, lo, n), a)
  {
    var open, t := n * Gap(l, skew), FillAt(l, skew, lo, n);
    PhasesAreSkewed(l, skew, a, x, y, lo, n, n);
    PhaseTimes(l, skew, lo, n, n);
    HalfIsSkewed(l, a, open, t, skew);
    Wider(HalfPhase(l, a, open, t), a, open, t, open, open + l.window);
    JoinIsSkewed(PhasesRun(l, skew, a, x, y, lo, n), HalfPhase(l, a, open, t), a, skew, 0, open + skew, open,
                 open + l.window);
  }

  // ---------------------------------------------------------------- the bound is attained

  /** The interval that the run is made for. */
  lemma {:induction false} SomeSpan(l: Limits, skew: nat) returns (lo: nat, n: nat)
    requires 0 < skew < l.window
    ensures Spans(l, skew, lo, n) && n + 1 == Number(l, skew)
  {
    var gap, z := Gap(l, skew), l.window + skew - 2;
    n := Number(l, skew) - 1;
    assert n == z / gap + 1;
    assert n * gap == z / gap * gap + gap;
    assert z / gap * gap <= z < z / gap * gap + gap;
    lo := n * gap - (l.window - 1);
  }

  lemma {:induction false} OpenedFrom(l: Limits, skew: nat, lo: nat, first: nat, k: nat)
    requires skew < l.window
    requires forall i: nat :: lo <= i * Gap(l, skew) <==> first <= i
    ensures OpenedInside(l, skew, lo, k) == if k <= first then 0 else k - first
  {
    if k > 0 {
      OpenedFrom(l, skew, lo, first, k - 1);
      assert lo <= (k - 1) * Gap(l, skew) <==> first <= k - 1;
    }
  }

  lemma {:induction false} FirstInside(l: Limits, skew: nat, lo: nat, n: nat, i: nat)
    requires Spans(l, skew, lo, n)
    ensures (l.window - 1) / Gap(l, skew) <= n
    ensures lo <= i * Gap(l, skew) <==> n - (l.window - 1) / Gap(l, skew) <= i
  {
    var gap := Gap(l, skew);
    var q := (l.window - 1) / gap;
    assert q * gap <= l.window - 1 < q * gap + gap;
    FirstMultiple(gap, q, l.window - 1, n, lo, i);
  }

  lemma {:induction false} FirstMultiple(gap: nat, q: nat, w: nat, n: nat, lo: nat, i: nat)
    requires gap > 0 && q * gap <= w < q * gap + gap && n * gap == lo + w
    ensures q <= n
    ensures lo <= i * gap <==> n - q <= i
  {
    if n < q { TimesLeq(n + 1, q, gap); }
    assert (n - q) * gap == n * gap - q * gap;
    if n - q <= i {
      TimesLeq(n - q, i, gap);
    } else {
      TimesLeq(i + 1, n - q, gap);
    }
  }

  lemma {:induction false} TotalIsBurst(l: Limits, skew: nat, lo: nat, n: nat)
    requires l.rate > 0 && Spans(l, skew, lo, n) && n + 1 == Number(l, skew)
    ensures Total(l, skew, lo, n + 1) == Burst(l, skew, Gap(l, skew))
  {
    var first := n - (l.window - 1) / Gap(l, skew);
    forall i: nat ensures lo <= i * Gap(l, skew) <==> first <= i { FirstInside(l, skew, lo, n, i); }
    FirstInside(l, skew, lo, n, 0);
    DivideLeq(0, l.window - 1, Gap(l, skew));
    OpenedFrom(l, skew, lo, first, n + 1);
  }

  lemma {:induction false} SomeTotal(l: Limits, skew: nat) returns (lo: nat, n: nat)
    requires l.rate > 0 && 0 < skew < l.window
    ensures Spans(l, skew, lo, n) && Total(l, skew, lo, n + 1) == Burst(l, skew, l.window - skew)
  {
    lo, n := SomeSpan(l, skew);
    TotalIsBurst(l, skew, lo, n);
  }

  /** Some run out of order by `skew` has `hits` tracked admissions of `a` in an interval. */
  ghost predicate Reaches(l: Limits, skew: nat, a: IpAddr, hits: nat) {
    exists qs, lo ::
      && Admits(l, qs, a, lo) == hits
      && Skewed(qs, skew) && AlwaysTracked(qs, OutcomesOf(l, qs), a, |qs|)
  }

  lemma {:induction false} RunIsReached(l: Limits, skew: nat, qs: seq<Request>, a: IpAddr, lo: nat)
    requires Skewed(qs, skew) && AlwaysTracked(qs, OutcomesOf(l, qs), a, |qs|)
    ensures Reaches(l, skew, a, Admits(l, qs, a, lo))
  {
  }

  lemma {:induction false} PlayedIsReached(f: Stepper, l: Limits, skew: nat, qs: seq<Request>, a: IpAddr, lo: nat,
                                           after: Shard, hits: nat)
    requires Steps(f, l) && l.rate > 0 && Local(qs, a) && Skewed(qs, skew) && Plays(f, l, EMPTY, qs, a, lo, after, hits)
    ensures Reaches(l, skew, a, hits)
  {
    PlayedIsAdmitted(f, l, qs, a, lo, after, hits);
    RunIsReached(l, skew, qs, a, lo);
  }

  lemma {:induction false} PhasedIsReached(l: Limits, skew: nat, a: IpAddr, x: seq<IpAddr>, y: seq<IpAddr>, lo: nat,
                                           n: nat)
    requires l.rate > 0 && Canonical(a) == a && FillShard(a, x, y) && Spans(l, skew, lo, n)
    ensures Reaches(l, skew, a, Total(l, skew, lo, n + 1))
  {
    var f := StepperOf(l);
    PhasedIsSkewed(l, skew, a, x, y, lo, n);
    var after := PhasedPlays(f, l, skew, a, x, y, lo, n);
    PlayedIsReached(f, l, skew, PhasedRun(l, skew, a, x, y, lo, n), a, lo, after, Total(l, skew, lo, n + 1));
  }

  /** For every rate, every skew from one tick to just under the window and every address
      whose shard others can fill, a run attains the bound, all of its admissions tracked. */
  lemma {:induction false} SkewedBurstIsAttained(l: Limits, skew: nat, a: IpAddr, x: seq<IpAddr>, y: seq<IpAddr>)
    requires l.rate > 0 && 0 < skew < l.window && Canonical(a) == a && FillShard(a, x, y)
    ensures Reaches(l, skew, a, Burst(l, skew, l.window - skew))
  {
    var lo, n := SomeTotal(l, skew);
    PhasedIsReached(l, skew, a, x, y, lo, n);
  }

  lemma {:induction false} SomeShardFills() returns (a: IpAddr, x: seq<IpAddr>, y: seq<IpAddr>)
    ensures Canonical(a) == a && FillShard(a, x, y)
  {
    var crowd;
    a, crowd := SomeAddressIsCrowded();
    x, y := crowd[..1], crowd[1..];
    forall i | 0 <= i < |y| ensures Neighbour(a, y[i]) && y[i] != crowd[0] { assert Neighbour(a, crowd[i + 1]); }
    assert Neighbour(a, crowd[0]) && x == [crowd[0]];
  }

  // ---------------------------------------------------------------- exact bounds

  ghost predicate TrackedWithin(l: Limits, skew: nat, bound: nat) {
    forall qs, a, lo | Skewed(qs, skew) && AlwaysTracked(qs, OutcomesOf(l, qs), a, |qs|) ::
      Admits(l, qs, a, lo) <= bound
  }

  lemma {:induction false} InOrderRun(l: Limits, a: IpAddr)
    requires l.rate > 0 && l.window > 1 && Canonical(a) == a
    ensures var qs := TightRun(l, a);
            && Skewed(qs, 0) && AlwaysTracked(qs, OutcomesOf(l, qs), a, |qs|)
            && Admits(l, qs, a, l.window - 1) == 2 * l.rate - 1
  {
    RateBoundIsTight(l, a, OutcomesOf(l, TightRun(l, a)));
  }

  lemma {:induction false} InOrderIsAttained(l: Limits, a: IpAddr)
    requires l.rate > 0 && l.window > 1 && Canonical(a) == a
    ensures Reaches(l, 0, a, 2 * l.rate - 1)
  {
    InOrderRun(l, a);
    RunIsReached(l, 0, TightRun(l, a), a, l.window - 1);
  }

  lemma {:induction false} SomeCanonical() returns (a: IpAddr)
    ensures Canonical(a) == a
  {
    var x, y;
    a, x, y := SomeShardFills();
  }

  lemma {:induction false} OrderedBurstIsReached(l: Limits) returns (a: IpAddr)
    requires l.rate > 0 && l.window > 1
    ensures Reaches(l, 0, a, 2 * l.rate - 1)
  {
    a := SomeCanonical();
    InOrderIsAttained(l, a);
  }

  lemma {:induction false} BurstIsReached(l: Limits, skew: nat) returns (a: IpAddr)
    requires l.rate > 0 && l.window > 1 && skew < l.window
    ensures Reaches(l, skew, a, Burst(l, skew, l.window - skew))
  {
    if skew == 0 {
      a := OrderedBurstIsReached(l);
      SkewedBurstInNumbers(l, skew);
    } else {
      var x, y;
      a, x, y := SomeShardFills();
      SkewedBurstIsAttained(l, skew, a, x, y);
    }
  }

  lemma {:induction false} ReachedIsNotBounded(l: Limits, skew: nat, a: IpAddr, hits: nat, bound: nat)
    requires Reaches(l, skew, a, hits) && bound < hits
    ensures !TrackedWithin(l, skew, bound)
  {
    var qs, lo :| Admits(l, qs, a, lo) == hits && Skewed(qs, skew) && AlwaysTracked(qs, OutcomesOf(l, qs), a, |qs|);
  }

  /** With readings out of order by less than the window, `Burst` is the exact bound for
      addresses never admitted untracked: a number bounds them all if and only if it is
      at least that. */
  lemma {:induction false} ExactBurst(l: Limits, skew: nat, bound: nat)
    requires l.rate > 0 && l.window > 1 && skew < l.window
    ensures TrackedWithin(l, skew, bound) <==> bound >= Burst(l, skew, l.window - skew)
  {
    if Burst(l, skew, l.window - skew) <= bound {
      forall qs, a, lo | Skewed(qs, skew) && AlwaysTracked(qs, OutcomesOf(l, qs), a, |qs|)
        ensures Admits(l, qs, a, lo) <= bound
      {
        SkewedRateBound(l, qs, OutcomesOf(l, qs), a, skew, lo);
      }
    } else {
      var a := BurstIsReached(l, skew);
      ReachedIsNotBounded(l, skew, a, Burst(l, skew, l.window - skew), bound);
    }
  }

  /** What bounds a larger skew bounds a smaller one. */
  lemma {:induction false} LessSkew(l: Limits, skew: nat, more: nat, bound: nat)
    requires skew <= more && TrackedWithin(l, more, bound)
    ensures TrackedWithin(l, skew, bound)
  {
    forall qs, a, lo | Skewed(qs, skew) && AlwaysTracked(qs, OutcomesOf(l, qs), a, |qs|)
      ensures Admits(l, qs, a, lo) <= bound
    {
      assert Skewed(qs, more);
    }
  }

  /** Readings out of order by a window or more reach at least what one tick less reaches. */
  lemma {:induction false} BurstBeyondWindow(l: Limits, skew: nat, bound: nat)
    requires l.rate > 0 && l.window > 1 && skew >= l.window && TrackedWithin(l, skew, bound)
    ensures bound >= Burst(l, l.window - 1, 1)
  {
    LessSkew(l, l.window - 1, skew, bound);
    ExactBurst(l, l.window - 1, bound);
  }

  /** Up to a third of the window the exact bound is 3 * rate - 1, and 2 * rate - 1 in order. */
  lemma {:induction false} ExactSmallBurst(l: Limits, skew: nat, bound: nat)
    requires l.rate > 0 && l.window > 1 && 3 * skew <= l.window + 1
    ensures TrackedWithin(l, skew, bound) <==> bound >= if skew == 0 then 2 * l.rate - 1 else 3 * l.rate - 1
  {
    SkewedBurstInNumbers(l, skew);
    ExactBurst(l, skew, bound);
  }

  /** Within half a window of disorder a rate of one admits at most two. */
  lemma {:induction false} SingleRate(l: Limits, skew: nat)
    requires l.rate == 1 && l.window > 1 && 2 * skew <= l.window
    ensures skew < l.window && Burst(l, skew, l.window - skew) <= 2
  {
    var gap := l.window - skew;
    DivideLeq(l.window - 1, 2 * gap - 1, gap);
    Quotient(2 * gap - 1, gap, 1);
  }

  lemma {:induction false} SingleWithin(l: Limits, skew: nat)
    requires l.rate == 1 && l.window > 1 && 2 * skew <= l.window
    ensures TrackedWithin(l, skew, 2)
  {
    SingleRate(l, skew);
    ExactBurst(l, skew, 2);
  }

  /** One tick of disorder is enough to exceed twice a rate above one. */
  lemma {:induction false} TickExceeds(l: Limits, skew: nat)
    requires l.rate > 1 && l.window > 1 && skew > 0
    ensures !TrackedWithin(l, skew, 2 * l.rate)
  {
    ExactSmallBurst(l, 1, 2 * l.rate);
    if TrackedWithin(l, skew, 2 * l.rate) { LessSkew(l, 1, skew, 2 * l.rate); }
  }

  lemma {:induction false} ThriceExceeds(l: Limits, skew: nat)
    requires l.rate == 1 && l.window > 1 && 2 * skew > l.window
    ensures !TrackedWithin(l, skew, 2)
  {
    var a, crowd := SomeAddressIsCrowded();
    ThriceIsAdmitted(l, skew, a, crowd);
    RunIsReached(l, skew, ThriceRun(l, skew, a, crowd), a, 0);
    ReachedIsNotBounded(l, skew, a, 3, 2);
  }

  /** The burst of every tracked address stays within twice the rate if and only if
      readings arrive in order, or the rate is one and they are out of order by at most
      half a window. */
  lemma {:induction false} BurstWithinTwice(l: Limits, skew: nat)
    requires l.rate > 0 && l.window > 1
    ensures TrackedWithin(l, skew, 2 * l.rate) <==> skew == 0 || (l.rate == 1 && 2 * skew <= l.window)
  {
    if skew == 0 {
      ExactSmallBurst(l, skew, 2 * l.rate);
    } else if l.rate > 1 {
      TickExceeds(l, skew);
    } else if 2 * skew <= l.window {
      SingleWithin(l, skew);
    } else {
      ThriceExceeds(l, skew);
    }
  }
}
