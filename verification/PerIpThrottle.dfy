/** The per-address request throttle: 64 bounded, lazily swept shards of fixed
    windows. Times are those of the locked sections, in the order the locks are
    taken. */
module PerIpThrottle {
  import opened Wrappers
  import opened IpAddresses

  const SHARDS: nat := 64
  const MAX_IPS_PER_SHARD: nat := 4096
  const U64_MODULUS: nat := 0x1_0000_0000_0000_0000

  // ---------------------------------------------------------------- shard selection

  const SEED: nat := 0x9e37_79b9_7f4a_7c15

  /** One round of the hash: exclusive-or with an octet, then a wrapping multiply. */
  function MixOctet(h: nat, octet: bv8): nat {
    (h - h % 256 + ((h % 256) as bv8 ^ octet) as nat) * 0x100_0000_01b3 % U64_MODULUS
  }

  function Mix(h: nat, octets: seq<bv8>): nat
    decreases octets
  {
    if octets == [] then h else Mix(MixOctet(h, octets[0]), octets[1..])
  }

  function ShardIndex(ip: IpAddr): (i: nat)
    ensures i < SHARDS
  {
    Mix(SEED, Octets(ip)) / 0x1_0000_0000_0000 % SHARDS
  }

  method ShardOfCanonical(ip: IpAddr) returns (i: nat)
    ensures i == ShardIndex(ip)
  {
    var h: nat := SEED;
    var octets := Octets(ip);
    var k := 0;
    while k < |octets|
      invariant 0 <= k <= |octets|
      invariant Mix(h, octets[k..]) == Mix(SEED, octets)
    {
      assert octets[k..][0] == octets[k] && octets[k..][1..] == octets[k + 1..];
      h := MixOctet(h, octets[k]);
      k := k + 1;
    }
    i := h / 0x1_0000_0000_0000 % SHARDS;
  }

  // ---------------------------------------------------------------- one shard

  datatype Limits = Limits(rate: nat, window: nat)

  datatype Window = Window(start: nat, count: nat)

  datatype Shard = Shard(windows: map<IpAddr, Window>, sweepAfter: Option<nat>)

  /** Elapsed time, zero for a clock reading before `start`. */
  function Since(now: nat, start: nat): nat {
    if now < start then 0 else now - start
  }

  predicate Expired(l: Limits, w: Window, now: nat) {
    Since(now, w.start) >= l.window
  }

  function Live(l: Limits, windows: map<IpAddr, Window>, now: nat): map<IpAddr, Window> {
    map ip | ip in windows && !Expired(l, windows[ip], now) :: windows[ip]
  }

  ghost predicate IsEarliest(windows: map<IpAddr, Window>, e: Option<nat>) {
    match e
    case None => windows == map[]
    case Some(start) =>
      && (exists ip | ip in windows :: windows[ip].start == start)
      && (forall ip | ip in windows :: start <= windows[ip].start)
  }

  lemma {:induction false} EarliestExists(windows: map<IpAddr, Window>) returns (e: Option<nat>)
    ensures IsEarliest(windows, e)
    decreases |windows|
  {
    if windows == map[] {
      e := None;
    } else {
      var ip :| ip in windows;
      var rest := windows - {ip};
      assert rest.Keys == windows.Keys - {ip};
      var r := EarliestExists(rest);
      e := Some(if r.None? || windows[ip].start < r.value then windows[ip].start else r.value);
      forall other | other in windows ensures e.value <= windows[other].start {
        if other != ip {
          assert other in rest && rest[other] == windows[other];
        }
      }
      if r.Some? && r.value <= windows[ip].start {
        var other :| other in rest && rest[other].start == r.value;
        assert windows[other].start == e.value;
      }
    }
  }

  ghost function Earliest(windows: map<IpAddr, Window>): (e: Option<nat>)
    ensures IsEarliest(windows, e)
  {
    EarliestHolds(windows);
    var e :| IsEarliest(windows, e);
    e
  }

  lemma {:induction false} EarliestHolds(windows: map<IpAddr, Window>)
    ensures exists e :: IsEarliest(windows, e)
  {
    var e := EarliestExists(windows);
  }

  datatype Outcome = Unlimited | Untracked | Opened | Counted | Refused

  predicate Allows(o: Outcome) { !o.Refused? }

  ghost function Sweep(l: Limits, s: Shard, now: nat): Shard {
    var live := Live(l, s.windows, now);
    var e := Earliest(live);
    Shard(live, if e.Some? then Some(e.value + l.window) else None)
  }

  predicate DueForSweep(s: Shard, now: nat) {
    |s.windows| >= MAX_IPS_PER_SHARD && (s.sweepAfter.None? || now >= s.sweepAfter.value)
  }

  /** Count one request against a shard that has been swept if it was due. */
  function Charge(l: Limits, s: Shard, ip: IpAddr, now: nat): (Shard, Outcome) {
    if ip !in s.windows then
      if |s.windows| >= MAX_IPS_PER_SHARD then (s, Untracked)
      else (s.(windows := s.windows[ip := Window(now, 1)]), Opened)
    else
      var w := s.windows[ip];
      if Expired(l, w, now) then (s.(windows := s.windows[ip := Window(now, 1)]), Opened)
      else if w.count >= l.rate then (s, Refused)
      else (s.(windows := s.windows[ip := w.(count := w.count + 1)]), Counted)
  }

  ghost function AdmitTo(l: Limits, s: Shard, ip: IpAddr, now: nat): (Shard, Outcome) {
    Charge(l, if DueForSweep(s, now) then Sweep(l, s, now) else s, ip, now)
  }

  predicate UnderRate(l: Limits, s: Shard, ip: IpAddr, now: nat) {
    ip in s.windows ==> Expired(l, s.windows[ip], now) || s.windows[ip].count < l.rate
  }

  /** The precheck answers what an admission at that instant would decide, in every
      state of the shard. */
  lemma {:induction false} PrecheckAgrees(l: Limits, s: Shard, ip: IpAddr, now: nat)
    ensures UnderRate(l, s, ip, now) <==> Allows(AdmitTo(l, s, ip, now).1)
  {
  }

  // ---------------------------------------------------------------- the whole throttle

  datatype Throttle = Throttle(shards: seq<Shard>, allowed: nat, rejected: nat)

  datatype Request = Request(ip: IpAddr, now: nat, countsRefusal: bool)

  const EMPTY: Shard := Shard(map[], None)

  ghost predicate WellFormed(t: Throttle) { |t.shards| == SHARDS }

  ghost function Initial(): (t: Throttle)
    ensures WellFormed(t)
  {
    Throttle(seq(SHARDS, _ => EMPTY), 0, 0)
  }

  function Bump(n: nat, up: bool): nat {
    if up then (n + 1) % U64_MODULUS else n
  }

  /** One request against the throttle; the atomic counters wrap. */
  ghost function Step(l: Limits, t: Throttle, q: Request): (r: (Throttle, Outcome))
    requires WellFormed(t)
    ensures WellFormed(r.0)
  {
    if l.rate == 0 then (t, Unlimited)
    else
      var ip := Canonical(q.ip);
      var k := ShardIndex(ip);
      var (shard, o) := AdmitTo(l, t.shards[k], ip, q.now);
      (Throttle(t.shards[k := shard], Bump(t.allowed, Allows(o)), Bump(t.rejected, o.Refused? && q.countsRefusal)), o)
  }

  /** The throttle after the first `n` requests of a run. */
  ghost function Run(l: Limits, qs: seq<Request>, n: nat): (t: Throttle)
    requires n <= |qs|
    ensures WellFormed(t)
  {
    if n == 0 then Initial() else Step(l, Run(l, qs, n - 1), qs[n - 1]).0
  }

  ghost function OutcomeAt(l: Limits, qs: seq<Request>, i: nat): Outcome
    requires i < |qs|
  {
    Step(l, Run(l, qs, i), qs[i]).1
  }

  /** `outs` are the outcomes of the run over `qs`, one each. */
  ghost predicate Outcomes(l: Limits, qs: seq<Request>, outs: seq<Outcome>) {
    && |outs| == |qs|
    && forall i {:trigger OutcomeAt(l, qs, i)} | 0 <= i < |qs| :: outs[i] == OutcomeAt(l, qs, i)
  }

  ghost predicate Monotone(qs: seq<Request>) {
    forall i, j | 0 <= i <= j < |qs| :: qs[i].now <= qs[j].now
  }

  predicate From(q: Request, a: IpAddr) { Canonical(q.ip) == a }

  // ---------------------------------------------------------------- the reference counter

  /** An unbounded fixed-window counter for one address alone. */
  function ReferenceStep(l: Limits, w: Option<Window>, now: nat): (Window, bool) {
    if w.None? || Expired(l, w.value, now) then (Window(now, 1), true)
    else if w.value.count >= l.rate then (w.value, false)
    else (w.value.(count := w.value.count + 1), true)
  }

  ghost function Reference(l: Limits, qs: seq<Request>, a: IpAddr, n: nat): Option<Window>
    requires n <= |qs|
  {
    if n == 0 then None
    else if From(qs[n - 1], a) then Some(ReferenceStep(l, Reference(l, qs, a, n - 1), qs[n - 1].now).0)
    else Reference(l, qs, a, n - 1)
  }

  ghost predicate ReferenceAllows(l: Limits, qs: seq<Request>, a: IpAddr, i: nat)
    requires i < |qs|
  {
    ReferenceStep(l, Reference(l, qs, a, i), qs[i].now).1
  }

  /** Among the first `n` requests, `a` was never admitted without being tracked. */
  ghost predicate AlwaysTracked(qs: seq<Request>, outs: seq<Outcome>, a: IpAddr, n: nat)
    requires n <= |qs| == |outs|
  {
    forall i | 0 <= i < n && From(qs[i], a) :: !outs[i].Untracked?
  }

  /** The shard tracks what the reference knows of `a`, or forgot only an expired window. */
  ghost predicate Tracks(l: Limits, s: Shard, a: IpAddr, w: Option<Window>, now: nat) {
    if a in s.windows then w == Some(s.windows[a])
    else w.Some? ==> forall t | t >= now :: Expired(l, w.value, t)
  }

  lemma {:induction false} TracksAfterSweep(l: Limits, s: Shard, a: IpAddr, w: Option<Window>, past: nat, now: nat)
    requires Tracks(l, s, a, w, past) && past <= now && (a in s.windows ==> s.windows[a].start <= past)
    ensures Tracks(l, if DueForSweep(s, now) then Sweep(l, s, now) else s, a, w, now)
  {
  }

  lemma {:induction false} ChargeOther(l: Limits, s: Shard, a: IpAddr, ip: IpAddr, w: Option<Window>, now: nat)
    requires Tracks(l, s, a, w, now) && ip != a
    ensures Tracks(l, Charge(l, s, ip, now).0, a, w, now)
  {
  }

  lemma {:induction false} ChargeOwn(l: Limits, s: Shard, a: IpAddr, w: Option<Window>, now: nat)
    requires Tracks(l, s, a, w, now) && !Charge(l, s, a, now).1.Untracked?
    ensures Tracks(l, Charge(l, s, a, now).0, a, Some(ReferenceStep(l, w, now).0), now)
    ensures Allows(Charge(l, s, a, now).1) <==> ReferenceStep(l, w, now).1
  {
  }

  ghost function ShardOf(t: Throttle, a: IpAddr): Shard
    requires WellFormed(t)
  {
    t.shards[ShardIndex(a)]
  }

  /** The instant of the last of the first `n` requests. */
  ghost function LastTime(qs: seq<Request>, n: nat): nat
    requires n <= |qs|
  {
    if n == 0 then 0 else qs[n - 1].now
  }

  /** What one request does to the shard that holds `a`. */
  lemma {:induction false} StepShard(l: Limits, t: Throttle, q: Request, a: IpAddr)
    requires WellFormed(t) && l.rate > 0
    ensures var ip := Canonical(q.ip);
            var (after, o) := Step(l, t, q);
            && (ShardIndex(ip) == ShardIndex(a) ==>
                  (ShardOf(after, a), o) == AdmitTo(l, ShardOf(t, a), ip, q.now))
            && (ShardIndex(ip) != ShardIndex(a) ==> ShardOf(after, a) == ShardOf(t, a))
  {
  }

  lemma {:induction false} TracksStep(l: Limits, t: Throttle, q: Request, a: IpAddr, w: Option<Window>, past: nat)
    requires WellFormed(t) && l.rate > 0 && past <= q.now
    requires Tracks(l, ShardOf(t, a), a, w, past)
    requires a in ShardOf(t, a).windows ==> ShardOf(t, a).windows[a].start <= past
    requires From(q, a) ==> !Step(l, t, q).1.Untracked?
    ensures var after := if From(q, a) then Some(ReferenceStep(l, w, q.now).0) else w;
            Tracks(l, ShardOf(Step(l, t, q).0, a), a, after, q.now)
    ensures From(q, a) ==> (Allows(Step(l, t, q).1) <==> ReferenceStep(l, w, q.now).1)
  {
    StepShard(l, t, q, a);
    var ip, s := Canonical(q.ip), ShardOf(t, a);
    if ShardIndex(ip) == ShardIndex(a) {
      TracksAfterSweep(l, s, a, w, past, q.now);
      var swept := if DueForSweep(s, q.now) then Sweep(l, s, q.now) else s;
      if ip == a {
        ChargeOwn(l, swept, a, w, q.now);
      } else {
        ChargeOther(l, swept, a, ip, w, q.now);
      }
    }
  }

  lemma {:induction false} ReferenceStartsInThePast(l: Limits, qs: seq<Request>, a: IpAddr, n: nat)
    requires Monotone(qs) && n <= |qs|
    ensures Reference(l, qs, a, n).Some? ==> Reference(l, qs, a, n).value.start <= LastTime(qs, n)
  {
    if n > 0 {
      ReferenceStartsInThePast(l, qs, a, n - 1);
      assert LastTime(qs, n - 1) <= qs[n - 1].now;
    }
  }

  ghost predicate DecidesLikeReference(l: Limits, qs: seq<Request>, outs: seq<Outcome>, a: IpAddr, n: nat)
    requires n <= |qs| == |outs|
  {
    forall i | 0 <= i < n && From(qs[i], a) :: Allows(outs[i]) <==> ReferenceAllows(l, qs, a, i)
  }

  /** On every run with nondecreasing times, an address that is never admitted
      untracked is treated exactly as by an unbounded counter of its own requests,
      whatever other addresses do to its shard. */
  lemma {:induction false} DecisionsMatchReference(l: Limits, qs: seq<Request>, outs: seq<Outcome>, a: IpAddr, n: nat)
    requires l.rate > 0 && Monotone(qs) && Outcomes(l, qs, outs) && n <= |qs| && AlwaysTracked(qs, outs, a, n)
    ensures Tracks(l, ShardOf(Run(l, qs, n), a), a, Reference(l, qs, a, n), LastTime(qs, n))
    ensures DecidesLikeReference(l, qs, outs, a, n)
  {
    if n > 0 {
      DecisionsMatchReference(l, qs, outs, a, n - 1);
      var t, q, w := Run(l, qs, n - 1), qs[n - 1], Reference(l, qs, a, n - 1);
      ReferenceStartsInThePast(l, qs, a, n - 1);
      assert LastTime(qs, n - 1) <= q.now;
      assert outs[n - 1] == OutcomeAt(l, qs, n - 1);
      TracksStep(l, t, q, a, w, LastTime(qs, n - 1));
    }
  }

  // ---------------------------------------------------------------- rate bound

  predicate Within(q: Request, lo: nat, l: Limits) { lo <= q.now < lo + l.window }

  /** Admissions of `a` among the first `n` requests in [lo, lo + window). */
  ghost function Admissions(l: Limits, qs: seq<Request>, outs: seq<Outcome>, a: IpAddr, lo: nat, n: nat): nat
    requires n <= |qs| == |outs|
  {
    if n == 0 then 0
    else Admissions(l, qs, outs, a, lo, n - 1)
         + if From(qs[n - 1], a) && Within(qs[n - 1], lo, l) && Allows(outs[n - 1]) then 1 else 0
  }

  /** What the current window says about the admissions so far inside the interval. */
  ghost predicate Bounded(l: Limits, w: Option<Window>, admitted: nat, lo: nat, last: nat) {
    && (last < lo || w.None? ==> admitted == 0)
    && (w.Some? ==>
          var Window(start, count) := w.value;
          && 1 <= count <= l.rate && start <= last
          && (start < lo ==> admitted <= count - 1)
          && (lo <= start < lo + l.window ==> admitted <= count + l.rate - 1)
          && (lo + l.window <= start ==> admitted <= 2 * l.rate - 1))
  }

  lemma {:induction false} BoundedStep(l: Limits, w: Option<Window>, admitted: nat, lo: nat, last: nat, now: nat)
    requires l.rate > 0 && Bounded(l, w, admitted, lo, last) && last <= now
    ensures var (after, allows) := ReferenceStep(l, w, now);
            Bounded(l, Some(after), admitted + (if allows && lo <= now < lo + l.window then 1 else 0), lo, now)
  {
  }

  lemma {:induction false} AdmissionsAreBounded(l: Limits, qs: seq<Request>, outs: seq<Outcome>, a: IpAddr, lo: nat,
                                                n: nat)
    requires l.rate > 0 && Monotone(qs) && n <= |qs| == |outs| && DecidesLikeReference(l, qs, outs, a, n)
    ensures Bounded(l, Reference(l, qs, a, n), Admissions(l, qs, outs, a, lo, n), lo, LastTime(qs, n))
  {
    if n > 0 {
      AdmissionsAreBounded(l, qs, outs, a, lo, n - 1);
      assert LastTime(qs, n - 1) <= qs[n - 1].now;
      if From(qs[n - 1], a) {
        var w, admitted := Reference(l, qs, a, n - 1), Admissions(l, qs, outs, a, lo, n - 1);
        BoundedStep(l, w, admitted, lo, LastTime(qs, n - 1), qs[n - 1].now);
      }
    }
  }

  /** Any interval one window long, wherever it starts, holds at most 2 * rate - 1
      admissions of such an address. */
  lemma {:induction false} RateBound(l: Limits, qs: seq<Request>, outs: seq<Outcome>, a: IpAddr, lo: nat)
    requires l.rate > 0 && Monotone(qs) && Outcomes(l, qs, outs) && AlwaysTracked(qs, outs, a, |qs|)
    ensures Admissions(l, qs, outs, a, lo, |qs|) <= 2 * l.rate - 1
  {
    DecisionsMatchReference(l, qs, outs, a, |qs|);
    AdmissionsAreBounded(l, qs, outs, a, lo, |qs|);
  }

  // ---------------------------------------------------------------- the sweep gate

  /** A shard that sweeps on every request while it is full. */
  ghost function AdmitEagerly(l: Limits, s: Shard, ip: IpAddr, now: nat): (Shard, Outcome) {
    Charge(l, if |s.windows| >= MAX_IPS_PER_SHARD then Sweep(l, s, now) else s, ip, now)
  }

  /** No window starts after `last`, and none can expire before the next sweep. */
  ghost predicate GateSound(l: Limits, s: Shard, last: nat) {
    && |s.windows| <= MAX_IPS_PER_SHARD
    && (forall ip | ip in s.windows :: s.windows[ip].start <= last)
    && (s.sweepAfter.Some? ==>
          && s.sweepAfter.value <= last + l.window
          && forall ip | ip in s.windows :: s.sweepAfter.value <= s.windows[ip].start + l.window)
  }

  lemma {:induction false} LiveIsSmaller(l: Limits, windows: map<IpAddr, Window>, now: nat)
    ensures |Live(l, windows, now)| <= |windows|
    ensures |Live(l, windows, now)| == |windows| ==> Live(l, windows, now) == windows
  {
    var live := Live(l, windows, now);
    assert live.Keys <= windows.Keys;
    Subset(live.Keys, windows.Keys);
  }

  lemma {:induction false} Subset<T>(a: set<T>, b: set<T>)
    requires a <= b
    ensures |a| <= |b| && (|a| == |b| ==> a == b)
  {
    assert b == a + (b - a);
  }

  /** Between sweeps nothing has expired, so sweeping anyway would change nothing. */
  lemma {:induction false} ClosedGateHidesNothing(l: Limits, s: Shard, last: nat, now: nat)
    requires GateSound(l, s, last) && last <= now
    requires s.sweepAfter.Some? && now < s.sweepAfter.value
    ensures Live(l, s.windows, now) == s.windows
  {
  }

  lemma {:induction false} SweepKeepsGate(l: Limits, s: Shard, last: nat, now: nat)
    requires GateSound(l, s, last) && last <= now
    ensures GateSound(l, Sweep(l, s, now), now)
  {
    LiveIsSmaller(l, s.windows, now);
  }

  lemma {:induction false} ChargeKeepsGate(l: Limits, s: Shard, ip: IpAddr, last: nat, now: nat)
    requires GateSound(l, s, last) && last <= now
    ensures GateSound(l, Charge(l, s, ip, now).0, now)
  {
    var after := Charge(l, s, ip, now).0;
    if ip in s.windows {
      assert after.windows.Keys == s.windows.Keys;
    } else if ip in after.windows {
      assert after.windows.Keys == s.windows.Keys + {ip};
    }
  }

  /** Gated and eager shards with the same windows decide alike and stay alike. */
  lemma {:induction false} GateIsInvisible(l: Limits, s: Shard, e: Shard, ip: IpAddr, last: nat, now: nat)
    requires GateSound(l, s, last) && last <= now && e.windows == s.windows
    ensures AdmitTo(l, s, ip, now).1 == AdmitEagerly(l, e, ip, now).1
    ensures AdmitTo(l, s, ip, now).0.windows == AdmitEagerly(l, e, ip, now).0.windows
    ensures GateSound(l, AdmitTo(l, s, ip, now).0, now)
  {
    if DueForSweep(s, now) {
      SweepKeepsGate(l, s, last, now);
      ChargeKeepsGate(l, Sweep(l, s, now), ip, now, now);
    } else {
      ChargeKeepsGate(l, s, ip, last, now);
      if |s.windows| >= MAX_IPS_PER_SHARD {
        ClosedGateHidesNothing(l, s, last, now);
      }
    }
  }

  /** A request is let through untracked exactly when its address is unknown and the
      shard holds its full quota of windows that are live at that instant. */
  lemma {:induction false} UntrackedExactlyWhenFull(l: Limits, s: Shard, ip: IpAddr, last: nat, now: nat)
    requires GateSound(l, s, last) && last <= now
    ensures AdmitTo(l, s, ip, now).1.Untracked? <==>
              ip !in s.windows && |Live(l, s.windows, now)| == MAX_IPS_PER_SHARD
  {
    LiveIsSmaller(l, s.windows, now);
    if |s.windows| >= MAX_IPS_PER_SHARD && !DueForSweep(s, now) {
      ClosedGateHidesNothing(l, s, last, now);
    }
  }

  ghost function EagerStep(l: Limits, t: Throttle, q: Request): (r: (Throttle, Outcome))
    requires WellFormed(t)
    ensures WellFormed(r.0)
  {
    if l.rate == 0 then (t, Unlimited)
    else
      var ip := Canonical(q.ip);
      var k := ShardIndex(ip);
      var (shard, o) := AdmitEagerly(l, t.shards[k], ip, q.now);
      (Throttle(t.shards[k := shard], Bump(t.allowed, Allows(o)), Bump(t.rejected, o.Refused? && q.countsRefusal)), o)
  }

  ghost function EagerRun(l: Limits, qs: seq<Request>, n: nat): (t: Throttle)
    requires n <= |qs|
    ensures WellFormed(t)
  {
    if n == 0 then Initial() else EagerStep(l, EagerRun(l, qs, n - 1), qs[n - 1]).0
  }

  /** Same windows in every shard and same counters. */
  ghost predicate SameView(t: Throttle, e: Throttle) {
    && WellFormed(t) && WellFormed(e)
    && t.allowed == e.allowed && t.rejected == e.rejected
    && forall k | 0 <= k < SHARDS :: t.shards[k].windows == e.shards[k].windows
  }

  ghost predicate AllGatesSound(l: Limits, t: Throttle, last: nat) {
    forall k | 0 <= k < |t.shards| :: GateSound(l, t.shards[k], last)
  }

  ghost predicate WithinQuota(t: Throttle) {
    forall s | s in t.shards :: |s.windows| <= MAX_IPS_PER_SHARD
  }

  lemma {:induction false} EagerStepAgrees(l: Limits, t: Throttle, e: Throttle, q: Request, last: nat)
    requires SameView(t, e) && AllGatesSound(l, t, last) && last <= q.now
    ensures SameView(Step(l, t, q).0, EagerStep(l, e, q).0)
    ensures AllGatesSound(l, Step(l, t, q).0, q.now)
    ensures Step(l, t, q).1 == EagerStep(l, e, q).1
  {
    var ip := Canonical(q.ip);
    var k := ShardIndex(ip);
    GateIsInvisible(l, t.shards[k], e.shards[k], ip, last, q.now);
  }

  lemma {:induction false} EagerRunAgrees(l: Limits, qs: seq<Request>, n: nat)
    requires Monotone(qs) && n <= |qs|
    ensures SameView(Run(l, qs, n), EagerRun(l, qs, n))
    ensures AllGatesSound(l, Run(l, qs, n), LastTime(qs, n))
  {
    if n > 0 {
      EagerRunAgrees(l, qs, n - 1);
      assert LastTime(qs, n - 1) <= qs[n - 1].now;
      EagerStepAgrees(l, Run(l, qs, n - 1), EagerRun(l, qs, n - 1), qs[n - 1], LastTime(qs, n - 1));
    }
  }

  /** On every run with nondecreasing times the gate is invisible: windows, counters
      and decisions are those of shards that sweep on every request while full, and
      no shard ever exceeds its quota. */
  lemma {:induction false} GatedRunIsEagerRun(l: Limits, qs: seq<Request>, i: nat)
    requires Monotone(qs) && i < |qs|
    ensures SameView(Run(l, qs, i + 1), EagerRun(l, qs, i + 1))
    ensures OutcomeAt(l, qs, i) == EagerStep(l, EagerRun(l, qs, i), qs[i]).1
    ensures WithinQuota(Run(l, qs, i + 1))
  {
    EagerRunAgrees(l, qs, i + 1);
    EagerRunAgrees(l, qs, i);
    assert LastTime(qs, i) <= qs[i].now;
    EagerStepAgrees(l, Run(l, qs, i), EagerRun(l, qs, i), qs[i], LastTime(qs, i));
  }

  // ---------------------------------------------------------------- counters

  ghost function Admitted(outs: seq<Outcome>, n: nat): nat
    requires n <= |outs|
  {
    if n == 0 then 0 else Admitted(outs, n - 1) + if Allows(outs[n - 1]) then 1 else 0
  }

  ghost function Rejected(qs: seq<Request>, outs: seq<Outcome>, n: nat): nat
    requires n <= |qs| == |outs|
  {
    if n == 0 then 0
    else Rejected(qs, outs, n - 1) + if outs[n - 1].Refused? && qs[n - 1].countsRefusal then 1 else 0
  }

  lemma {:induction false} BumpCounts(n: nat, up: bool)
    ensures Bump(n % U64_MODULUS, up) == (n + if up then 1 else 0) % U64_MODULUS
  {
  }

  lemma {:induction false} StepCounts(l: Limits, t: Throttle, q: Request, admitted: nat, rejected: nat)
    requires WellFormed(t) && l.rate > 0
    requires t.allowed == admitted % U64_MODULUS && t.rejected == rejected % U64_MODULUS
    ensures var (after, o) := Step(l, t, q);
            && after.allowed == (admitted + if Allows(o) then 1 else 0) % U64_MODULUS
            && after.rejected == (rejected + if o.Refused? && q.countsRefusal then 1 else 0) % U64_MODULUS
  {
    var o := Step(l, t, q).1;
    BumpCounts(admitted, Allows(o));
    BumpCounts(rejected, o.Refused? && q.countsRefusal);
  }

  /** The counters are the admissions and the counted refusals of the run, modulo the
      counter width. */
  lemma {:induction false} CountersCount(l: Limits, qs: seq<Request>, outs: seq<Outcome>, n: nat)
    requires l.rate > 0 && Outcomes(l, qs, outs) && n <= |qs|
    ensures Run(l, qs, n).allowed == Admitted(outs, n) % U64_MODULUS
    ensures Run(l, qs, n).rejected == Rejected(qs, outs, n) % U64_MODULUS
  {
    if n > 0 {
      CountersCount(l, qs, outs, n - 1);
      assert outs[n - 1] == OutcomeAt(l, qs, n - 1);
      StepCounts(l, Run(l, qs, n - 1), qs[n - 1], Admitted(outs, n - 1), Rejected(qs, outs, n - 1));
    }
  }

  // ---------------------------------------------------------------- the bound is attained

  function TightTime(l: Limits, i: nat): nat
    requires l.window > 0
  {
    if i == 0 then 0 else if i < l.rate then l.window - 1 else l.window
  }

  /** One early request, the rest of its window's quota just before it ends, and a
      whole quota as the next window starts. */
  function TightRun(l: Limits, a: IpAddr): seq<Request>
    requires l.window > 0
  {
    seq(2 * l.rate, i requires i >= 0 => Request(a, TightTime(l, i), true))
  }

  lemma {:induction false} InitialIsEmpty(a: IpAddr)
    ensures ShardOf(Initial(), a).windows == map[]
  {
  }

  lemma {:induction false} LoneAddressIsTracked(l: Limits, t: Throttle, q: Request, a: IpAddr)
    requires WellFormed(t) && l.rate > 0 && From(q, a) && ShardOf(t, a).windows.Keys <= {a}
    ensures ShardOf(Step(l, t, q).0, a).windows.Keys <= {a} && !Step(l, t, q).1.Untracked?
  {
    StepShard(l, t, q, a);
    Subset(ShardOf(t, a).windows.Keys, {a});
  }

  ghost predicate OnlyFrom(qs: seq<Request>, a: IpAddr) {
    forall i | 0 <= i < |qs| :: From(qs[i], a)
  }

  lemma {:induction false} OnlyOwnWindow(l: Limits, qs: seq<Request>, a: IpAddr, n: nat)
    requires l.rate > 0 && n <= |qs| && OnlyFrom(qs, a)
    ensures ShardOf(Run(l, qs, n), a).windows.Keys <= {a}
  {
    if n > 0 {
      OnlyOwnWindow(l, qs, a, n - 1);
      assert From(qs[n - 1], a);
      LoneAddressIsTracked(l, Run(l, qs, n - 1), qs[n - 1], a);
    } else {
      InitialIsEmpty(a);
    }
  }

  lemma {:induction false} AloneIsTracked(l: Limits, qs: seq<Request>, outs: seq<Outcome>, a: IpAddr)
    requires l.rate > 0 && Outcomes(l, qs, outs) && OnlyFrom(qs, a)
    ensures AlwaysTracked(qs, outs, a, |qs|)
  {
    forall i | 0 <= i < |qs| ensures !outs[i].Untracked? {
      OnlyOwnWindow(l, qs, a, i);
      assert From(qs[i], a);
      LoneAddressIsTracked(l, Run(l, qs, i), qs[i], a);
      assert outs[i] == OutcomeAt(l, qs, i);
    }
  }

  lemma {:induction false} TightReference(l: Limits, a: IpAddr, n: nat)
    requires l.rate > 0 && l.window > 1 && Canonical(a) == a && n <= 2 * l.rate
    ensures var w := Reference(l, TightRun(l, a), a, n);
            && (n == 0 ==> w.None?)
            && (0 < n <= l.rate ==> w == Some(Window(0, n)))
            && (l.rate < n ==> w == Some(Window(l.window, n - l.rate)))
    ensures n > 0 ==> ReferenceAllows(l, TightRun(l, a), a, n - 1)
  {
    if n > 0 {
      TightReference(l, a, n - 1);
    }
  }

  ghost predicate AllAdmitted(qs: seq<Request>, outs: seq<Outcome>, a: IpAddr)
    requires |qs| == |outs|
  {
    forall i | 0 <= i < |qs| :: From(qs[i], a) && Allows(outs[i])
  }

  ghost predicate AllAllowed(l: Limits, qs: seq<Request>, a: IpAddr) {
    forall i | 0 <= i < |qs| :: From(qs[i], a) && ReferenceAllows(l, qs, a, i)
  }

  lemma {:induction false} TightIsAllowed(l: Limits, a: IpAddr)
    requires l.rate > 0 && l.window > 1 && Canonical(a) == a
    ensures AllAllowed(l, TightRun(l, a), a)
  {
    var qs := TightRun(l, a);
    forall i | 0 <= i < |qs| ensures From(qs[i], a) && ReferenceAllows(l, qs, a, i) {
      TightReference(l, a, i + 1);
    }
  }

  lemma {:induction false} AllowedIsAdmitted(l: Limits, qs: seq<Request>, outs: seq<Outcome>, a: IpAddr)
    requires |qs| == |outs| && DecidesLikeReference(l, qs, outs, a, |qs|) && AllAllowed(l, qs, a)
    ensures AllAdmitted(qs, outs, a)
  {
  }

  /** All but the first request fall into the interval. */
  lemma {:induction false} TightCount(l: Limits, qs: seq<Request>, outs: seq<Outcome>, a: IpAddr, n: nat)
    requires n <= |qs| == |outs| && AllAdmitted(qs, outs, a) && l.window > 0
    requires forall i | 0 <= i < |qs| :: Within(qs[i], l.window - 1, l) <==> i > 0
    ensures Admissions(l, qs, outs, a, l.window - 1, n) == if n == 0 then 0 else n - 1
  {
    if n > 0 {
      TightCount(l, qs, outs, a, n - 1);
      assert From(qs[n - 1], a) && Allows(outs[n - 1]);
    }
  }

  /** For every rate, every window longer than one tick and every address the bound
      is attained, so 2 * rate - 1 is exact. */
  lemma {:induction false} RateBoundIsTight(l: Limits, a: IpAddr, outs: seq<Outcome>)
    requires l.rate > 0 && l.window > 1 && Canonical(a) == a && Outcomes(l, TightRun(l, a), outs)
    ensures var qs := TightRun(l, a);
            && Monotone(qs) && AlwaysTracked(qs, outs, a, |qs|)
            && Admissions(l, qs, outs, a, l.window - 1, |qs|) == 2 * l.rate - 1
  {
    var qs := TightRun(l, a);
    AloneIsTracked(l, qs, outs, a);
    DecisionsMatchReference(l, qs, outs, a, |qs|);
    TightIsAllowed(l, a);
    AllowedIsAdmitted(l, qs, outs, a);
    TightCount(l, qs, outs, a, |qs|);
  }

  // ---------------------------------------------------------------- the object

  lemma {:induction false} EarliestIsUnique(windows: map<IpAddr, Window>, e: Option<nat>)
    requires IsEarliest(windows, e)
    ensures e == Earliest(windows)
  {
    var other := Earliest(windows);
    if e.Some? && other.Some? {
      var p :| p in windows && windows[p].start == e.value;
      var q :| q in windows && windows[q].start == other.value;
      assert other.value <= windows[p].start && e.value <= windows[q].start;
    }
  }

  /** One pass over a full shard: drop expired windows, note the earliest kept. */
  method Retain(l: Limits, windows: map<IpAddr, Window>, now: nat)
      returns (live: map<IpAddr, Window>, earliest: Option<nat>)
    ensures live == Live(l, windows, now)
    ensures earliest == Earliest(live)
  {
    live, earliest := map[], None;
    var rest := windows.Keys;
    while rest != {}
      invariant rest <= windows.Keys
      invariant live == map ip | ip in windows && ip !in rest && !Expired(l, windows[ip], now) :: windows[ip]
      invariant IsEarliest(live, earliest)
    {
      var ip :| ip in rest;
      var w := windows[ip];
      rest := rest - {ip};
      if !Expired(l, w, now) {
        ghost var before := live;
        live := live[ip := w];
        if earliest.None? || w.start < earliest.value {
          earliest := Some(w.start);
          assert live[ip].start == w.start;
        } else {
          ghost var p :| p in before && before[p].start == earliest.value;
          assert live[p].start == earliest.value;
        }
      }
    }
    EarliestIsUnique(live, earliest);
  }

  class ClientThrottle {
    const limits: Limits
    var shards: seq<Shard>
    var allowed: nat
    var rejected: nat

    ghost predicate Valid()
      reads this
    {
      |shards| == SHARDS
    }

    ghost function State(): (t: Throttle)
      requires Valid()
      reads this
      ensures WellFormed(t)
    {
      Throttle(shards, allowed, rejected)
    }

    constructor (limits: Limits)
      ensures Valid() && this.limits == limits && State() == Initial()
    {
      this.limits := limits;
      shards := seq(SHARDS, _ => EMPTY);
      allowed, rejected := 0, 0;
    }

    method Allow(ip: IpAddr, now: nat) returns (ok: bool)
      requires Valid()
      modifies this
      ensures Valid()
      ensures var (t, o) := Step(limits, old(State()), Request(ip, now, true)); State() == t && ok == Allows(o)
    {
      ok := Admit(ip, now, true);
    }

    method AllowDeferringRejection(ip: IpAddr, now: nat) returns (ok: bool)
      requires Valid()
      modifies this
      ensures Valid()
      ensures var (t, o) := Step(limits, old(State()), Request(ip, now, false)); State() == t && ok == Allows(o)
    {
      ok := Admit(ip, now, false);
    }

    /** Counts nothing, and answers what an admission now would. */
    method WouldAllow(ip: IpAddr, now: nat) returns (ok: bool)
      requires Valid()
      ensures ok == Allows(Step(limits, State(), Request(ip, now, true)).1)
    {
      if limits.rate == 0 { return true; }
      var canonical := Canonical(ip);
      var k := ShardOfCanonical(canonical);
      var shard := shards[k];
      PrecheckAgrees(limits, shard, canonical, now);
      ok := canonical !in shard.windows
            || Expired(limits, shard.windows[canonical], now)
            || shard.windows[canonical].count < limits.rate;
    }

    /** Look the address up in the (swept) shard and count the request there. */
    method CountIn(shard: Shard, ip: IpAddr, now: nat) returns (after: Shard, ok: bool)
      ensures after == Charge(limits, shard, ip, now).0 && ok == Allows(Charge(limits, shard, ip, now).1)
    {
      after, ok := shard, true;
      if ip !in shard.windows {
        if |shard.windows| < MAX_IPS_PER_SHARD {
          after := shard.(windows := shard.windows[ip := Window(now, 1)]);
        }
        return;
      }
      var w := shard.windows[ip];
      if Expired(limits, w, now) {
        after := shard.(windows := shard.windows[ip := Window(now, 1)]);
      } else if w.count >= limits.rate {
        ok := false;
      } else {
        after := shard.(windows := shard.windows[ip := w.(count := w.count + 1)]);
      }
    }

    method Admit(ip: IpAddr, now: nat, countRejection: bool) returns (ok: bool)
      requires Valid()
      modifies this
      ensures Valid()
      ensures var (t, o) := Step(limits, old(State()), Request(ip, now, countRejection));
              State() == t && ok == Allows(o)
    {
      if limits.rate == 0 { return true; }
      var canonical := Canonical(ip);
      var k := ShardOfCanonical(canonical);
      var shard := shards[k];
      if |shard.windows| >= MAX_IPS_PER_SHARD && (shard.sweepAfter.None? || now >= shard.sweepAfter.value) {
        var live, earliest := Retain(limits, shard.windows, now);
        shard := Shard(live, if earliest.Some? then Some(earliest.value + limits.window) else None);
      }
      shard, ok := CountIn(shard, canonical, now);
      shards := shards[k := shard];
      allowed := Bump(allowed, ok);
      rejected := Bump(rejected, !ok && countRejection);
    }
  }
}
