/** The HTTP-01 challenge registry: a bounded map with lazy expiry and leases that
    remove only their own entry, against a reference that keeps the whole history
    and never removes anything. */
module ChallengeRegistry {
  import opened Wrappers
  import opened DnsNames

  const PREFIX := "/.well-known/acme-challenge/"
  const CAPACITY: nat := 128
  const MAX_TTL: nat := 15 * 60 * 1_000_000_000
  const U64_MAX: nat := 0xFFFF_FFFF_FFFF_FFFF

  datatype ChallengeError = Identifier | Token | Thumbprint | Expiry | Conflict | Capacity

  datatype Key = Key(domain: Domain, token: string)

  datatype Entry = Entry(id: nat, expires: nat, body: string)

  datatype Lease = Lease(key: Key, id: nat)

  datatype Inner = Inner(entries: map<Key, Entry>, sequence: nat)

  /** `horizon` is the last instant the clock can represent. */
  datatype Setup = Setup(domains: set<Domain>, horizon: nat)

  // ---------------------------------------------------------------- requests

  predicate IsBase64Url(value: string) {
    forall c | c in value :: IsAlphanumeric(c) || c == '-' || c == '_'
  }

  predicate IsToken(value: string) {
    22 <= |value| <= 256 && IsBase64Url(value)
  }

  /** 43 characters whose last carries two zero padding bits. */
  predicate IsThumbprint(value: string) {
    |value| == 43 && IsBase64Url(value) && value[42] in "AEIMQUYcgkosw048"
  }

  datatype Registration = Registration(domain: Domain, token: string, thumbprint: string, ttl: nat, now: nat)

  function Body(r: Registration): string { r.token + "." + r.thumbprint }

  /** The checks that precede any look at the table. */
  function Screen(s: Setup, r: Registration): Option<ChallengeError> {
    if r.domain !in s.domains then Some(Identifier)
    else if !IsToken(r.token) then Some(Token)
    else if !IsThumbprint(r.thumbprint) then Some(Thumbprint)
    else if r.ttl == 0 || r.ttl > MAX_TTL then Some(Expiry)
    else if r.now + r.ttl > s.horizon then Some(Expiry)
    else None
  }

  datatype Host = Host(name: string, port: Option<nat>)

  /** `host` is the authority as the URI parser sees it, if it parses at all. */
  datatype Request = Request(
    isGet: bool, authority: string, host: Option<Host>, path: string,
    hasQuery: bool, hasAuthority: bool, hasScheme: bool, physicalTls: bool)

  datatype Status = Ok200 | NotFound404 | MethodNotAllowed405

  datatype Response = Response(status: Status, body: string)

  datatype Route = NotOurs | Reply(status: Status) | Ask(key: Key)

  /** Everything `lookup` decides before it consults the table. */
  function Classify(s: Setup, q: Request): Route {
    if q.physicalTls || |q.authority| > 260 || '@' in q.authority || q.host.None? then NotOurs
    else if ':' in q.authority && q.host.value.port.None? then NotOurs
    else
      var domain := Parse(q.host.value.name);
      if domain.Err? || domain.value !in s.domains then NotOurs
      else if |q.path| < |PREFIX| || q.path[..|PREFIX|] != PREFIX then NotOurs
      else
        var token := q.path[|PREFIX|..];
        if !IsToken(token) || q.hasQuery || q.hasAuthority || q.hasScheme then Reply(NotFound404)
        else if !q.isGet then Reply(MethodNotAllowed405)
        else Ask(Key(domain.value, token))
  }

  // ---------------------------------------------------------------- the table

  function Retained(entries: map<Key, Entry>, now: nat): map<Key, Entry> {
    map k | k in entries && entries[k].expires > now :: entries[k]
  }

  datatype Granted = Granted(key: Key, body: string, expires: nat)

  /** Enter a screened registration into a table that has just been swept. */
  function Enter(kept: Inner, g: Granted): (Inner, Result<Lease, ChallengeError>) {
    if g.key in kept.entries then (kept, Err(Conflict))
    else if |kept.entries| >= CAPACITY then (kept, Err(Capacity))
    else if kept.sequence + 1 > U64_MAX then (kept, Err(Capacity))
    else
      var id := kept.sequence + 1;
      (Inner(kept.entries[g.key := Entry(id, g.expires, g.body)], id), Ok(Lease(g.key, id)))
  }

  function Requested(r: Registration): Granted {
    Granted(Key(r.domain, r.token), Body(r), r.now + r.ttl)
  }

  function Register(s: Setup, t: Inner, r: Registration): (Inner, Result<Lease, ChallengeError>) {
    var screened := Screen(s, r);
    if screened.Some? then (t, Err(screened.value))
    else Enter(t.(entries := Retained(t.entries, r.now)), Requested(r))
  }

  function Lookup(s: Setup, t: Inner, q: Request, now: nat): (Inner, Option<Response>) {
    match Classify(s, q)
    case NotOurs => (t, None)
    case Reply(status) => (t, Some(Response(status, "")))
    case Ask(key) =>
      if key !in t.entries then (t, Some(Response(NotFound404, "")))
      else if t.entries[key].expires <= now then
        (t.(entries := t.entries - {key}), Some(Response(NotFound404, "")))
      else (t, Some(Response(Ok200, t.entries[key].body)))
  }

  function Drop(t: Inner, lease: Lease): Inner {
    if lease.key in t.entries && t.entries[lease.key].id == lease.id
    then t.(entries := t.entries - {lease.key})
    else t
  }

  // ---------------------------------------------------------------- the reference

  /** Every registration ever granted, in order, and the ids of dropped leases. The
      lease of `granted[i]` has id i + 1. */
  datatype History = History(granted: seq<Granted>, dropped: set<nat>)

  /** The latest registration of `key`. */
  ghost function Latest(granted: seq<Granted>, key: Key): (i: Option<nat>)
    ensures i.Some? ==> i.value < |granted| && granted[i.value].key == key
                        && forall j | i.value < j < |granted| :: granted[j].key != key
    ensures i.None? ==> forall j | 0 <= j < |granted| :: granted[j].key != key
  {
    if granted == [] then None
    else if granted[|granted| - 1].key == key then Some(|granted| - 1)
    else Latest(granted[..|granted| - 1], key)
  }

  /** Registration `i` is its key's latest, unexpired, and its lease is not dropped. */
  ghost predicate IsLive(h: History, i: nat, now: nat) {
    && i < |h.granted|
    && Latest(h.granted, h.granted[i].key) == Some(i)
    && h.granted[i].expires > now
    && i + 1 !in h.dropped
  }

  ghost predicate KeyIsLive(h: History, key: Key, now: nat) {
    Latest(h.granted, key).Some? && IsLive(h, Latest(h.granted, key).value, now)
  }

  ghost function LiveKeys(h: History, now: nat): set<Key> {
    set i | 0 <= i < |h.granted| && IsLive(h, i, now) :: h.granted[i].key
  }

  ghost function Grant(h: History, g: Granted, now: nat): (History, Result<Lease, ChallengeError>) {
    if KeyIsLive(h, g.key, now) then (h, Err(Conflict))
    else if |LiveKeys(h, now)| >= CAPACITY || |h.granted| == U64_MAX then (h, Err(Capacity))
    else (h.(granted := h.granted + [g]), Ok(Lease(g.key, |h.granted| + 1)))
  }

  ghost function ReferenceRegister(s: Setup, h: History, r: Registration): (History, Result<Lease, ChallengeError>) {
    var screened := Screen(s, r);
    if screened.Some? then (h, Err(screened.value)) else Grant(h, Requested(r), r.now)
  }

  ghost function ReferenceLookup(s: Setup, h: History, q: Request, now: nat): Option<Response> {
    match Classify(s, q)
    case NotOurs => None
    case Reply(status) => Some(Response(status, ""))
    case Ask(key) =>
      if KeyIsLive(h, key, now)
      then Some(Response(Ok200, h.granted[Latest(h.granted, key).value].body))
      else Some(Response(NotFound404, ""))
  }

  // ---------------------------------------------------------------- refinement

  /** The entry of `key` is its latest registration, with the lease not dropped. */
  ghost predicate EntryMatches(h: History, key: Key, e: Entry) {
    var i := Latest(h.granted, key);
    && i.Some?
    && e == Entry(i.value + 1, h.granted[i.value].expires, h.granted[i.value].body)
    && i.value + 1 !in h.dropped
  }

  /** The table is the history, up to registrations that expired by `last`. */
  ghost predicate Refines(t: Inner, h: History, last: nat) {
    && t.sequence == |h.granted| <= U64_MAX
    && (forall id | id in h.dropped :: id <= |h.granted|)
    && (forall key | key in t.entries :: EntryMatches(h, key, t.entries[key]))
    && (forall i | 0 <= i < |h.granted| && IsLive(h, i, last) :: h.granted[i].key in t.entries)
  }

  lemma {:induction false} StaysLive(h: History, i: nat, past: nat, now: nat)
    requires IsLive(h, i, now) && past <= now
    ensures IsLive(h, i, past)
  {
  }

  lemma {:induction false} RetainedRefines(t: Inner, h: History, past: nat, now: nat)
    requires Refines(t, h, past) && past <= now
    ensures Refines(t.(entries := Retained(t.entries, now)), h, now)
    ensures Retained(t.entries, now).Keys == LiveKeys(h, now)
    ensures forall key :: key in Retained(t.entries, now) <==> KeyIsLive(h, key, now)
  {
    var kept := Retained(t.entries, now);
    forall i | 0 <= i < |h.granted| && IsLive(h, i, now) ensures h.granted[i].key in kept {
      StaysLive(h, i, past, now);
      assert EntryMatches(h, h.granted[i].key, t.entries[h.granted[i].key]);
    }
    forall key | key in kept ensures KeyIsLive(h, key, now) && key in LiveKeys(h, now) {
      assert EntryMatches(h, key, t.entries[key]);
    }
  }

  lemma {:induction false} LatestAfterGrant(granted: seq<Granted>, g: Granted, key: Key)
    ensures Latest(granted + [g], key) == if key == g.key then Some(|granted|) else Latest(granted, key)
  {
    assert (granted + [g])[..|granted|] == granted;
  }

  lemma {:induction false} GrantRefines(t: Inner, h: History, now: nat, g: Granted)
    requires Refines(t, h, now) && g.key !in t.entries && |h.granted| < U64_MAX
    ensures var id := |h.granted| + 1;
            Refines(Inner(t.entries[g.key := Entry(id, g.expires, g.body)], id), h.(granted := h.granted + [g]), now)
  {
    var after := h.(granted := h.granted + [g]);
    var id := |h.granted| + 1;
    var table := Inner(t.entries[g.key := Entry(id, g.expires, g.body)], id);
    LatestAfterGrant(h.granted, g, g.key);
    forall key | key in table.entries ensures EntryMatches(after, key, table.entries[key]) {
      LatestAfterGrant(h.granted, g, key);
      if key != g.key { assert EntryMatches(h, key, t.entries[key]); }
    }
    forall i | 0 <= i < |after.granted| && IsLive(after, i, now) ensures after.granted[i].key in table.entries {
      var key := after.granted[i].key;
      LatestAfterGrant(h.granted, g, key);
      if key != g.key { assert IsLive(h, i, now); }
    }
  }

  /** A table swept at `now` decides as the reference does. */
  lemma {:induction false} EnterRefines(kept: Inner, h: History, g: Granted, now: nat)
    requires Refines(kept, h, now) && kept.entries.Keys == LiveKeys(h, now)
    requires g.key in kept.entries <==> KeyIsLive(h, g.key, now)
    ensures Enter(kept, g).1 == Grant(h, g, now).1
    ensures Refines(Enter(kept, g).0, Grant(h, g, now).0, now)
  {
    assert |kept.entries| == |kept.entries.Keys|;
    if Enter(kept, g).1.Ok? {
      GrantRefines(kept, h, now, g);
    }
  }

  /** Registering: Conflict and Capacity depend on live registrations only. */
  lemma {:induction false} RegisterRefines(s: Setup, t: Inner, h: History, r: Registration, past: nat)
    requires Refines(t, h, past) && past <= r.now
    ensures var (table, answer) := Register(s, t, r);
            var (after, expected) := ReferenceRegister(s, h, r);
            answer == expected && Refines(table, after, r.now)
  {
    if Screen(s, r).Some? {
      LaterRefines(t, h, past, r.now);
    } else {
      RetainedRefines(t, h, past, r.now);
      EnterRefines(t.(entries := Retained(t.entries, r.now)), h, Requested(r), r.now);
    }
  }

  lemma {:induction false} LaterRefines(t: Inner, h: History, past: nat, now: nat)
    requires Refines(t, h, past) && past <= now
    ensures Refines(t, h, now)
  {
    forall i | 0 <= i < |h.granted| && IsLive(h, i, now) ensures h.granted[i].key in t.entries {
      StaysLive(h, i, past, now);
    }
  }

  /** A token lookup answers 200 with body b exactly when the latest registration of
      that key has body b, is unexpired and its lease is not dropped. */
  lemma {:induction false} LookupRefines(s: Setup, t: Inner, h: History, q: Request, now: nat, past: nat)
    requires Refines(t, h, past) && past <= now
    ensures Lookup(s, t, q, now).1 == ReferenceLookup(s, h, q, now)
    ensures Refines(Lookup(s, t, q, now).0, h, now)
  {
    LaterRefines(t, h, past, now);
    if Classify(s, q).Ask? {
      var key := Classify(s, q).key;
      assert KeyIsLive(h, key, now) ==> h.granted[Latest(h.granted, key).value].key in t.entries;
      if key in t.entries {
        assert EntryMatches(h, key, t.entries[key]);
      }
    }
  }

  /** The lease was granted at some point of the history. */
  ghost predicate Issued(h: History, lease: Lease) {
    0 < lease.id <= |h.granted| && h.granted[lease.id - 1].key == lease.key
  }

  /** Dropping a lease ends its own registration. */
  lemma {:induction false} DropRefines(t: Inner, h: History, lease: Lease, last: nat)
    requires Refines(t, h, last) && Issued(h, lease)
    ensures Refines(Drop(t, lease), h.(dropped := h.dropped + {lease.id}), last)
  {
    var after := h.(dropped := h.dropped + {lease.id});
    var table := Drop(t, lease);
    forall key | key in table.entries ensures EntryMatches(after, key, table.entries[key]) {
      assert EntryMatches(h, key, t.entries[key]);
    }
    forall i | 0 <= i < |after.granted| && IsLive(after, i, last) ensures after.granted[i].key in table.entries {
      assert IsLive(h, i, last);
      assert EntryMatches(h, h.granted[i].key, t.entries[h.granted[i].key]);
    }
  }

  /** A lease that a later registration of the same key has replaced, or that has
      already been dropped, changes nothing. */
  lemma {:induction false} StaleDropChangesNothing(t: Inner, h: History, lease: Lease, last: nat)
    requires Refines(t, h, last) && Issued(h, lease)
    ensures Latest(h.granted, lease.key) != Some(lease.id - 1) || lease.id in h.dropped ==> Drop(t, lease) == t
  {
    if lease.key in t.entries {
      assert EntryMatches(h, lease.key, t.entries[lease.key]);
    }
  }

  // ---------------------------------------------------------------- every run

  datatype Op = DoRegister(r: Registration) | DoLookup(q: Request, now: nat) | DoDrop(lease: Lease)

  datatype Answer = Registered(lease: Result<Lease, ChallengeError>) | Looked(response: Option<Response>) | Dropped

  function Step(s: Setup, t: Inner, op: Op): (Inner, Answer) {
    match op
    case DoRegister(r) => var (table, lease) := Register(s, t, r); (table, Registered(lease))
    case DoLookup(q, now) => var (table, response) := Lookup(s, t, q, now); (table, Looked(response))
    case DoDrop(lease) => (Drop(t, lease), Dropped)
  }

  ghost function ReferenceStep(s: Setup, h: History, op: Op): (History, Answer) {
    match op
    case DoRegister(r) => var (after, lease) := ReferenceRegister(s, h, r); (after, Registered(lease))
    case DoLookup(q, now) => (h, Looked(ReferenceLookup(s, h, q, now)))
    case DoDrop(lease) => (h.(dropped := h.dropped + {lease.id}), Dropped)
  }

  ghost function Run(s: Setup, ops: seq<Op>, n: nat): Inner
    requires n <= |ops|
  {
    if n == 0 then Inner(map[], 0) else Step(s, Run(s, ops, n - 1), ops[n - 1]).0
  }

  ghost function ReferenceRun(s: Setup, ops: seq<Op>, n: nat): History
    requires n <= |ops|
  {
    if n == 0 then History([], {}) else ReferenceStep(s, ReferenceRun(s, ops, n - 1), ops[n - 1]).0
  }

  ghost function Clock(ops: seq<Op>, n: nat): nat
    requires n <= |ops|
  {
    if n == 0 then 0
    else match ops[n - 1]
      case DoRegister(r) => r.now
      case DoLookup(_, now) => now
      case DoDrop(_) => Clock(ops, n - 1)
  }

  /** Time never runs backwards, and only leases that were granted are dropped. */
  ghost predicate Sensible(s: Setup, ops: seq<Op>) {
    && (forall i | 0 <= i < |ops| :: Clock(ops, i) <= Clock(ops, i + 1))
    && (forall i | 0 <= i < |ops| && ops[i].DoDrop? :: Issued(ReferenceRun(s, ops, i), ops[i].lease))
  }

  lemma {:induction false} StepRefines(s: Setup, t: Inner, h: History, op: Op, past: nat, now: nat)
    requires Refines(t, h, past) && past <= now
    requires op.DoRegister? ==> op.r.now == now
    requires op.DoLookup? ==> op.now == now
    requires op.DoDrop? ==> Issued(h, op.lease) && now == past
    ensures Step(s, t, op).1 == ReferenceStep(s, h, op).1
    ensures Refines(Step(s, t, op).0, ReferenceStep(s, h, op).0, now)
  {
    match op
    case DoRegister(r) => RegisterRefines(s, t, h, r, past);
    case DoLookup(q, _) => LookupRefines(s, t, h, q, now, past);
    case DoDrop(lease) => DropRefines(t, h, lease, now);
  }

  lemma {:induction false} RunRefines(s: Setup, ops: seq<Op>, n: nat)
    requires Sensible(s, ops) && n <= |ops|
    ensures Refines(Run(s, ops, n), ReferenceRun(s, ops, n), Clock(ops, n))
  {
    if n > 0 {
      RunRefines(s, ops, n - 1);
      assert Clock(ops, n - 1) <= Clock(ops, n - 1 + 1);
      StepRefines(s, Run(s, ops, n - 1), ReferenceRun(s, ops, n - 1), ops[n - 1], Clock(ops, n - 1), Clock(ops, n));
    }
  }

  /** On every sensible run the registry answers every call as the reference does. */
  lemma {:induction false} AnswersMatchReference(s: Setup, ops: seq<Op>, i: nat)
    requires Sensible(s, ops) && i < |ops|
    ensures Step(s, Run(s, ops, i), ops[i]).1 == ReferenceStep(s, ReferenceRun(s, ops, i), ops[i]).1
  {
    RunRefines(s, ops, i);
    assert Clock(ops, i) <= Clock(ops, i + 1);
    StepRefines(s, Run(s, ops, i), ReferenceRun(s, ops, i), ops[i], Clock(ops, i), Clock(ops, i + 1));
  }

  // ---------------------------------------------------------------- the object

  /** The shared registry; each method is one locked section. */
  class Registry {
    const setup: Setup
    var entries: map<Key, Entry>
    var sequence: nat

    ghost function State(): Inner
      reads this
    {
      Inner(entries, sequence)
    }

    constructor (setup: Setup)
      ensures this.setup == setup && State() == Inner(map[], 0)
    {
      this.setup := setup;
      entries := map[];
      sequence := 0;
    }

    method RegisterAt(r: Registration) returns (answer: Result<Lease, ChallengeError>)
      modifies this
      ensures (State(), answer) == Register(setup, old(State()), r)
    {
      var screened := Screen(setup, r);
      if screened.Some? { return Err(screened.value); }
      var key := Key(r.domain, r.token);
      RetainLive(r.now);
      if key in entries { return Err(Conflict); }
      if |entries| >= CAPACITY { return Err(Capacity); }
      if sequence + 1 > U64_MAX { return Err(Capacity); }
      sequence := sequence + 1;
      entries := entries[key := Entry(sequence, r.now + r.ttl, Body(r))];
      answer := Ok(Lease(key, sequence));
    }

    method RetainLive(now: nat)
      modifies this`entries
      ensures entries == Retained(old(entries), now)
    {
      var keys := entries.Keys;
      while keys != {}
        invariant keys <= old(entries).Keys
        invariant entries == map k | k in old(entries) && (k in keys || old(entries)[k].expires > now) ::
                    old(entries)[k]
      {
        var k :| k in keys;
        keys := keys - {k};
        if entries[k].expires <= now {
          entries := entries - {k};
        }
      }
    }

    method LookupAt(q: Request, now: nat) returns (answer: Option<Response>)
      modifies this`entries
      ensures (State(), answer) == Lookup(setup, old(State()), q, now)
    {
      match Classify(setup, q) {
        case NotOurs => answer := None;
        case Reply(status) => answer := Some(Response(status, ""));
        case Ask(key) =>
          if key in entries && entries[key].expires <= now {
            entries := entries - {key};
          }
          if key in entries {
            answer := Some(Response(Ok200, entries[key].body));
          } else {
            answer := Some(Response(NotFound404, ""));
          }
      }
    }

    method DropLease(lease: Lease)
      modifies this`entries
      ensures State() == Drop(old(State()), lease)
    {
      if lease.key in entries && entries[lease.key].id == lease.id {
        entries := entries - {lease.key};
      }
    }
  }
}
