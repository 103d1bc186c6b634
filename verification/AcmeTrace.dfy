/** What the certificate authority, the DNS provider and the operator see of every
    run of the order manager, and what a lawful history of such events guarantees. */
module AcmeTrace {
  import opened Wrappers
  import opened DnsNames
  import opened AcmeState

  /** `durable` records the snapshots a power loss could leave at that instant. */
  datatype Event =
    | Contact(now: U64)
    | NewOrder(privateKey: Pem, csr: Bytes, created: Option<Url>, durable: set<Option<Snapshot>>)
    | Replied(url: Url)
    | Reconciled(url: Url)
    | ObservedInvalid(url: Url)
    | Intent(record: DnsRecord, url: Url)
    | Present(record: DnsRecord, landed: bool, durable: set<Option<Snapshot>>)
    | Cleanup(record: DnsRecord, removed: bool)
    | Finalize(url: Url, csr: Bytes, names: seq<Domain>)
    | Returned(url: Url, pair: IssuedCertificate)
    | Installed(pair: IssuedCertificate)

  /** The order sent last and not yet settled. `url` is what the authority assigned,
      if it created the order at all; `known` once the manager could learn it. */
  datatype OpenOrder = OpenOrder(privateKey: Pem, csr: Bytes, url: Option<Url>, known: bool)

  datatype Made = Made(privateKey: Pem, csr: Bytes)

  /** `contacts` counts attempts that reached the authority since the last install;
      `ours` are the TXT values presented and not removed, `taken` those ever removed;
      `current` is the pair
      returned since the last contact. */
  datatype Summary = Summary(
    open: Option<OpenOrder>,
    made: map<Url, Made>,
    contacts: nat,
    lastContact: U64,
    intents: set<DnsRecord>,
    ours: set<DnsRecord>,
    taken: set<DnsRecord>,
    current: Option<IssuedCertificate>)

  const START := Summary(None, map[], 0, 0, {}, {}, {}, None)

  function Apply(sum: Summary, e: Event): Summary {
    match e
    case Contact(now) => sum.(contacts := sum.contacts + 1, lastContact := now, current := None)
    case NewOrder(key, csr, created, _) =>
      sum.(open := Some(OpenOrder(key, csr, created, false)),
           made := if created.Some? then sum.made[created.value := Made(key, csr)] else sum.made)
    case Replied(url) => Learn(sum, url)
    case Reconciled(url) => Learn(sum, url)
    case ObservedInvalid(url) => if IsOpen(sum, url) then sum.(open := None) else sum
    case Intent(r, _) => sum.(intents := sum.intents + {r})
    case Present(r, landed, _) => if landed then sum.(ours := sum.ours + {r}) else sum
    case Cleanup(r, removed) => if removed then sum.(ours := sum.ours - {r}, taken := sum.taken + {r}) else sum
    case Finalize(_, _, _) => sum
    case Returned(_, pair) => sum.(current := Some(pair))
    case Installed(_) => sum.(open := None, contacts := 0, current := None)
  }

  predicate IsOpen(sum: Summary, url: Url) {
    sum.open.Some? && sum.open.value.url == Some(url)
  }

  function Learn(sum: Summary, url: Url): Summary {
    if IsOpen(sum, url) then sum.(open := Some(sum.open.value.(known := true))) else sum
  }

  /** The open order, if any, is the one at `url` and the manager may know it. */
  predicate OnlyOpen(sum: Summary, url: Url) {
    url in sum.made && (sum.open.Some? ==> IsOpen(sum, url) && sum.open.value.known)
  }

  /** The authority has been contacted since the last install and has returned no pair
      since. */
  predicate Underway(sum: Summary) {
    sum.contacts > 0 && sum.current.None?
  }

  predicate SameAttempt(a: Summary, b: Summary) {
    a.contacts == b.contacts && a.current == b.current
  }

  ghost predicate Distinct<T(!new)>(s: seq<T>) {
    forall i, j | 0 <= i < j < |s| :: s[i] != s[j]
  }

  /** When `e` may follow a history summarized by `sum`. */
  ghost predicate Legal(cfg: Config, sum: Summary, e: Event) {
    match e
    case Contact(now) =>
      sum.contacts > 0 ==> now >= Saturate64(sum.lastContact + Backoff(sum.contacts - 1))
    case NewOrder(key, csr, created, durable) =>
      && Underway(sum) && sum.open.None?
      && (created.Some? ==> created.value !in sum.made)
      && durable != {}
      && (forall d | d in durable :: d.Some? && d.value.order == Some(PendingOrder(None, key, csr)))
    case Replied(url) => IsOpen(sum, url)
    case Reconciled(url) => url in sum.made && (sum.open.Some? ==> IsOpen(sum, url))
    case ObservedInvalid(url) => OnlyOpen(sum, url)
    case Intent(r, url) => AcceptableRecord(cfg, r) && sum.contacts > 0 && OnlyOpen(sum, url)
    case Present(r, _, durable) =>
      && r in sum.intents
      && durable != {}
      && (forall d | d in durable :: d.Some? && r in d.value.dnsCleanup)
    case Cleanup(r, _) => r in sum.intents
    case Finalize(url, csr, names) =>
      && OnlyOpen(sum, url) && csr == sum.made[url].csr
      && Distinct(names) && cfg.domains == set d | d in names
    case Returned(url, pair) =>
      && OnlyOpen(sum, url) && pair.privateKey == sum.made[url].privateKey
      && sum.current.None?
    case Installed(pair) => sum.open.Some? ==> sum.current == Some(pair)
  }

  ghost function Fold(trace: seq<Event>): Summary {
    if trace == [] then START
    else Apply(Fold(trace[..|trace| - 1]), trace[|trace| - 1])
  }

  ghost predicate Lawful(cfg: Config, trace: seq<Event>) {
    forall i | 0 <= i < |trace| :: Legal(cfg, Fold(trace[..i]), trace[i])
  }

  lemma {:induction false} Extend(cfg: Config, trace: seq<Event>, e: Event)
    requires Lawful(cfg, trace) && Legal(cfg, Fold(trace), e)
    ensures Lawful(cfg, trace + [e]) && Fold(trace + [e]) == Apply(Fold(trace), e)
  {
    var longer := trace + [e];
    assert longer[..|trace|] == trace;
    forall i | 0 <= i < |longer| ensures Legal(cfg, Fold(longer[..i]), longer[i]) {
      if i < |trace| {
        assert longer[..i] == trace[..i];
      }
    }
  }

  /** Histories only grow. */
  lemma {:induction false} GrowsOn(a: seq<Event>, b: seq<Event>, c: seq<Event>)
    requires a <= b && b <= c
    ensures a <= c
  {
  }

  lemma {:induction false} LegalAt(cfg: Config, trace: seq<Event>, i: nat)
    requires Lawful(cfg, trace) && i < |trace|
    ensures Legal(cfg, Fold(trace[..i]), trace[i])
  {
  }

  lemma {:induction false} FoldAt(trace: seq<Event>, i: nat)
    requires i < |trace|
    ensures Fold(trace[..i + 1]) == Apply(Fold(trace[..i]), trace[i])
  {
    assert trace[..i + 1][..i] == trace[..i];
  }

  // ---------------------------------------------------------------- one order at a time

  /** `pair` was returned for the order sent at `i`, before event `k`, with that order's
      own private key. */
  ghost predicate Collected(trace: seq<Event>, i: nat, k: nat, pair: IssuedCertificate)
    requires i < |trace| && k <= |trace| && trace[i].NewOrder?
  {
    && pair.privateKey == trace[i].privateKey
    && exists m | i < m < k :: trace[m].Returned? && trace[i].created == Some(trace[m].url) && trace[m].pair == pair
  }

  /** Event `k` settles the order sent at `i`: its own certificate is installed, or the
      authority reports it invalid. */
  ghost predicate Settles(trace: seq<Event>, i: nat, k: nat)
    requires i < |trace| && k < |trace| && trace[i].NewOrder?
  {
    || (trace[k].Installed? && Collected(trace, i, k, trace[k].pair))
    || (trace[k].ObservedInvalid? && trace[i].created == Some(trace[k].url))
  }

  ghost predicate Learns(trace: seq<Event>, i: nat, k: nat)
    requires i < |trace| && k < |trace| && trace[i].NewOrder?
  {
    || (trace[k].Replied? && trace[i].created == Some(trace[k].url))
    || (trace[k].Reconciled? && trace[i].created == Some(trace[k].url))
  }

  /** Before an open order is settled, its URL stays, it becomes known only by being
      learned, and a pair can only be returned once it is known. */
  lemma {:induction false} OpenStep(cfg: Config, sum: Summary, e: Event)
    requires Legal(cfg, sum, e) && sum.open.Some? && (sum.current.Some? ==> sum.open.value.known)
    requires !e.Installed? && !(e.ObservedInvalid? && sum.open.value.url == Some(e.url))
    ensures var after := Apply(sum, e);
            && after.open.Some? && after.open.value.url == sum.open.value.url
            && (after.open.value.known ==> || sum.open.value.known
                                           || ((e.Replied? || e.Reconciled?) && sum.open.value.url == Some(e.url)))
            && (after.current.Some? ==> after.open.value.known)
  {
  }

  /** A pair returned while the order sent at `i` is the open one is that order's. */
  lemma {:induction false} CollectStep(cfg: Config, trace: seq<Event>, i: nat, k: nat)
    requires Lawful(cfg, trace) && i < k < |trace| && trace[i].NewOrder?
    requires var sum := Fold(trace[..k]);
             && sum.open.Some? && sum.open.value.url == trace[i].created
             && (sum.current.Some? ==> Collected(trace, i, k, sum.current.value))
    ensures var after := Apply(Fold(trace[..k]), trace[k]);
            after.current.Some? ==> Collected(trace, i, k + 1, after.current.value)
  {
    LegalAt(cfg, trace, k);
    if trace[k].Returned? {
      FoldAt(trace, i);
      MadeOnce(cfg, trace, i + 1, k, trace[k].url);
    }
  }

  /** Until something settles it, the order sent at `i` stays the open one, it stays
      unknown until its reply or the operator supplies the URL, and the current pair,
      if any, is its own. */
  lemma {:induction false} StaysOpen(cfg: Config, trace: seq<Event>, i: nat, j: nat)
    requires Lawful(cfg, trace) && i < j <= |trace| && trace[i].NewOrder?
    requires forall k | i < k < j :: !Settles(trace, i, k)
    ensures var sum := Fold(trace[..j]);
            && sum.open.Some?
            && sum.open.value.url == trace[i].created
            && (sum.open.value.known ==> exists k | i < k < j :: Learns(trace, i, k))
            && (sum.current.Some? ==> sum.open.value.known && Collected(trace, i, j, sum.current.value))
    decreases j
  {
    var last, before := trace[j - 1], Fold(trace[..j - 1]);
    FoldAt(trace, j - 1);
    LegalAt(cfg, trace, j - 1);
    if j - 1 > i {
      StaysOpen(cfg, trace, i, j - 1);
      assert !Settles(trace, i, j - 1);
      OpenStep(cfg, before, last);
      CollectStep(cfg, trace, i, j - 1);
      if !before.open.value.known && Apply(before, last).open.value.known {
        assert Learns(trace, i, j - 1);
      }
    }
  }

  /** A newOrder request is sent only when every earlier order has been observed
      invalid or its own certificate, returned for it with its key, installed. */
  lemma {:induction false} EarlierOrdersAreSettled(cfg: Config, trace: seq<Event>, i: nat, j: nat)
    requires Lawful(cfg, trace) && i < j < |trace| && trace[i].NewOrder? && trace[j].NewOrder?
    ensures exists k | i < k < j :: Settles(trace, i, k)
  {
    if forall k | i < k < j :: !Settles(trace, i, k) {
      LegalAt(cfg, trace, j);
      StaysOpen(cfg, trace, i, j);
    }
  }

  ghost predicate FirstSettles(trace: seq<Event>, i: nat, k: nat)
    requires i < k < |trace| && trace[i].NewOrder?
  {
    Settles(trace, i, k) && forall m | i < m < k :: !Settles(trace, i, m)
  }

  lemma {:induction false} EarliestSettler(trace: seq<Event>, i: nat, k: nat) returns (first: nat)
    requires i < k < |trace| && trace[i].NewOrder? && Settles(trace, i, k)
    ensures i < first <= k && FirstSettles(trace, i, first)
    decreases k
  {
    if m :| i < m < k && Settles(trace, i, m) {
      first := EarliestSettler(trace, i, m);
    } else {
      first := k;
    }
  }

  /** An order whose creation reply never arrived is not repeated: a later newOrder
      is preceded by that order's own reply or by the operator's reconciliation.
      In particular, if the authority never created it, nothing follows. */
  lemma {:induction false} LostReplyIsNeverRepeated(cfg: Config, trace: seq<Event>, i: nat, j: nat)
    requires Lawful(cfg, trace) && i < j < |trace| && trace[i].NewOrder? && trace[j].NewOrder?
    ensures trace[i].created.Some?
    ensures exists k | i < k < j :: Learns(trace, i, k)
  {
    EarlierOrdersAreSettled(cfg, trace, i, j);
    var k :| i < k < j && Settles(trace, i, k);
    var first := EarliestSettler(trace, i, k);
    StaysOpen(cfg, trace, i, first);
    LegalAt(cfg, trace, first);
  }

  // ---------------------------------------------------------------- one key per order

  lemma {:induction false} MadeOnce(cfg: Config, trace: seq<Event>, i: nat, j: nat, url: Url)
    requires Lawful(cfg, trace) && i <= j <= |trace| && url in Fold(trace[..i]).made
    ensures url in Fold(trace[..j]).made && Fold(trace[..j]).made[url] == Fold(trace[..i]).made[url]
    decreases j
  {
    if i < j {
      MadeOnce(cfg, trace, i, j - 1, url);
      FoldAt(trace, j - 1);
      LegalAt(cfg, trace, j - 1);
    }
  }

  lemma {:induction false} MadeStep(sum: Summary, e: Event, url: Url)
    requires url in Apply(sum, e).made && !(e.NewOrder? && e.created == Some(url))
    ensures url in sum.made && Apply(sum, e).made[url] == sum.made[url]
  {
  }

  lemma {:induction false} MadeBySomeOrder(trace: seq<Event>, j: nat, url: Url) returns (i: nat)
    requires j <= |trace| && url in Fold(trace[..j]).made
    ensures i < j && trace[i].NewOrder? && trace[i].created == Some(url)
    ensures Fold(trace[..j]).made[url] == Made(trace[i].privateKey, trace[i].csr)
    decreases j
  {
    assert trace[..0] == [];
    var last, before := trace[j - 1], Fold(trace[..j - 1]);
    FoldAt(trace, j - 1);
    if last.NewOrder? && last.created == Some(url) {
      i := j - 1;
    } else {
      MadeStep(before, last, url);
      i := MadeBySomeOrder(trace, j - 1, url);
    }
  }

  /** Every finalize and every returned pair for an order URL carries the CSR and the
      private key of the one newOrder request that created it, and both were in
      every snapshot a power loss could leave when that request was sent. Finalize
      is reached only with the configured identifiers authorized, each once. */
  lemma {:induction false} FinalizeUsesTheDurableKey(cfg: Config, trace: seq<Event>, j: nat) returns (i: nat)
    requires Lawful(cfg, trace) && j < |trace| && (trace[j].Finalize? || trace[j].Returned?)
    ensures i < j && trace[i].NewOrder? && trace[i].created == Some(trace[j].url)
    ensures trace[j].Finalize? ==>
              && trace[j].csr == trace[i].csr
              && Distinct(trace[j].names) && cfg.domains == set d | d in trace[j].names
    ensures trace[j].Returned? ==> trace[j].pair.privateKey == trace[i].privateKey
    ensures trace[i].durable != {}
    ensures forall d | d in trace[i].durable ::
              d.Some? && d.value.order == Some(PendingOrder(None, trace[i].privateKey, trace[i].csr))
  {
    LegalAt(cfg, trace, j);
    i := MadeBySomeOrder(trace, j, trace[j].url);
    LegalAt(cfg, trace, i);
  }

  /** No two finalize requests for one order use different CSRs, and no two returned
      pairs for one order different keys. */
  lemma {:induction false} OneKeyPerOrder(cfg: Config, trace: seq<Event>, i: nat, j: nat)
    requires Lawful(cfg, trace) && i <= j < |trace|
    ensures trace[i].Finalize? && trace[j].Finalize? && trace[i].url == trace[j].url ==>
              trace[i].csr == trace[j].csr
    ensures trace[i].Returned? && trace[j].Returned? && trace[i].url == trace[j].url ==>
              trace[i].pair.privateKey == trace[j].pair.privateKey
  {
    LegalAt(cfg, trace, i);
    LegalAt(cfg, trace, j);
    if (trace[i].Finalize? && trace[j].Finalize?) || (trace[i].Returned? && trace[j].Returned?) {
      if trace[i].url == trace[j].url {
        MadeOnce(cfg, trace, i, j, trace[i].url);
      }
    }
  }

  // ---------------------------------------------------------------- attempt spacing

  /** Attempts among the first `n` events that reached the authority since the last
      install. */
  ghost function ContactsSinceInstall(trace: seq<Event>, n: nat): nat
    requires n <= |trace|
  {
    if n == 0 || trace[n - 1].Installed? then 0
    else ContactsSinceInstall(trace, n - 1) + if trace[n - 1].Contact? then 1 else 0
  }

  lemma {:induction false} ContactsAreCounted(trace: seq<Event>, n: nat)
    requires n <= |trace|
    ensures Fold(trace[..n]).contacts == ContactsSinceInstall(trace, n)
  {
    if n > 0 {
      FoldAt(trace, n - 1);
      ContactsAreCounted(trace, n - 1);
    } else {
      assert trace[..0] == [];
    }
  }

  lemma {:induction false} ContactRemembered(trace: seq<Event>, i: nat, j: nat)
    requires i < j <= |trace| && trace[i].Contact?
    requires forall k | i < k < j :: !trace[k].Contact? && !trace[k].Installed?
    ensures Fold(trace[..j]).contacts == ContactsSinceInstall(trace, i) + 1
    ensures Fold(trace[..j]).lastContact == trace[i].now
    decreases j
  {
    FoldAt(trace, j - 1);
    if j - 1 > i {
      ContactRemembered(trace, i, j - 1);
    } else {
      ContactsAreCounted(trace, i);
    }
  }

  lemma {:induction false} LegalContact(cfg: Config, sum: Summary, e: Event, last: U64, earlier: nat)
    requires Legal(cfg, sum, e) && e.Contact? && sum.contacts == earlier + 1 && sum.lastContact == last
    ensures e.now >= Saturate64(last + Backoff(earlier))
  {
  }

  /** Two successive attempts with no install between them are at least
      300 * 2^min(k, 8) seconds apart on the recorded clock, where k counts the
      attempts before the first of them since the last install. */
  lemma {:induction false} AttemptsAreSpaced(cfg: Config, trace: seq<Event>, i: nat, j: nat, k: nat)
    requires Lawful(cfg, trace) && i < j < |trace| && trace[i].Contact? && trace[j].Contact?
    requires forall m | i < m < j :: !trace[m].Contact? && !trace[m].Installed?
    requires k == ContactsSinceInstall(trace, i)
    ensures trace[j].now >= Saturate64(trace[i].now + Backoff(k))
  {
    LegalAt(cfg, trace, j);
    ContactRemembered(trace, i, j);
    LegalContact(cfg, Fold(trace[..j]), trace[j], trace[i].now, k);
  }

  // ---------------------------------------------------------------- TXT values

  /** The provider's TXT values, starting from those other owners published. */
  ghost function Txt(foreign: set<DnsRecord>, trace: seq<Event>): set<DnsRecord> {
    if trace == [] then foreign
    else
      var before := Txt(foreign, trace[..|trace| - 1]);
      match trace[|trace| - 1]
      case Present(r, landed, _) => if landed then before + {r} else before
      case Cleanup(r, removed) => if removed then before - {r} else before
      case _ => before
  }

  /** Present and cleanup concern only records of intent for configured domains; a
      TXT value that was never such a record stays exactly as its owner left it, and
      whatever else the provider holds is still in `ours`. */
  lemma {:induction false} OnlyIntendedTxtChanges(cfg: Config, foreign: set<DnsRecord>, trace: seq<Event>, r: DnsRecord)
    requires Lawful(cfg, trace)
    ensures r !in Fold(trace).intents ==> (r in Txt(foreign, trace) <==> r in foreign)
    ensures r in Txt(foreign, trace) ==> r in foreign || r in Fold(trace).ours
    ensures r in Fold(trace).ours ==> r in Txt(foreign, trace)
    ensures r in Fold(trace).intents ==> AcceptableRecord(cfg, r)
  {
    if trace != [] {
      var n := |trace| - 1;
      forall i | 0 <= i < n ensures Legal(cfg, Fold(trace[..n][..i]), trace[..n][i]) {
        assert trace[..n][..i] == trace[..i];
      }
      OnlyIntendedTxtChanges(cfg, foreign, trace[..n], r);
      LegalAt(cfg, trace, n);
    }
  }

  ghost predicate NeverPresented(trace: seq<Event>, r: DnsRecord) {
    forall i | 0 <= i < |trace| && trace[i].Present? :: trace[i].record != r
  }

  /** An attempt that made an order and learned its URL. */
  ghost function Ordered(url: Url, o: PendingOrder, journal: Snapshot): seq<Event> {
    [Contact(0)] + [NewOrder(o.privateKey, o.csr, Some(url), {Some(journal)})] + [Replied(url)]
  }

  /** It journaled `r` and stopped before publishing it; the next cleanup follows. */
  ghost function Interrupted(r: DnsRecord, url: Url, o: PendingOrder, journal: Snapshot): seq<Event> {
    Ordered(url, o, journal) + [Intent(r, url)] + [Cleanup(r, true)]
  }

  lemma {:induction false} OrderedIsLawful(cfg: Config, url: Url, o: PendingOrder, journal: Snapshot)
    requires journal.order == Some(o) && o.url.None?
    ensures Lawful(cfg, Ordered(url, o, journal))
    ensures var sum := Fold(Ordered(url, o, journal)); sum.contacts > 0 && OnlyOpen(sum, url)
  {
    var first: seq<Event> := [Contact(0)];
    Extend(cfg, [], Contact(0));
    assert [] + first == first;
    var e := NewOrder(o.privateKey, o.csr, Some(url), {Some(journal)});
    Extend(cfg, first, e);
    Extend(cfg, first + [e], Replied(url));
  }

  lemma {:induction false} InterruptedIsLawful(cfg: Config, r: DnsRecord, url: Url, o: PendingOrder, journal: Snapshot)
    requires AcceptableRecord(cfg, r) && journal.order == Some(o) && o.url.None?
    ensures Lawful(cfg, Interrupted(r, url, o, journal))
  {
    OrderedIsLawful(cfg, url, o, journal);
    var ordered := Ordered(url, o, journal);
    Extend(cfg, ordered, Intent(r, url));
    Extend(cfg, ordered + [Intent(r, url)], Cleanup(r, true));
  }

  lemma {:induction false} InterruptedRemoves(r: DnsRecord, url: Url, o: PendingOrder, journal: Snapshot)
    ensures r !in Txt({r}, Interrupted(r, url, o, journal)) && NeverPresented(Interrupted(r, url, o, journal), r)
  {
  }

  /** A value the manager did not present can be removed by a lawful history that
      stopped between journaling it and publishing it, if somebody else had published
      the same value. It can happen to values of configured domains and to no others. */
  lemma {:induction false} RemovableUnpresented(cfg: Config, r: DnsRecord)
    ensures (exists trace :: Lawful(cfg, trace) && NeverPresented(trace, r) && r !in Txt({r}, trace)) <==>
            AcceptableRecord(cfg, r)
  {
    if trace :| Lawful(cfg, trace) && NeverPresented(trace, r) && r !in Txt({r}, trace) {
      OnlyIntendedTxtChanges(cfg, {r}, trace, r);
    }
    if AcceptableRecord(cfg, r) {
      var o := PendingOrder(None, "", []);
      var journal := Snapshot(1, "", {}, [], None, Some(o), 0, 0, None, None, [r]);
      InterruptedIsLawful(cfg, r, "", o, journal);
      InterruptedRemoves(r, "", o, journal);
    }
  }

  // ---------------------------------------------------------------- what a cleanup removes

  /** The provider holds what others published and the manager never removed, and what
      the manager presented and did not remove. */
  lemma {:induction false} TxtBySummary(foreign: set<DnsRecord>, trace: seq<Event>)
    ensures Txt(foreign, trace) == (foreign - Fold(trace).taken) + Fold(trace).ours
  {
    if trace != [] {
      TxtBySummary(foreign, trace[..|trace| - 1]);
    }
  }

  ghost function Elements(journal: seq<DnsRecord>): set<DnsRecord> {
    set r | r in journal
  }

  /** Only values of `journal` were removed; all of them, if `all`. */
  ghost predicate Swept(a: Summary, b: Summary, journal: set<DnsRecord>, all: bool) {
    && b == a.(ours := b.ours, taken := b.taken)
    && a.ours - journal <= b.ours <= a.ours
    && a.taken <= b.taken <= a.taken + journal
    && (all ==> b.ours == a.ours - journal && b.taken == a.taken + journal)
  }

  lemma {:induction false} SweptAtLeast(a: Summary, b: Summary, journal: set<DnsRecord>, all: bool)
    requires Swept(a, b, journal, true)
    ensures Swept(a, b, journal, all)
  {
  }

  lemma {:induction false} SweptThen(a: Summary, b: Summary, c: Summary, first: set<DnsRecord>, rest: set<DnsRecord>,
                                     all: bool)
    requires Swept(a, b, first, true) && Swept(b, c, rest, all)
    ensures Swept(a, c, first + rest, all)
  {
  }

  /** A cleanup that has done `done` of `all` goes on with the last entry left. */
  lemma {:induction false} SweptOneMore(a: Summary, b: Summary, c: Summary, done: set<DnsRecord>, left: seq<DnsRecord>,
                                        last: DnsRecord, all: set<DnsRecord>, ok: bool)
    requires left != [] && last == left[|left| - 1] && all == done + Elements(left)
    requires Swept(a, b, done, true) && Swept(b, c, {last}, ok)
    ensures Swept(a, c, all, false)
    ensures ok ==> Swept(a, c, done + {last}, true) && all == done + {last} + Elements(left[..|left| - 1])
  {
    SweptThen(a, b, c, done, {last}, ok);
    assert left == left[..|left| - 1] + [last];
    assert Elements(left) == Elements(left[..|left| - 1]) + {last};
  }

  /** Whatever others had published: between the histories `before` and `after` nothing
      outside `journal` was removed and nothing added; if `all`, every value of `journal`
      is gone. */
  ghost predicate Cleaned(before: seq<Event>, after: seq<Event>, journal: set<DnsRecord>, all: bool) {
    forall foreign ::
      && Txt(foreign, before) - journal <= Txt(foreign, after) <= Txt(foreign, before)
      && (all ==> Txt(foreign, after) == Txt(foreign, before) - journal)
  }

  lemma {:induction false} SweptIsCleaned(before: seq<Event>, after: seq<Event>, journal: set<DnsRecord>, all: bool)
    requires Swept(Fold(before), Fold(after), journal, all)
    ensures Cleaned(before, after, journal, all)
  {
    forall foreign
      ensures Txt(foreign, before) - journal <= Txt(foreign, after) <= Txt(foreign, before)
      ensures all ==> Txt(foreign, after) == Txt(foreign, before) - journal
    {
      TxtBySummary(foreign, before);
      TxtBySummary(foreign, after);
    }
  }

  /** A value is lost in a completed cleanup if and only if it is in the journal that
      the cleanup found, whoever published it. */
  lemma {:induction false} LostExactlyIfJournaled(foreign: set<DnsRecord>, before: seq<Event>, after: seq<Event>,
                                                  journal: set<DnsRecord>, r: DnsRecord)
    requires Cleaned(before, after, journal, true) && r in Txt(foreign, before)
    ensures r !in Txt(foreign, after) <==> r in journal
  {
    assert Txt(foreign, after) == Txt(foreign, before) - journal;
  }
}
