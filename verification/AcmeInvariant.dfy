/** What one snapshot must say about the history so far, and how each event of the
    history bears on the snapshots already written. */
module AcmeInvariant {
  import opened Wrappers
  import opened DnsNames
  import opened AcmeState
  import opened AcmeTrace
  import opened SnapshotStore

  /** The snapshot carries the open order with its key and CSR. */
  predicate CarriesOpenOrder(s: Snapshot, sum: Summary) {
    sum.open.Some? ==>
      var o := sum.open.value;
      && s.order.Some?
      && s.order.value.privateKey == o.privateKey && s.order.value.csr == o.csr
      && (s.order.value.url.Some? ==> s.order.value.url == o.url && o.known)
  }

  /** A recorded order URL is one the authority assigned to that key and CSR. */
  predicate OrderIsMade(s: Snapshot, sum: Summary) {
    s.order.Some? && s.order.value.url.Some? ==>
      var o := s.order.value;
      o.url.value in sum.made && sum.made[o.url.value] == Made(o.privateKey, o.csr)
  }

  predicate JournalsTxt(s: Snapshot, sum: Summary) {
    && (forall r {:trigger r in sum.ours} | r in sum.ours :: r in s.dnsCleanup)
    && (forall r {:trigger r in sum.intents} | r in s.dnsCleanup :: r in sum.intents)
  }

  predicate HoldsBackoff(s: Snapshot, sum: Summary) {
    && Saturate32(sum.contacts) <= s.failures
    && (sum.contacts > 0 ==> Saturate64(sum.lastContact + Backoff(sum.contacts - 1)) <= s.nextAttempt)
  }

  predicate Good(cfg: Config, s: Snapshot, sum: Summary) {
    && Acceptable(cfg, s)
    && CarriesOpenOrder(s, sum)
    && OrderIsMade(s, sum)
    && JournalsTxt(s, sum)
    && HoldsBackoff(s, sum)
  }

  /** `s` is an install of the returned pair that may have reached the disk although
      its caller was told the write failed. */
  ghost predicate Landed(cfg: Config, s: Snapshot, sum: Summary) {
    && Acceptable(cfg, s)
    && s.installed.Some? && (sum.open.Some? ==> s.installed == sum.current)
    && s.order.None? && s.dnsCleanup == [] && sum.ours == {}
  }

  ghost predicate OnDisk(cfg: Config, d: Option<Snapshot>, sum: Summary) {
    match d
    case None => sum.open.None? && sum.contacts == 0 && sum.ours == {}
    case Some(s) => Good(cfg, s, sum) || Landed(cfg, s, sum)
  }

  /** Every snapshot a power loss can leave agrees with the history. */
  ghost predicate DiskGood(cfg: Config, durable: set<Option<Snapshot>>, sum: Summary) {
    forall d | d in durable :: OnDisk(cfg, d, sum)
  }

  ghost predicate LogAcceptable(cfg: Config, log: seq<Outcome<Snapshot>>) {
    forall i | 0 <= i < |log| :: Acceptable(cfg, log[i].payload)
  }

  /** Memory after an install whose snapshot was not acknowledged. Nothing in it can
      reach the disk or the authority any more. */
  ghost predicate Poisoned(cfg: Config, s: Snapshot, sum: Summary, writeFailed: bool) {
    && (writeFailed || cfg.size(s) > MAX_SNAPSHOT)
    && Acceptable(cfg, s) && s.order.None? && s.dnsCleanup == [] && sum.ours == {}
  }

  // ---------------------------------------------------------------- events and snapshots

  /** Events after which every good snapshot is still good. */
  predicate Harmless(e: Event) {
    !e.Contact? && !e.NewOrder? && !(e.Present? && e.landed)
  }

  lemma {:induction false} GoodSurvives(cfg: Config, s: Snapshot, sum: Summary, e: Event)
    requires Good(cfg, s, sum) && Legal(cfg, sum, e) && Harmless(e)
    ensures Good(cfg, s, Apply(sum, e))
  {
  }

  lemma {:induction false} OnDiskSurvives(cfg: Config, d: Option<Snapshot>, sum: Summary, e: Event)
    requires OnDisk(cfg, d, sum) && Legal(cfg, sum, e) && Harmless(e)
    ensures OnDisk(cfg, d, Apply(sum, e))
  {
    if d.Some? && Good(cfg, d.value, sum) {
      GoodSurvives(cfg, d.value, sum, e);
    }
  }

  lemma {:induction false} DiskSurvives(cfg: Config, durable: set<Option<Snapshot>>, sum: Summary, e: Event)
    requires DiskGood(cfg, durable, sum) && Legal(cfg, sum, e) && Harmless(e)
    ensures DiskGood(cfg, durable, Apply(sum, e))
  {
    forall d | d in durable ensures OnDisk(cfg, d, Apply(sum, e)) {
      OnDiskSurvives(cfg, d, sum, e);
    }
  }

  lemma {:induction false} ContactIsBackedOff(cfg: Config, s: Snapshot, sum: Summary, now: U64)
    requires Good(cfg, s, sum) && MayContact(cfg, s, sum, now)
    ensures Good(cfg, s, Apply(sum, Contact(now)))
  {
  }

  lemma {:induction false} NewOrderIsCarried(cfg: Config, s: Snapshot, sum: Summary, e: Event)
    requires Good(cfg, s, sum) && e.NewOrder? && Legal(cfg, sum, e)
    requires s.order == Some(PendingOrder(None, e.privateKey, e.csr))
    ensures Good(cfg, s, Apply(sum, e))
  {
  }

  lemma {:induction false} PresentIsJournaled(cfg: Config, s: Snapshot, sum: Summary, e: Event)
    requires Good(cfg, s, sum) && e.Present? && Legal(cfg, sum, e)
    requires e.record in s.dnsCleanup
    ensures Good(cfg, s, Apply(sum, e))
  {
  }

  /** The attempt at `now` may reach the authority, and `s` already holds back the
      attempt after it. */
  ghost predicate MayContact(cfg: Config, s: Snapshot, sum: Summary, now: U64) {
    && Legal(cfg, sum, Contact(now))
    && Saturate32(sum.contacts + 1) <= s.failures
    && Saturate64(now + Backoff(sum.contacts)) <= s.nextAttempt
  }

  /** A cleanup of the journal takes nothing away from that. */
  lemma {:induction false} MayStillContact(cfg: Config, s: Snapshot, sum: Summary, s': Snapshot, sum': Summary,
                                           now: U64)
    requires MayContact(cfg, s, sum, now)
    requires s' == s.(dnsCleanup := s'.dnsCleanup) && sum' == sum.(ours := sum'.ours, taken := sum'.taken)
    ensures MayContact(cfg, s', sum', now)
  {
  }

  function Scheduled(s: Snapshot, now: U64): Snapshot
    requires s.accountKey != []
  {
    var backoff := Backoff(s.failures);
    var jitter := Jitter(s.accountKey[|s.accountKey| - 1], backoff);
    s.(nextAttempt := Saturate64(now + backoff + jitter), failures := Saturate32(s.failures + 1))
  }

  /** The schedule `issue` writes before it contacts anyone: the attempt is legal,
      and the new snapshot already holds back the one after it. */
  lemma {:induction false} ScheduleHoldsBackoff(cfg: Config, s: Snapshot, sum: Summary, now: U64)
    requires Good(cfg, s, sum) && s.nextAttempt <= now
    ensures Good(cfg, Scheduled(s, now), sum) && MayContact(cfg, Scheduled(s, now), sum, now)
  {
    if sum.contacts <= s.failures {
      BackoffGrows(sum.contacts, s.failures);
    } else {
      assert Min(s.failures, 8) == Min(sum.contacts, 8) == 8;
    }
  }

  /** Scheduling another attempt does not make poisoned memory writable. */
  lemma {:induction false} PoisonStays(cfg: Config, s: Snapshot, sum: Summary, writeFailed: bool, now: U64)
    requires cfg.Valid() && Poisoned(cfg, s, sum, writeFailed) && s.nextAttempt <= now
    ensures Poisoned(cfg, Scheduled(s, now), sum, writeFailed)
  {
  }

  // ---------------------------------------------------------------- updates of the snapshot

  lemma {:induction false} AccountKeepsGood(cfg: Config, s: Snapshot, sum: Summary, id: Url)
    requires Good(cfg, s, sum) && cfg.permits(id)
    ensures Good(cfg, s.(accountId := Some(id)), sum)
  {
  }

  lemma {:induction false} DelayKeepsGood(cfg: Config, s: Snapshot, sum: Summary, next: U64)
    requires Good(cfg, s, sum) && s.nextAttempt <= next
    ensures Good(cfg, s.(nextAttempt := next), sum)
  {
  }

  /** Writing a key and CSR ahead of newOrder, which the absence of an order allows. */
  lemma {:induction false} WriteAheadKeepsGood(cfg: Config, s: Snapshot, sum: Summary, key: Pem, csr: Bytes)
    requires Good(cfg, s, sum) && s.order.None? && |key| <= 8192 && |csr| <= 64 * 1024
    ensures Good(cfg, s.(order := Some(PendingOrder(None, key, csr))), sum) && sum.open.None?
  {
  }

  lemma {:induction false} UrlKeepsGood(cfg: Config, s: Snapshot, sum: Summary, url: Url)
    requires Good(cfg, s, sum) && s.order.Some? && cfg.permits(url)
    requires OnlyOpen(sum, url) && sum.made[url] == Made(s.order.value.privateKey, s.order.value.csr)
    ensures Good(cfg, s.(order := Some(s.order.value.(url := Some(url)))), sum)
  {
  }

  lemma {:induction false} ClearKeepsGood(cfg: Config, s: Snapshot, sum: Summary)
    requires Good(cfg, s, sum) && sum.open.None?
    ensures Good(cfg, s.(order := None), sum)
  {
  }

  lemma {:induction false} JournalIsInScope(cfg: Config, s: Snapshot, r: DnsRecord)
    requires Acceptable(cfg, s) && r in s.dnsCleanup
    ensures cfg.dns.Some? && ValidFor(r, cfg.dns.value.scope)
  {
    assert AcceptableRecord(cfg, r);
  }

  /** The last journaled value is not at the provider on the manager's account. */
  predicate LastIsGone(s: Snapshot, sum: Summary) {
    s.dnsCleanup != [] && LastOf(s) !in sum.ours
  }

  function LastOf(s: Snapshot): DnsRecord
    requires s.dnsCleanup != []
  {
    s.dnsCleanup[|s.dnsCleanup| - 1]
  }

  lemma {:induction false} PopKeepsRecord(journal: seq<DnsRecord>, r: DnsRecord)
    requires r in journal && r != journal[|journal| - 1]
    ensures r in journal[..|journal| - 1]
  {
    var k :| 0 <= k < |journal| && journal[k] == r;
    assert journal[..|journal| - 1][k] == r;
  }

  lemma {:induction false} PopKeepsJournal(s: Snapshot, sum: Summary)
    requires JournalsTxt(s, sum) && LastIsGone(s, sum)
    ensures JournalsTxt(s.(dnsCleanup := s.dnsCleanup[..|s.dnsCleanup| - 1]), sum)
  {
    forall r | r in sum.ours ensures r in s.dnsCleanup[..|s.dnsCleanup| - 1] {
      PopKeepsRecord(s.dnsCleanup, r);
    }
  }

  lemma {:induction false} PopIsAcceptable(cfg: Config, s: Snapshot)
    requires Acceptable(cfg, s) && s.dnsCleanup != []
    ensures Acceptable(cfg, s.(dnsCleanup := s.dnsCleanup[..|s.dnsCleanup| - 1]))
  {
    assert forall r | r in s.dnsCleanup[..|s.dnsCleanup| - 1] :: r in s.dnsCleanup;
  }

  lemma {:induction false} PopKeepsGood(cfg: Config, s: Snapshot, sum: Summary)
    requires Good(cfg, s, sum) && LastIsGone(s, sum)
    ensures Good(cfg, s.(dnsCleanup := s.dnsCleanup[..|s.dnsCleanup| - 1]), sum)
  {
    PopKeepsJournal(s, sum);
    PopIsAcceptable(cfg, s);
  }

  lemma {:induction false} PushKeepsGood(cfg: Config, s: Snapshot, sum: Summary, r: DnsRecord)
    requires Good(cfg, s, sum) && |s.dnsCleanup| < 100 && AcceptableRecord(cfg, r) && r in sum.intents
    ensures Good(cfg, s.(dnsCleanup := s.dnsCleanup + [r]), sum)
  {
    var pushed := s.(dnsCleanup := s.dnsCleanup + [r]);
    assert JournalsTxt(pushed, sum);
    assert Acceptable(cfg, pushed);
  }

  function FirstSnapshot(cfg: Config, key: Bytes): Snapshot {
    Snapshot(1, cfg.directory, cfg.domains, key, None, None, 0, 0, None, cfg.Identity(), [])
  }

  /** With no snapshot on disk nothing has happened yet, so a first one is good. */
  lemma {:induction false} FirstIsGood(cfg: Config, key: Bytes, sum: Summary)
    requires OnDisk(cfg, None, sum) && 0 < |key| <= 4096 && cfg.validKey(key)
    ensures Good(cfg, FirstSnapshot(cfg, key), sum)
  {
  }

  /** A landed install is good once it is counted as installed. */
  lemma {:induction false} LandedIsGood(cfg: Config, s: Snapshot, sum: Summary)
    requires Landed(cfg, s, sum)
    ensures var e := Installed(s.installed.value);
            Legal(cfg, sum, e) && Harmless(e) && Good(cfg, s, Apply(sum, e))
  {
  }

  /** A snapshot that records an order URL entitles its reader to drive that order. */
  lemma {:induction false} MayFinish(cfg: Config, s: Snapshot, sum: Summary, names: seq<Domain>)
    requires Good(cfg, s, sum) && s.order.Some? && s.order.value.url.Some?
    ensures var o := s.order.value;
            && OnlyOpen(sum, o.url.value)
            && sum.made[o.url.value] == Made(o.privateKey, o.csr)
            && (Distinct(names) && cfg.domains == (set d | d in names) ==>
                  Legal(cfg, sum, Finalize(o.url.value, o.csr, names)))
            && Legal(cfg, sum, ObservedInvalid(o.url.value))
  {
  }
}
