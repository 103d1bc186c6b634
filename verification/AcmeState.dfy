/** The order manager's persisted state, its configuration, and the check that
    `open` applies to a snapshot read back from disk. */
module AcmeState {
  import opened Wrappers
  import opened DnsNames

  const U32_MAX: nat := 0xFFFF_FFFF
  const U64_MAX: nat := 0xFFFF_FFFF_FFFF_FFFF

  type Byte = n: nat | n < 256
  type U32 = n: nat | n <= U32_MAX
  type U64 = n: nat | n <= U64_MAX
  type Bytes = seq<Byte>
  type Url = string
  type Pem = string

  function Min(a: nat, b: nat): nat { if a < b then a else b }

  function Saturate32(n: nat): U32 { Min(n, U32_MAX) }

  function Saturate64(n: nat): U64 { Min(n, U64_MAX) }

  /** `url` is `None` from before newOrder is sent until its reply is recorded. */
  datatype PendingOrder = PendingOrder(url: Option<Url>, privateKey: Pem, csr: Bytes)

  datatype IssuedCertificate = IssuedCertificate(certificate: Pem, privateKey: Pem)

  datatype Snapshot = Snapshot(
    version: nat,
    directory: Url,
    domains: set<Domain>,
    accountKey: Bytes,
    accountId: Option<Url>,
    order: Option<PendingOrder>,
    nextAttempt: U64,
    failures: U32,
    installed: Option<IssuedCertificate>,
    dnsIdentity: Option<string>,
    dnsCleanup: seq<DnsRecord>)

  /** newOrder may have been sent and its reply was not recorded. */
  predicate Uncertain(s: Snapshot) {
    s.order.Some? && s.order.value.url.None?
  }

  predicate KeepsPair(before: Snapshot, after: Snapshot) {
    after.accountKey == before.accountKey && after.installed == before.installed
  }

  datatype Provider = Provider(scope: DnsScope, identity: string)

  /** `permits` is the transport's origin check, `validKey` the PKCS#8 parser and
      `size` the length of a serialized snapshot. */
  datatype Config = Config(
    directory: Url,
    domains: set<Domain>,
    dns: Option<Provider>,
    permits: Url -> bool,
    validKey: Bytes -> bool,
    size: Snapshot -> nat)
  {
    function Identity(): Option<string> {
      if dns.Some? then Some(dns.value.identity) else None
    }

    /** Marks where what is known of a configured domain is needed. */
    static ghost predicate Configured(d: Domain) { true }

    /** What configuration parsing and the two `open` entry points establish, and
        that a decimal number never serializes shorter than a smaller one. */
    ghost predicate Valid() {
      && 0 < |domains| <= 100
      && (forall d {:trigger Configured(d)} | d in domains ::
            if dns.Some? then
              && ParseDns01(d.text) == Ok(d)
              && |DnsBase(d)| + |OWNER_PREFIX| <= 253
              && dns.value.scope.Permits(d)
            else Parse(d.text) == Ok(d))
      && (dns.Some? ==> 0 < |dns.value.identity| <= 4096)
      && (forall s: Snapshot, next: U64, failures: U32 | s.nextAttempt <= next && s.failures <= failures ::
            size(s) <= size(s.(nextAttempt := next, failures := failures)))
    }
  }

  predicate AcceptableRecord(cfg: Config, r: DnsRecord) {
    && cfg.dns.Some?
    && ValidFor(r, cfg.dns.value.scope)
    && RecordDomain(r).Ok?
    && exists d | d in cfg.domains :: DnsBase(d) == RecordDomain(r).value.text
  }

  predicate AcceptableOrder(cfg: Config, o: PendingOrder) {
    && |o.privateKey| <= 8192
    && |o.csr| <= 64 * 1024
    && (o.url.Some? ==> cfg.permits(o.url.value))
  }

  /** The validation of a snapshot at `open`. */
  predicate Acceptable(cfg: Config, s: Snapshot) {
    && s.version == 1
    && s.dnsIdentity == cfg.Identity()
    && |s.dnsCleanup| <= 100
    && (forall r {:trigger AcceptableRecord(cfg, r)} | r in s.dnsCleanup :: AcceptableRecord(cfg, r))
    && s.directory == cfg.directory
    && s.domains == cfg.domains
    && 0 < |s.accountKey| <= 4096
    && (s.accountId.Some? ==> cfg.permits(s.accountId.value))
    && (s.order.Some? ==> AcceptableOrder(cfg, s.order.value))
    && cfg.validKey(s.accountKey)
  }

  /** A record built for a configured domain is one `open` accepts. */
  lemma {:induction false} RecordForConfiguredDomain(cfg: Config, d: Domain, challenge: string)
    requires cfg.Valid() && cfg.dns.Some? && d in cfg.domains
    requires NewRecord(d, challenge).Ok?
    ensures AcceptableRecord(cfg, NewRecord(d, challenge).value)
  {
    assert Config.Configured(d);
    RecordRoundTrip(d.text, d, challenge, cfg.dns.value.scope);
  }

  // ---------------------------------------------------------------- retry schedule

  function Doublings(k: nat): nat {
    if k == 0 then 1 else 2 * Doublings(k - 1)
  }

  function Backoff(failures: nat): nat {
    300 * Doublings(Min(failures, 8))
  }

  /** The jitter drawn from one byte of the account key. */
  function Jitter(byte: Byte, backoff: nat): nat {
    var fifth: nat := backoff / 5;
    assert byte * fifth >= 0;
    byte * fifth / 256
  }

  lemma {:induction false} DoublingsGrow(a: nat, b: nat)
    requires a <= b
    ensures Doublings(a) <= Doublings(b)
  {
    if a < b { DoublingsGrow(a, b - 1); }
  }

  lemma {:induction false} BackoffGrows(a: nat, b: nat)
    requires a <= b
    ensures Backoff(a) <= Backoff(b)
  {
    DoublingsGrow(Min(a, 8), Min(b, 8));
  }

  lemma {:induction false} JitterIsUnderOneFifth(byte: Byte, backoff: nat)
    requires 5 <= backoff
    ensures Jitter(byte, backoff) < backoff / 5
  {
    var fifth := backoff / 5;
    assert byte * fifth <= 255 * fifth;
  }

  lemma {:induction false} BackoffRange(failures: nat)
    ensures 300 <= Backoff(failures) <= 76800
  {
    DoublingsGrow(0, Min(failures, 8));
    DoublingsGrow(Min(failures, 8), 8);
    assert Doublings(4) == 16;
    assert Doublings(8) == 16 * Doublings(4);
  }

  /** Without Retry-After the scheduled wait lies in [backoff, 1.2 * backoff), and
      backoff itself is between five minutes and just over twenty-one hours. */
  lemma {:induction false} WaitIsUnderSixFifths(byte: Byte, failures: nat)
    ensures 300 <= Backoff(failures) <= 76800
    ensures 5 * (Backoff(failures) + Jitter(byte, Backoff(failures))) < 6 * Backoff(failures)
  {
    BackoffRange(failures);
    JitterIsUnderOneFifth(byte, Backoff(failures));
  }

  // ---------------------------------------------------------------- renewal

  /** When to renew a certificate installed at `now`: two thirds into its life, less a
      jitter taken from the first byte of the account key. */
  function RenewAt(s: Snapshot, expires: U64, now: U64): U64
    requires s.accountKey != []
  {
    var remaining := if expires > now then expires - now else 0;
    var jitter := s.accountKey[0] * (remaining / 20) / 256;
    var wait := remaining * 2 / 3;
    Saturate64(now + if wait > jitter then wait - jitter else 0)
  }

  /** Renewal falls between 3/5 and 2/3 of what is left of the certificate's life. */
  lemma {:induction false} RenewalIsInTime(s: Snapshot, expires: U64, now: U64)
    requires s.accountKey != [] && now <= expires
    ensures var left := expires - now; var wait := RenewAt(s, expires, now) - now;
            5 * wait >= 3 * left - 5 && 3 * wait <= 2 * left
    ensures RenewAt(s, expires, now) <= expires
  {
    var left := expires - now;
    var share := left / 20;
    ByteShare(s.accountKey[0], share);
  }

  lemma {:induction false} ByteShare(b: Byte, share: nat)
    ensures 0 <= b * share / 256 <= share
  {
    assert b * share <= 256 * share;
  }
}
