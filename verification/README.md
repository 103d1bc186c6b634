# httpjet: protocols that have to survive crashes, races and laziness

This Dafny project models the stateful protocols of httpjet and proves what each
promises over every run. `dafny verify dfyconfig.toml` checks all of it.

| files | what they model |
|---|---|
| `SnapshotStore` | the crash-safe private snapshot file, over a file system whose directory operations are durable only after a directory sync |
| `DnsNames` | domain names, provider scopes, challenge records |
| `AcmeState`, `AcmeTrace`, `AcmeInvariant`, `AcmeManager`, `AcmeRuns` | the durable ACME order driver (RFC 8555), statement by statement, against a certificate authority, a DNS provider, a disk and an operator |
| `IpAddresses`, `PerIpThrottle` | the sharded per-address throttle |
| `ThrottleSkew`, `LoneBursts`, `Crowding`, `CrowdBursts`, `PhasedBursts` | what is left of its rate bound when clock readings arrive out of order |
| `ChallengeRegistry` | the HTTP-01 challenge registry and its leases |
| `AccessControl`, `ForwardedFor` | allow/deny rules and client address resolution |
| `PublishOrder`, `Publication`, `SitePublisher` | ordered publication of a site snapshot under a compare-and-swap lock |
| `Installer` | the transactional installation and its undo |
| `Wrappers`, `Texts` | `Option`, `Result`; splitting, joining and gathering sequences |

## How the models read

**Order manager.** `AcmeManager.Manager` follows `manager.rs` line by line. Every `*` is a
choice of the world: an I/O error, a lost request or reply, a remote refusal, or the
caller dropping the future at an await. A crash is a drop after which the object is not
used again. `Environment.trace` is the history of what the outside world saw; an event may
only be appended if `Legal` allows it, so proving the methods correct proves that every
history is `Lawful`, and the theorems of `AcmeTrace` say what a lawful history guarantees.
`AcmeRuns.EveryRun` drives any script of calls, restarts and power losses.

Assumed of the world: one writer (the store holds a lock on its directory); a remote
operation takes effect, if at all, before the next one starts; the authority never assigns
one order URL twice; a provider that reports success did what it was asked; `install` is
called with the pair the last `issue` returned while that order is open; the operator
reconciles with the right URL; generated keys and CSRs respect the sizes `open` checks; a
larger decimal number does not serialize shorter. The transport's origin check, the key
parser and the serialized size are parameters.

Two cases need care. `replace` refuses an oversized snapshot without setting its latch, and
an `install` whose write failed may still have reached the disk. `Poisoned` and `Landed`
name the two states, and the invariant holds through both.

**Snapshot store.** A payload is one value; a file with incomplete bytes holds `None`.
`durable` is the set of directories a power loss may leave: every one since the last
directory sync. A killed process does not sync, so a reopened store may see a snapshot that
a power loss can still take back; everything said about the disk is said of all of
`Possible`.

**Throttle.** Instants are natural numbers taken in lock order. `PerIpThrottle` assumes
them nondecreasing. The code reads the clock before it takes the lock, so `ThrottleSkew`
allows readings out of order by a bounded skew. An address alone in its shard
(`LoneBursts`) and one in a shard that others fill and sweep (`CrowdBursts`,
`PhasedBursts`) fare differently; `Crowding` shows that a shard can be filled. Counters wrap at 2^64.

**Publication.** `Publication` is a step system on values, because requests of several
publishers interleave: a request may be served after its sender gave up, a reply may be
lost. An entity tag is the stored content, which fresh lock tokens make unique, and a
SHA-256 digest stands for its payload. The operator replaces the lock only when no
publisher is at work. `SitePublisher` is the same publisher as sequential code: each
request it sends is the one a publisher of the step system has on the wire, and it goes on
as that one does. `Publication.OthersAreShutOut` is why its store does not change between
its requests once the lock is held; between the two requests that take the lock this is
assumed.

**Access control.** Rule texts arrive parsed (`Spec`). The standard library's address
parsers are parameters, and host and path of an HTTP-01 request arrive separated.

**Installer.** A recorded digest stands for the bytes it was taken of. Each step may fail,
including after its rename. The undo may fail too; nothing is promised then (`Broken`).

## Where a promise does not hold as stated

* *Values the manager did not present are never removed.* A value journaled but not yet
  presented when the process stopped is removed by the next cleanup, whoever published it.
  A completed cleanup removes a value if and only if it is in the journal found at the call
  (`Manager.CleanupDns`, `LostExactlyIfJournaled`); such a history exists exactly for
  records of configured domains (`RemovableUnpresented`).
* *A boundary burst is 2x the rate.* In order, 2 * rate - 1 is the exact bound. With
  readings out of order by less than the window the exact bound is `Burst`, 3 * rate - 1 up
  to a third of the window (`ExactBurst`, `ExactSmallBurst`). For every skew, 2x holds if
  and only if the readings are in order, or the rate is one and they are out of order by at
  most half a window (`BurstWithinTwice`). For an address alone in its shard the exact bound
  is known for every skew, and 2x holds if and only if the skew is at most one tick, or the
  rate is one, or it is two and the skew at most one tick more than the window
  (`LoneBurstWithinTwice`).
* *Two rules of one prefix length that match one address name the same network*, so the
  later one, or the deny, overwrites the other. One matches wherever the other does if and
  only if the other is not the catch-all or both are (`CoversExactly`,
  `OverwrittenExactly`). A catch-all beaten by 0.0.0.0/0 or by ::/0 still decides at exactly
  the addresses of the other family (`CatchAllIsNotOverwritten`).
* *Immutable objects are published before the mutable ones.* With some mutable object of
  rank 1 in the snapshot, and every one holds apt/install.sh: if and only if no immutable
  name ends with /repodata/repomd.xml (`ImmutablesFirstExactly`). An index below a Packages
  directory, such as rpm/x86_64/Packages/repodata/repomd.xml, does (`LateImmutable`).
* *A failed installation restores the command link.* `Machine.Transaction`: exactly when
  the link was the one the record called for. The ownership check also accepts a missing
  link, and any link while no release is current (`AcceptedButNotSettled`).
* *A rerun accepts an undone installation.* Always when a release was current. When none
  was, the record keeps the new digests, so a rerun accepts if the privileged helpers that
  were there have the new bytes, and after a full deployment only then
  (`Machine.Transaction`). Between operations of the installer alone neither exception
  arises (`Installer.Lifetime`).
* *Everything is put back.* The identity file has no backup. Every file is restored if it
  already held what the installation writes there, and after a full deployment only then
  (`Machine.Transaction`, `Machine.Install`).
* *Forged X-Forwarded-For entries are powerless in mode 2.* Exactly when some genuine
  entry is untrusted or unparsable (`ForgedPrefixIsPowerless`).

## Model

| member | source | states |
|---|---|---|
| SnapshotStore.AdmissibleMeans | crates/hj-acme/src/storage.rs:114-116 | what may be read after any history of replacements: the last acknowledged payload or one attempted after it, said by position in both directions |
| SnapshotStore.CreateKeeps | crates/hj-acme/src/storage.rs:138-143 | creating the pending file exposes nothing: the possible snapshots are unchanged and the new file is in none |
| SnapshotStore.UnpublishedFileKeeps | crates/hj-acme/src/storage.rs:146-147 | writing and flushing a file that no surviving directory names changes no possible snapshot |
| SnapshotStore.RenameKeeps | crates/hj-acme/src/storage.rs:148 | after the rename a power loss leaves what it could before, or the new payload, complete |
| SnapshotStore.UnlinkKeeps | crates/hj-acme/src/storage.rs:79-83 | removing a leftover pending file changes no possible snapshot |
| SnapshotStore.SyncDirectoryKeeps | crates/hj-acme/src/storage.rs:149 | after a directory sync the visible snapshot is the only one a power loss can leave |
| SnapshotStore.PowerLossKeeps | crates/hj-acme/src/storage.rs:72-75 | after a power loss that tears any unflushed files the snapshot is complete and was possible before |
| SnapshotStore.Disk.PowerLoss | crates/hj-acme/src/storage.rs:72-75 | what comes back was possible, and reads stay within what the history of replacements admits |
| SnapshotStore.PrivateStore.Recover | crates/hj-acme/src/storage.rs:76-84 | a pending write is removed and never promoted; no snapshot is lost or changed |
| SnapshotStore.PrivateStore.Read | crates/hj-acme/src/storage.rs:101-112 | a read that passes the file checks returns the last acknowledged payload or one attempted after it, never partial or pending bytes |
| SnapshotStore.PrivateStore.Replace | crates/hj-acme/src/storage.rs:116-132 | an acknowledged payload is the only one a power loss can leave; an unacknowledged one is at most added; a session makes no write after its first failed one; an oversized payload is refused without touching the latch |
| SnapshotStore.PrivateStore.ReplaceInner | crates/hj-acme/src/storage.rs:134-150 | the same at every point where create, write, fsync, rename or directory fsync can fail |
| SnapshotStore.PrivateStore.FillAndFlush | crates/hj-acme/src/storage.rs:144-147 | however writing stops, the committed snapshots are those of before; on success the file is complete and flushed |
| DnsNames.NameIsCanonical | crates/hj-acme/src/config.rs:57-77 | a lower-cased name parses to itself and is not a wildcard |
| DnsNames.ParseIdempotent | crates/hj-acme/src/config.rs:37-77 | both parsers are idempotent on their own output |
| DnsNames.BaseIsCanonical | crates/hj-acme/src/config.rs:54-56 | the base of a parsed domain, wildcard or not, parses to itself |
| DnsNames.PermitsIsLabelSuffix | crates/hj-acme/src/dns.rs:30-38 | a scope permits a domain if and only if some zone's labels are a suffix of the base's labels |
| DnsNames.RecordRoundTrip | crates/hj-acme/src/dns.rs:57-84 | a record built for a domain parses back to its base, and is valid for a scope if and only if the scope permits the domain |
| AcmeState.RecordForConfiguredDomain | crates/hj-acme/src/manager.rs:144-154 | a record built for a configured domain is one `open` accepts in the journal |
| AcmeState.BackoffGrows | crates/hj-acme/src/manager.rs:235 | the backoff never shrinks with the failure count |
| AcmeState.WaitIsUnderSixFifths | crates/hj-acme/src/manager.rs:235-237 | backoff plus jitter is under 1.2 times the backoff, which lies between 300 and 76800 seconds |
| AcmeState.RenewalIsInTime | crates/hj-acme/src/manager.rs:441-443 | renewal falls between 3/5 and 2/3 of the remaining lifetime, never after expiry |
| AcmeTrace.EarlierOrdersAreSettled | crates/hj-acme/src/manager.rs:276-311 | between any two newOrder requests of any history the earlier order was observed invalid, or its own certificate was installed: a pair returned for its URL after it was sent, with its private key |
| AcmeTrace.LostReplyIsNeverRepeated | crates/hj-acme/src/manager.rs:232-234 | a newOrder after another one is preceded by that order's own reply or its reconciliation; if the authority never created it, none follows |
| AcmeTrace.FinalizeUsesTheDurableKey | crates/hj-acme/src/manager.rs:282-311 | every finalize and every returned pair carries the CSR and key of the newOrder that created its URL, both in every snapshot a power loss could leave when it was sent; the authorized names were exactly the configured ones, each once |
| AcmeTrace.OneKeyPerOrder | crates/hj-acme/src/manager.rs:390-406 | across crashes and retries all finalize requests of one order use one CSR and all its returned pairs one key |
| AcmeTrace.AttemptsAreSpaced | crates/hj-acme/src/manager.rs:225-239 | two successive attempts that contact the authority with no install between are 300 * 2^min(k, 8) seconds apart, k counting earlier ones since the last install |
| AcmeTrace.OnlyIntendedTxtChanges | crates/hj-acme/src/manager.rs:342-365 | a TXT value never journaled stays as its owner left it; what the provider holds beyond others' values is exactly what the manager presented and did not remove |
| AcmeTrace.TxtBySummary | crates/hj-acme/src/manager.rs:478-492 | the provider holds what others published and the manager never removed, and what it presented and did not remove |
| AcmeTrace.SweptIsCleaned | crates/hj-acme/src/manager.rs:478-492 | whatever others had published, a cleanup removes nothing outside its journal and, once complete, exactly its journal |
| AcmeTrace.LostExactlyIfJournaled | crates/hj-acme/src/manager.rs:478-492 | in a completed cleanup a value at the provider is lost if and only if it is in the journal found at the call |
| AcmeTrace.RemovableUnpresented | crates/hj-acme/src/manager.rs:349-357 | some lawful history (contact, newOrder, reply, journal, stop, cleanup) removes a value the manager never presented if and only if it is a record of a configured domain |
| AcmeInvariant.DiskSurvives | crates/hj-acme/src/storage.rs:114-116 | every snapshot that may be on the disk stays in agreement with the history when an event no snapshot answers for is added |
| AcmeInvariant.ContactIsBackedOff | crates/hj-acme/src/manager.rs:235-239 | a persisted schedule already holds back the attempt after the one being made |
| AcmeInvariant.NewOrderIsCarried | crates/hj-acme/src/manager.rs:289-303 | the written-ahead snapshot answers for the order that newOrder may have created |
| AcmeInvariant.PresentIsJournaled | crates/hj-acme/src/manager.rs:349-357 | a journaled value may be presented: the snapshot keeps answering for it |
| AcmeInvariant.ScheduleHoldsBackoff | crates/hj-acme/src/manager.rs:235-238 | raising the schedule and the failure count entitles the attempt to contact the authority |
| AcmeInvariant.PoisonStays | crates/hj-acme/src/storage.rs:122-127 | memory left by an install that was refused as oversized stays unable to reach the disk |
| AcmeInvariant.JournalIsInScope | crates/hj-acme/src/manager.rs:481-483 | every record of an acceptable journal is one its provider's scope covers |
| AcmeInvariant.PopKeepsGood | crates/hj-acme/src/manager.rs:488-489 | forgetting the last journal entry is sound once the provider confirmed its removal |
| AcmeInvariant.PushKeepsGood | crates/hj-acme/src/manager.rs:351-352 | journaling one more record within the limit keeps the snapshot acceptable to `open` |
| AcmeInvariant.LandedIsGood | crates/hj-acme/src/manager.rs:444-447 | an install found committed after its caller was told it failed counts as installed |
| AcmeInvariant.MayFinish | crates/hj-acme/src/manager.rs:386-411 | a snapshot with an order URL entitles its reader to finalize, collect or abandon that order and no other |
| AcmeManager.Environment.NewOrder | crates/hj-acme/src/manager.rs:299-303 | the authority creates the order or not, the reply arrives or not, and no URL is assigned twice |
| AcmeManager.Manager.Open | crates/hj-acme/src/manager.rs:120-210 | self-acceptance: whatever the runs so far left on the disk passes validation; it fails only in storage, in building the HTTP client or in generating a key |
| AcmeManager.Manager.Persist | crates/hj-acme/src/manager.rs:216-220 | acknowledged, memory is the only snapshot a power loss can leave; the disk invariant holds either way |
| AcmeManager.Manager.CleanupDns | crates/hj-acme/src/manager.rs:470-477 | on success exactly the values of the journal found are gone from the provider, whoever published them, the journal is empty and nothing presented remains; however it stops, nothing outside the journal was removed and what remains is still journaled on every possible disk; it never fails with `State`, so no journaled value is stuck behind the scope check |
| AcmeManager.Manager.CleanupDnsInner | crates/hj-acme/src/manager.rs:478-492 | the loop removes exactly the entries it has forgotten, last first, and its scope check never refuses one |
| AcmeManager.Manager.CleanupLast | crates/hj-acme/src/manager.rs:480-490 | only the last entry's value is removed, it is forgotten only after the provider confirmed that, and the scope check never refuses it |
| AcmeManager.Manager.InScope | crates/hj-acme/src/manager.rs:479-483 | accepts exactly the records that a configured provider's scope covers |
| AcmeManager.Manager.Issue | crates/hj-acme/src/manager.rs:224-250 | the invariant survives every outcome; success leaves none of its values at the provider; too early or with an uncertain order nothing is touched; account key and installed pair are left alone |
| AcmeManager.Manager.Prepare | crates/hj-acme/src/manager.rs:235-240 | before any contact the raised schedule is durable and the journal empty |
| AcmeManager.Manager.Schedule | crates/hj-acme/src/manager.rs:235-239 | the next attempt and the failure count are raised and, if acknowledged, durable before anything is contacted |
| AcmeManager.Manager.Finish | crates/hj-acme/src/manager.rs:244-249 | Retry-After only postpones; on success nothing presented remains |
| AcmeManager.Manager.IssueInner | crates/hj-acme/src/manager.rs:252-423 | wherever the attempt stops, memory and every possible disk agree with the history; a returned pair is the one just collected |
| AcmeManager.Manager.ObtainAccount | crates/hj-acme/src/manager.rs:253-275 | only a permitted account URL is recorded |
| AcmeManager.Manager.ObtainOrder | crates/hj-acme/src/manager.rs:276-312 | resumes the recorded order, or writes its key and CSR ahead of newOrder |
| AcmeManager.Manager.SendNewOrder | crates/hj-acme/src/manager.rs:292-311 | newOrder is sent only while the write-ahead record is the sole possible snapshot and no order is open |
| AcmeManager.Manager.RecordUrl | crates/hj-acme/src/manager.rs:306-310 | the reply's URL is recorded for the order it created |
| AcmeManager.Manager.AuthorizeAll | crates/hj-acme/src/manager.rs:313-382 | at most 100 authorizations, each for a name not seen before, at most one journal entry each |
| AcmeManager.Manager.PublishTxt | crates/hj-acme/src/manager.rs:342-365 | the exact value is durable in the journal before the provider is asked to present it |
| AcmeManager.Manager.Drive | crates/hj-acme/src/manager.rs:383-422 | finalize uses the recorded CSR, and only with exactly the configured names authorized |
| AcmeManager.Manager.Collect | crates/hj-acme/src/manager.rs:396-405 | the returned pair carries the recorded private key |
| AcmeManager.Manager.Abandon | crates/hj-acme/src/manager.rs:407-411 | an order observed invalid is cleared, and nothing else changes |
| AcmeManager.Manager.Install | crates/hj-acme/src/manager.rs:428-449 | the pair, the cleared order and the renewal time are one snapshot; a refused candidate changes neither memory nor disk; it counts as installed exactly when acknowledged |
| AcmeManager.Manager.ReconcileOrder | crates/hj-acme/src/manager.rs:496-506 | only a permitted URL and only for an order of unknown fate; otherwise nothing changes |
| AcmeRuns.EveryRun | crates/hj-acme/src/manager.rs:98-507 | after any script of calls, restarts and power losses the history is lawful, every value presented and not removed is in every possible durable journal, and every snapshot ever written passes `open` |
| AcmeRuns.Start | crates/hj-acme/src/manager.rs:120-210 | a restart finds the disk in agreement with the history and begins a session that is, too |
| IpAddresses.SharedAddressSameNetwork | crates/hj-acl/src/lib.rs:711-713 | two networks of one length that share an address contain the same addresses |
| PerIpThrottle.ShardOfCanonical | crates/hj-acl/src/throttle.rs:206-221 | the octet loop computes the shard index that every other result is about |
| PerIpThrottle.PrecheckAgrees | crates/hj-acl/src/throttle.rs:125-134 | the precheck holds if and only if an admission at that instant would succeed, in every state of the shard |
| PerIpThrottle.DecisionsMatchReference | crates/hj-acl/src/throttle.rs:136-192 | an address never admitted untracked is treated exactly as by an unbounded, unsharded counter of its own, whatever others do to its shard |
| PerIpThrottle.RateBound | crates/hj-acl/src/throttle.rs:17-18 | any interval one window long holds at most 2 * rate - 1 of its admissions, eviction and re-insertion included |
| PerIpThrottle.RateBoundIsTight | crates/hj-acl/src/throttle.rs:17-18 | for every rate, every window longer than one tick and every canonical address a run attains that bound |
| PerIpThrottle.GateIsInvisible | crates/hj-acl/src/throttle.rs:148-158 | one admission through the sweep gate decides and leaves the windows as one that sweeps whenever full |
| PerIpThrottle.GatedRunIsEagerRun | crates/hj-acl/src/throttle.rs:41-48 | over every run windows, counters and decisions equal those of eagerly swept shards, and no shard exceeds its quota |
| PerIpThrottle.UntrackedExactlyWhenFull | crates/hj-acl/src/throttle.rs:159-164 | a request passes untracked if and only if its address is unknown and the shard holds its quota of live windows |
| PerIpThrottle.CountersCount | crates/hj-acl/src/throttle.rs:112-121 | the counters are the admissions and the counted refusals of the run, modulo 2^64 |
| PerIpThrottle.Retain | crates/hj-acl/src/throttle.rs:149-157 | one pass keeps exactly the live windows and finds the earliest of them |
| PerIpThrottle.ClientThrottle.constructor | crates/hj-acl/src/throttle.rs:67-92 | a new throttle is the empty state every run starts from |
| PerIpThrottle.ClientThrottle.Allow | crates/hj-acl/src/throttle.rs:112-114 | one step of the modelled run that counts a refusal |
| PerIpThrottle.ClientThrottle.AllowDeferringRejection | crates/hj-acl/src/throttle.rs:119-121 | one step that leaves the refusal uncounted |
| PerIpThrottle.ClientThrottle.WouldAllow | crates/hj-acl/src/throttle.rs:125-134 | answers what an admission now would, and changes nothing |
| PerIpThrottle.ClientThrottle.CountIn | crates/hj-acl/src/throttle.rs:159-191 | opens, counts or refuses as the reference of one shard does |
| PerIpThrottle.ClientThrottle.Admit | crates/hj-acl/src/throttle.rs:136-192 | the object's state after an admission is the next state of the modelled run, with its decision |
| ThrottleSkew.SkewedRateBound | crates/hj-acl/src/throttle.rs:144-145 | with clock readings out of order by less than a window, whatever others do to its shard, a tracked address gets at most Windows * (rate - 1) + Openings admissions in any interval one window long |
| ThrottleSkew.SkewedBurstInNumbers | crates/hj-acl/src/throttle.rs:144-145 | that bound is 2 * rate - 1 in order and 3 * rate - 1 for a skew of up to a third of the window |
| LoneBursts.LoneRateBound | crates/hj-acl/src/throttle.rs:144-145 | the corresponding bound for an address alone in its shard, for any skew |
| LoneBursts.LoneBurstIsAttained | crates/hj-acl/src/throttle.rs:169-191 | for every rate, window, skew and canonical address a run attains it |
| LoneBursts.LoneBurstWithinTwice | crates/hj-acl/src/throttle.rs:17-18 | its burst stays within twice the rate if and only if the skew is at most one tick, or the rate is one, or it is two and the skew at most window + 1 |
| Crowding.SomeAddressIsCrowded | crates/hj-acl/src/throttle.rs:206-221 | a shard can be filled: there are an address and 4095 others that hash to its shard |
| CrowdBursts.ThriceIsAdmitted | crates/hj-acl/src/throttle.rs:148-158 | out of order by more than half a window, sweeps triggered by others let an address in a full shard open three windows within one |
| PhasedBursts.SkewedBurstIsAttained | crates/hj-acl/src/throttle.rs:148-158 | for every rate, every skew from one tick to just under the window and every address whose shard others can fill, a run attains the bound of `SkewedRateBound`, all admissions tracked |
| PhasedBursts.ExactBurst | crates/hj-acl/src/throttle.rs:17-18 | for every skew below the window, a number bounds the burst of every tracked address if and only if it is at least that bound |
| PhasedBursts.ExactSmallBurst | crates/hj-acl/src/throttle.rs:17-18 | up to a third of the window that is 2 * rate - 1 in order and 3 * rate - 1 otherwise |
| PhasedBursts.BurstWithinTwice | crates/hj-acl/src/throttle.rs:17-18 | for every skew, it stays within twice the rate if and only if readings are in order, or the rate is one and the skew at most half a window |
| PhasedBursts.BurstBeyondWindow | crates/hj-acl/src/throttle.rs:144-145 | out of order by a window or more, any bound is at least the one for one tick less than the window |
| ChallengeRegistry.RetainedRefines | crates/hj-acme/src/challenge.rs:150 | the entries kept by a registration are exactly the live registrations of the history |
| ChallengeRegistry.RegisterRefines | crates/hj-acme/src/challenge.rs:122-175 | Conflict and Capacity are decided by live registrations only, exhaustion of the 64-bit sequence apart; a granted lease is the latest registration of its key |
| ChallengeRegistry.LookupRefines | crates/hj-acme/src/challenge.rs:189-241 | a token lookup answers 200 with a body exactly when the latest registration of the key has it, is unexpired and its lease is not dropped |
| ChallengeRegistry.DropRefines | crates/hj-acme/src/challenge.rs:55-68 | dropping a lease ends its own registration |
| ChallengeRegistry.StaleDropChangesNothing | crates/hj-acme/src/challenge.rs:55-68 | dropping a lease that was replaced or already dropped changes nothing |
| ChallengeRegistry.RunRefines | crates/hj-acme/src/challenge.rs:122-241 | over every run with nondecreasing times the bounded, lazily expired table stands for the history of grants and drops |
| ChallengeRegistry.AnswersMatchReference | crates/hj-acme/src/challenge.rs:122-241 | every answer of every such run is the one the history alone determines |
| ChallengeRegistry.Registry.RegisterAt | crates/hj-acme/src/challenge.rs:122-175 | the object's registration is the modelled one, state and answer |
| ChallengeRegistry.Registry.RetainLive | crates/hj-acme/src/challenge.rs:150 | the retaining loop drops exactly the expired entries |
| ChallengeRegistry.Registry.LookupAt | crates/hj-acme/src/challenge.rs:189-241 | the object's lookup is the modelled one, state and answer |
| ChallengeRegistry.Registry.DropLease | crates/hj-acme/src/challenge.rs:55-68 | the object's drop is the modelled one |
| AccessControl.StableSortSpec | crates/hj-acl/src/lib.rs:155-163 | sorting keeps every rule, orders the keys, and keeps the written order among rules of one key |
| AccessControl.FirstMatchIsWinner | crates/hj-acl/src/lib.rs:123-173 | the first match after reversing and stable sorting is the matching rule with the longest prefix, then deny, then written last |
| AccessControl.SomeRuleWins | crates/hj-acl/src/lib.rs:194-211 | if any rule matches, there is such a winner |
| AccessControl.CoversExactly | crates/hj-acl/src/lib.rs:155-161 | of two rules of one prefix length that match one address, the first matches wherever the second does if and only if the second is not the catch-all or the first is; also among the addresses that reach the check |
| AccessControl.OverwrittenRuleNeverWins | crates/hj-acl/src/lib.rs:155-161 | under that condition a rule beaten at one address by another of its prefix length never wins anywhere, whatever other rules there are |
| AccessControl.OverwrittenExactly | crates/hj-acl/src/lib.rs:155-161 | of two rules alone, the beaten one never wins if and only if that condition holds |
| AccessControl.CatchAllIsNotOverwritten | crates/hj-acl/src/lib.rs:155-161 | a catch-all beaten by a network of length zero, of either family, decides at exactly the addresses of the other family |
| AccessControl.VerdictIsDenied | crates/hj-acl/src/lib.rs:194-211 | an address is refused if and only if a deny rule matches it and no allow rule of a longer prefix does |
| AccessControl.VerdictIgnoresOrder | crates/hj-acl/src/lib.rs:194-211 | the verdict is the same for every order of the same rules |
| AccessControl.AddingARule | crates/hj-acl/src/lib.rs:194-211 | wherever it is written, an added deny never allows and an added allow never denies |
| AccessControl.TrustIsSound | crates/hj-acl/src/lib.rs:234-246 | trusted implies allowed, and the trusted-everyone shortcut agrees with the scan |
| AccessControl.FromSecurity | crates/hj-acl/src/lib.rs:123-173 | fails if and only if some rule is malformed, naming one; otherwise the built rules are the sorted reverse of the written ones |
| AccessControl.CheckPeer | crates/hj-acl/src/lib.rs:194-211 | the scanning loop returns the verdict of the rules |
| AccessControl.CheckClient | crates/hj-acl/src/lib.rs:218-226 | allowed if and only if both the peer and the client are |
| AccessControl.IsTrusted | crates/hj-acl/src/lib.rs:234-246 | with its shortcut it returns what the rules say |
| ForwardedFor.PrependedText | crates/hj-acl/src/lib.rs:648-662 | text written to the left of a header value only adds entries on the left |
| ForwardedFor.ForgedPrefixIsPowerless | crates/hj-acl/src/lib.rs:403-412 | entries on the left change nothing if some genuine entry is untrusted or unparsable; otherwise any one address written there wins |
| ForwardedFor.LastHopIgnoresLeft | crates/hj-acl/src/lib.rs:337-339 | in mode 4 entries on the left change nothing unless there was no entry |
| ForwardedFor.SpoofingIsPowerless | crates/hj-acl/src/lib.rs:281-331 | whole lines, or text in the first line, put in front by a client leave the resolved address unchanged in every mode but 1: in mode 4 if there was an entry, where the header is walked if an entry was untrusted or unparsable, elsewhere always |
| ForwardedFor.XffEntries | crates/hj-acl/src/lib.rs:648-662 | the loop over the lines collects every non-empty entry in order |
| ForwardedFor.LeftmostUntrustedXff | crates/hj-acl/src/lib.rs:344-394 | both shortcuts, everyone trusted and a single address, return what the general walk returns, for every header list |
| ForwardedFor.GeneralWalk | crates/hj-acl/src/lib.rs:372-394 | the walk finds the left-most untrusted address, or else the left-most |
| ForwardedFor.FirstParsed | crates/hj-acl/src/lib.rs:350-358 | the trusted-everyone shortcut returns the first address that parses |
| ForwardedFor.RightmostUntrustedXff | crates/hj-acl/src/lib.rs:403-412 | the loop strips trusted hops from the right and stops at an unparsable one |
| ForwardedFor.ResolveClientIp | crates/hj-acl/src/lib.rs:281-331 | the imperative resolution returns what the spoofing results are about, in every mode |
| PublishOrder.OrderSorts | packaging/release/snapshot.py:89-99 | the published order is a permutation of the files sorted by rank, then name |
| PublishOrder.OrderKeepsNames | packaging/release/snapshot.py:89-99 | nothing is published twice |
| PublishOrder.StableIsLast | packaging/release/snapshot.py:89-99 | stable.json is published after everything else |
| PublishOrder.PublishedByRank | packaging/release/snapshot.py:89-99 | ranks never go down: indexes, InRelease and the signature precede stable.json |
| PublishOrder.ImmutablesFirstExactly | packaging/release/snapshot.py:89-99 | with a mutable object of rank 1 among them, all immutable files precede all mutable ones if and only if no immutable name ends with /repodata/repomd.xml |
| PublishOrder.LateImmutable | packaging/release/snapshot.py:89-103 | an index below any Packages directory is immutable and published after apt/install.sh, which is not |
| PublishOrder.ImmutableRank | packaging/release/snapshot.py:91-99 | an immutable object has the lowest rank unless it has the name of an index, so never that of InRelease or the stable pointer |
| PublishOrder.PointerIsMutable | packaging/release/snapshot.py:101-103 | stable.json is not an immutable object |
| PublishOrder.LockIsMutable | packaging/release/snapshot.py:101-103 | the lock key is not an immutable object |
| Publication.StagedIsOk | packaging/release/snapshot.py:89-99 | the order computed for a verified snapshot lists every object once, stable.json last, the lock never |
| Publication.PointerIsReplacedAgainstItsTag | packaging/release/publish_v2.py:69-86 | whenever stable.json changes, the request that changes it was made against the entity tag it has at that moment, which its publisher read under the lock |
| Publication.RunsExtend | packaging/release/publish_v2.py:18-87 | whatever has happened, any enabled step can follow: the runs that the results range over are all of them |
| Publication.StepKeepsInv | packaging/release/publish_v2.py:18-87 | every step of every publisher, the store and the operator keeps the invariant |
| Publication.OthersAreShutOut | packaging/release/publish_v2.py:18-58 | while one publisher may write, no request of another changes anything, however late it arrives |
| Publication.MutualExclusion | packaging/release/publish_v2.py:18-58 | in every interleaving, with failures and lost replies, at most one publisher is in the locked region, and the lock is then its own held document |
| Publication.ImmutablesAreWriteOnce | packaging/release/publish.py:69-86 | over every run no immutable object ever changes |
| Publication.PointerStep | packaging/release/publish_v2.py:84-87 | stable.json changes only in a step after which the whole snapshot of its publisher is in place, and never to an older release |
| Publication.PointerOnlyAfterItsSnapshot | packaging/release/publish_v2.py:84-87 | wherever a run stops, a changed stable.json belongs to a snapshot that was complete when it moved and whose immutable objects still are |
| Publication.StableNeverDecreases | packaging/release/publish_v2.py:81 | over all publishers the stable release never goes back |
| SitePublisher.S3.Send | packaging/release/publish.py:35-58 | each request sent is the one the publisher of the step system has on the wire, and a reply moves it on as that system does |
| SitePublisher.S3.Put | packaging/release/publish.py:69-86 | success means the object is in place; an immutable one already there is never written; a failed condition changes nothing |
| SitePublisher.S3.ReadHeads | packaging/release/publish_v2.py:68-71 | a condition is collected for each of the four index files, and each is what the store holds |
| SitePublisher.S3.CheckPointer | packaging/release/publish_v2.py:72-83 | accepted only if stable.json is the one staged against and not of a later release |
| SitePublisher.S3.Upload | packaging/release/publish_v2.py:84-87 | wherever the loop stops, immutables are untouched, only objects of the snapshot changed, and stable.json is the old one or everything is in place |
| SitePublisher.S3.PublishLocked | packaging/release/publish_v2.py:67-87 | the same for the whole locked region; success means everything is in place |
| SitePublisher.S3.Acquire | packaging/release/publish_v2.py:25-51 | a held or foreign lock is never taken or overwritten, the store being the same at both requests |
| SitePublisher.S3.Publish | packaging/release/publish_v2.py:18-65 | a failed publisher retains its lock; a lock is given back only when the whole snapshot is in place; a locked store is left untouched; the publisher of the step system goes with it from beginning to end |
| SitePublisher.S3.Release | packaging/release/publish_v2.py:53-54 | the lock is given back only while it is still our own |
| Installer.DeployStep | packaging/services/manage.py:688-690 | a replacement that stops before its rename, after it, or recorded leaves a state its backup can undo |
| Installer.CommitSettles | packaging/services/manage.py:778-785 | after a complete deployment every privileged file is as recorded |
| Installer.UndoRestores | packaging/services/manage.py:822-826 | putting back the backups restores every file except the identity, which has none |
| Installer.UndoMatchesOldRecord | packaging/services/manage.py:827-832 | what an undo leaves matches the record of the release that was current |
| Installer.UndoMatchesNewRecord | packaging/services/manage.py:833-837 | with no release current and no recorded tool present, what it leaves matches the new digests it keeps |
| Installer.UndoAgainstNewRecord | packaging/services/manage.py:833-837 | in general it does if the privileged helpers present were those of the release, and after a full deployment only then |
| Installer.AcceptedButNotSettled | packaging/services/manage.py:278-289 | the ownership check accepts states an undo does not put back |
| Installer.Machine.DeployTools | packaging/services/manage.py:661-690 | a target is replaced only if absent or as recorded; an edited profile is preserved and an edited helper refused; backups cover every replacement, also when it fails half way |
| Installer.Machine.DeployOne | packaging/services/manage.py:677-690 | the same for one helper, with every other file untouched |
| Installer.Machine.DeployHelpers | packaging/services/manage.py:661-696 | and the identity file is written last |
| Installer.Machine.Restore | packaging/services/manage.py:822-826 | every backed-up target is put back or removed and nothing else changes |
| Installer.Machine.Attempt | packaging/services/manage.py:777-785 | wherever it stops, the backups and the record in memory describe what was done |
| Installer.Machine.Undo | packaging/services/manage.py:812-837 | a completed undo leaves the backed-up files, the link and the record of before |
| Installer.Machine.Transaction | packaging/services/manage.py:777-838 | commit: helpers, link and record are the new release's; undone: the current release is as before, all files exactly when the identity file already held what is written (after a full deployment), the link exactly when the record called for it, and a rerun accepts under the stated conditions |
| Installer.Machine.Install | packaging/services/manage.py:725-838 | refused or failed early, files and link are untouched; undone, files and link are as before under the same exact conditions; a settled machine stays settled through every outcome that is not a broken undo |
| Installer.Machine.RemoveOwned | packaging/services/manage.py:853-858 | exactly the owned files that are as recorded are removed |
| Installer.Machine.Uninstall | packaging/services/manage.py:843-868 | modified files and foreign links are preserved; a removal that stops half way is still accepted by the ownership check |
| Installer.Lifetime | packaging/services/manage.py:725-868 | through any sequence of installations, removals and profile edits the ownership check passes and the link is the one the record calls for |

## Left out

- HTTP/1 codec, HPACK, QPACK, PROXY protocol, LSAPI, FastCGI and page-cache parsers: their code is not part of this model.
- Certificate validation and the bounded HTTP transport: abstract predicates; only their verdicts matter to the order manager.
- Webhook DNS provider: an abstract set of exact values; request encoding and reply parsing add nothing to the protocol.
- JSON: a snapshot is a value; the round trip through text is not modelled.
- File metadata, ownership, mode and symlink checks in `storage.rs` and `manage.py`: one nondeterministic refusal.
- Deny-directory globs and geographic rules: they rest on libraries that are not part of this model.
- Text of addresses and networks in rules: rules arrive parsed; the standard address parsers are parameters.
- Waiting, polling intervals and time limits of the order manager: any of them may expire at any point.
- Service control, account creation, defaults, init adapters, activation and probing of the installer: each is one step that may fail; the recorded activation flag is not modelled.
- The installer's `rollback`, `upgrade` and `run` commands: they would repeat the link and record steps.
- AcmeManager.Manager.Issue: does not claim that an attempt ever succeeds, because the authority and the provider may always refuse.
- AcmeManager.Manager.Install: does not model 64-bit overflow of twice the remaining lifetime, which no certificate date reaches.
- Publication.StepKeepsInv: models stable.json and its signature as one read, because both are read under the lock.
- Publication.MutualExclusion: excludes an operator who replaces the lock while a publisher may still write, which the source forbids in its documentation.
- SitePublisher.S3.Publish: reasons about one publisher at a time; interleavings are the subject of `Publication`.
- SitePublisher.S3.Acquire: assumes that the store does not change between its two requests; `Publication.MutualExclusion` holds without that.
- ThrottleSkew.SkewedRateBound: does not cover a skew of a whole window or more, because a shard that was swept empty forgets its gate and may then be swept again at an earlier reading; `BurstBeyondWindow` and `BurstWithinTwice` say what is known there.
- PhasedBursts.BurstBeyondWindow: one direction only, for the same reason.
- PerIpThrottle.DecisionsMatchReference: excludes addresses admitted untracked, for which the source promises no limit; `UntrackedExactlyWhenFull` says when that happens.
