/** The durable single-order driver, statement by statement. Every `*` is a choice
    of the environment: an operating-system error, a remote failure, or the caller
    dropping the future at an await point. A crash is such a drop after which the
    object is not used again, so what holds on every return holds at every crash. */
module AcmeManager {
  import opened Wrappers
  import opened DnsNames
  import opened SnapshotStore
  import opened AcmeState
  import opened AcmeTrace
  import opened AcmeInvariant

  datatype ManagerError =
    Storage | State | Crypto | Authority | Challenge | Timeout | NotDue | UncertainOrder | Dns | Dropped

  datatype OrderStatus = OrderPending | OrderReady | OrderProcessing | OrderValid | OrderInvalid

  datatype AuthorizationStatus = AuthorizationPending | AuthorizationValid | AuthorizationOther

  /** The certificate authority, the DNS provider and the operator. `urls` are the
      order URLs assigned so far; `trace` is the history every theorem is about. */
  class Environment {
    const cfg: Config
    var urls: set<Url>
    ghost var trace: seq<Event>
    var sum: Summary

    ghost predicate Consistent()
      reads this
    {
      cfg.Valid() && Lawful(cfg, trace) && sum == Fold(trace)
    }

    ghost predicate Valid()
      reads this
    {
      Consistent() && urls == sum.made.Keys
    }

    constructor (cfg: Config)
      requires cfg.Valid()
      ensures Valid() && this.cfg == cfg && trace == [] && sum == START
    {
      this.cfg := cfg;
      urls := {};
      trace := [];
      sum := START;
    }

    method Log(e: Event)
      requires Consistent() && Legal(cfg, sum, e)
      modifies this`trace, this`sum
      ensures Consistent() && trace == old(trace) + [e] && sum == Apply(old(sum), e)
    {
      Extend(cfg, trace, e);
      trace := trace + [e];
      sum := Apply(sum, e);
    }

    /** newOrder: the authority creates the order or not, and the reply arrives or
        not. It never assigns one URL to two orders. */
    method NewOrder(privateKey: Pem, csr: Bytes, durable: set<Option<Snapshot>>)
        returns (reply: Option<Url>, e: Event)
      requires Valid() && Legal(cfg, sum, Event.NewOrder(privateKey, csr, None, durable))
      modifies this
      ensures Valid() && old(trace) < trace
      ensures e.NewOrder? && e.privateKey == privateKey && e.csr == csr
      ensures Legal(cfg, old(sum), e) && sum == Apply(old(sum), e)
      ensures reply.Some? ==> e.created == reply
    {
      var url: Url := *;
      var arrives: bool := *;
      var answers: bool := *;
      var created := if arrives && url !in urls then Some(url) else None;
      reply := if answers then created else None;
      e := Event.NewOrder(privateKey, csr, created, durable);
      assert Legal(cfg, sum, e);
      Log(e);
      if created.Some? {
        urls := urls + {url};
      }
    }

    /** Adds one exact TXT value. A reported success means the value is there. */
    method PresentTxt(record: DnsRecord, durable: set<Option<Snapshot>>) returns (ok: bool, landed: bool)
      requires Valid() && Legal(cfg, sum, Present(record, true, durable))
      modifies this`trace, this`sum
      ensures Valid() && old(trace) < trace
      ensures sum == Apply(old(sum), Present(record, landed, durable))
    {
      ok := *;
      landed := *;
      landed := landed || ok;
      Log(Present(record, landed, durable));
    }

    /** Removes one exact TXT value. A reported success means the value is gone. */
    method CleanupTxt(record: DnsRecord) returns (ok: bool, removed: bool)
      requires Valid() && record in sum.intents
      modifies this`trace, this`sum
      ensures Valid() && old(trace) < trace
      ensures sum == Apply(old(sum), Cleanup(record, removed))
      ensures ok ==> removed
    {
      ok := *;
      removed := *;
      removed := removed || ok;
      Log(Cleanup(record, removed));
    }
  }

  class Manager {
    const env: Environment
    const store: PrivateStore<Snapshot>
    var state: Snapshot

    /** The disk side of the invariant: whatever a power loss leaves agrees with the
        history, and every snapshot ever handed to the store passes `open`. */
    ghost predicate DiskOk()
      reads env, store, store.disk
    {
      && env.Valid() && store.Valid()
      && store.size == env.cfg.size
      && DiskGood(env.cfg, Possible(store.disk.fs), env.sum)
      && LogAcceptable(env.cfg, store.disk.log)
    }

    ghost predicate Valid()
      reads this, env, store, store.disk
    {
      && DiskOk()
      && (|| Good(env.cfg, state, env.sum)
          || Poisoned(env.cfg, state, env.sum, store.writeFailed))
    }

    /** Memory agrees with the history and is the only snapshot a power loss leaves. */
    ghost predicate Synced()
      reads this, env, store, store.disk
    {
      && DiskOk() && Good(env.cfg, state, env.sum)
      && Possible(store.disk.fs) == {Some(state)}
    }

    constructor (env: Environment, store: PrivateStore<Snapshot>, state: Snapshot)
      ensures this.env == env && this.store == store && this.state == state
    {
      this.env := env;
      this.store := store;
      this.state := state;
    }

    /** `open_inner`: validate what the disk holds, or write a first snapshot. Nothing
        this manager ever wrote is refused: an error is one of storage, of the HTTP client
        or of the key generator, never `State`. */
    static method Open(env: Environment, disk: Disk<Snapshot>, freshKey: Bytes)
        returns (r: Result<Manager, ManagerError>)
      requires env.Valid() && disk.Valid()
      requires DiskGood(env.cfg, Possible(disk.fs), env.sum) && LogAcceptable(env.cfg, disk.log)
      requires 0 < |freshKey| <= 4096 && env.cfg.validKey(freshKey)
      modifies env, disk
      ensures env.Valid() && disk.Valid() && old(env.trace) <= env.trace
      ensures DiskGood(env.cfg, Possible(disk.fs), env.sum) && LogAcceptable(env.cfg, disk.log)
      ensures r.Ok? ==> fresh(r.value) && fresh(r.value.store)
      ensures r.Ok? ==> r.value.env == env && r.value.store.disk == disk && r.value.Valid()
      ensures r.Err? ==> r.error in {Storage, Authority, Crypto}
    {
      var ok: bool := *;
      if !ok { return Err(Authority); }          // building the HTTP client
      var store := new PrivateStore(disk, env.cfg.size);
      ok := store.Recover();
      if !ok { return Err(Storage); }
      var found;
      ok, found := store.Read();
      if !ok { return Err(Storage); }
      assert OnDisk(env.cfg, found, env.sum);
      match found {
        case Some(s) =>
          if !Acceptable(env.cfg, s) { return Err(State); }
          CountLanded(env, disk, s);
          var m := new Manager(env, store, s);
          r := Ok(m);
        case None =>
          ok := *;
          if !ok { return Err(Crypto); }         // generating the account key
          var m := new Manager(env, store, FirstSnapshot(env.cfg, freshKey));
          FirstIsGood(env.cfg, freshKey, env.sum);
          ok := m.Persist();
          r := if ok then Ok(m) else Err(Storage);
      }
    }

    /** An install found committed counts as installed from here on. */
    static method CountLanded(env: Environment, disk: Disk<Snapshot>, s: Snapshot)
      requires env.Valid() && disk.Valid() && DiskGood(env.cfg, Possible(disk.fs), env.sum)
      requires OnDisk(env.cfg, Some(s), env.sum)
      modifies env`trace, env`sum
      ensures env.Valid() && old(env.trace) <= env.trace
      ensures DiskGood(env.cfg, Possible(disk.fs), env.sum) && Good(env.cfg, s, env.sum)
    {
      if !Good(env.cfg, s, env.sum) {
        LandedIsGood(env.cfg, s, env.sum);
        DiskSurvives(env.cfg, Possible(disk.fs), env.sum, Installed(s.installed.value));
        env.Log(Installed(s.installed.value));
      }
    }

    method Persist() returns (ok: bool)
      requires DiskOk()
      requires || Good(env.cfg, state, env.sum) || Landed(env.cfg, state, env.sum)
               || Poisoned(env.cfg, state, env.sum, store.writeFailed)
      modifies store, store.disk
      ensures DiskOk()
      ensures ok ==> Possible(store.disk.fs) == {Some(state)}
      ensures ok ==> !Poisoned(env.cfg, state, env.sum, old(store.writeFailed))
      ensures !ok ==> store.writeFailed || env.cfg.size(state) > MAX_SNAPSHOT
      ensures old(store.writeFailed) ==> store.writeFailed && !ok
    {
      ok := store.Replace(state);
    }

    /** Removes journaled values last first, forgetting each only after the provider
        confirmed it. It never removes a value outside the journal it found; once it
        succeeds, exactly the values of that journal are gone from the provider. */
    method CleanupDns() returns (r: Result<(), ManagerError>)
      requires Valid()
      modifies this, env, store, store.disk
      ensures Valid() && old(env.trace) <= env.trace
      ensures old(Good(env.cfg, state, env.sum)) ==> Good(env.cfg, state, env.sum)
      ensures state == old(state).(dnsCleanup := state.dnsCleanup)
      ensures Swept(old(env.sum), env.sum, Elements(old(state.dnsCleanup)), r.Ok?)
      ensures Cleaned(old(env.trace), env.trace, Elements(old(state.dnsCleanup)), r.Ok?)
      ensures r.Ok? ==> state.dnsCleanup == [] && env.sum.ours == {}
      ensures r.Ok? && old(Synced()) ==> Synced()
      // the scope check never refuses a record of the journal
      ensures r != Err(State)
    {
      if state.dnsCleanup == [] {
        r := Ok(());
      } else {
        r := CleanupDnsInner();
      }
      SweptIsCleaned(old(env.trace), env.trace, Elements(old(state.dnsCleanup)), r.Ok?);
    }

    method CleanupDnsInner() returns (r: Result<(), ManagerError>)
      requires DiskOk() && Good(env.cfg, state, env.sum) && state.dnsCleanup != []
      modifies this, env, store, store.disk
      ensures DiskOk() && Good(env.cfg, state, env.sum) && old(env.trace) <= env.trace
      ensures state == old(state).(dnsCleanup := state.dnsCleanup)
      ensures Swept(old(env.sum), env.sum, Elements(old(state.dnsCleanup)), r.Ok?)
      ensures r.Ok? ==> state.dnsCleanup == [] && Synced()
      ensures r != Err(State)
    {
      ghost var before, all, done := env.sum, Elements(state.dnsCleanup), {};
      ghost var started := false;
      while state.dnsCleanup != []
        invariant DiskOk() && Good(env.cfg, state, env.sum) && old(env.trace) <= env.trace
        invariant state == old(state).(dnsCleanup := state.dnsCleanup)
        invariant started || state.dnsCleanup != []
        invariant started ==> Synced()
        invariant Swept(before, env.sum, done, true) && all == done + Elements(state.dnsCleanup)
        decreases |state.dnsCleanup|
      {
        ghost var sofar := env.trace;
        r, done := CleanupNext(before, done, all);
        GrowsOn(old(env.trace), sofar, env.trace);
        if r.Err? { return; }
        started := true;
      }
      assert done == all;
      r := Ok(());
    }

    /** One round of the loop: of the journal `all`, the values `done` were removed since
        `before`. */
    method CleanupNext(ghost before: Summary, ghost done: set<DnsRecord>, ghost all: set<DnsRecord>)
        returns (r: Result<(), ManagerError>, ghost done': set<DnsRecord>)
      requires DiskOk() && Good(env.cfg, state, env.sum) && state.dnsCleanup != []
      requires Swept(before, env.sum, done, true) && all == done + Elements(state.dnsCleanup)
      modifies this, env, store, store.disk
      ensures DiskOk() && Good(env.cfg, state, env.sum) && old(env.trace) <= env.trace
      ensures state == old(state).(dnsCleanup := state.dnsCleanup)
      ensures r.Ok? ==> Synced() && |state.dnsCleanup| < old(|state.dnsCleanup|)
      ensures r.Ok? ==> Swept(before, env.sum, done', true) && all == done' + Elements(state.dnsCleanup)
      ensures r.Err? ==> Swept(before, env.sum, all, false) && r.error != State
    {
      ghost var s, sum := state, env.sum;
      r := CleanupLast();
      SweptOneMore(before, sum, env.sum, done, s.dnsCleanup, LastOf(s), all, r.Ok?);
      done' := done + {LastOf(s)};
    }

    /** Has the last journaled value removed, and forgets it once that is confirmed. */
    method CleanupLast() returns (r: Result<(), ManagerError>)
      requires DiskOk() && Good(env.cfg, state, env.sum) && state.dnsCleanup != []
      modifies this, env, store, store.disk
      ensures DiskOk() && Good(env.cfg, state, env.sum) && old(env.trace) <= env.trace
      ensures state == old(state).(dnsCleanup := state.dnsCleanup)
      ensures Swept(old(env.sum), env.sum, {LastOf(old(state))}, r.Ok?)
      ensures r.Ok? ==> Synced() && state.dnsCleanup == old(state.dnsCleanup[..|state.dnsCleanup| - 1])
      ensures r != Err(State)
    {
      JournalIsInScope(env.cfg, state, LastOf(state));
      var ok := InScope(env.cfg, LastOf(state));
      if ok {
        r := RemoveLast();
      } else {
        r := Err(State);
      }
    }

    method RemoveLast() returns (r: Result<(), ManagerError>)
      requires DiskOk() && Good(env.cfg, state, env.sum) && state.dnsCleanup != []
      modifies this, env, store, store.disk
      ensures DiskOk() && Good(env.cfg, state, env.sum) && old(env.trace) <= env.trace
      ensures state == old(state).(dnsCleanup := state.dnsCleanup)
      ensures Swept(old(env.sum), env.sum, {LastOf(old(state))}, r.Ok?)
      ensures r.Ok? ==> Synced() && state.dnsCleanup == old(state.dnsCleanup[..|state.dnsCleanup| - 1])
      ensures r.Err? ==> r.error == Dns || r.error == Storage
    {
      var ok := WithdrawLast();
      if !ok { return Err(Dns); }
      ok := Forget();
      SweptAtLeast(old(env.sum), env.sum, {LastOf(old(state))}, ok);
      r := if ok then Ok(()) else Err(Storage);
    }

    /** The scope check before a value is touched. */
    static method InScope(cfg: Config, record: DnsRecord) returns (ok: bool)
      ensures ok <==> cfg.dns.Some? && ValidFor(record, cfg.dns.value.scope)
    {
      ok := cfg.dns.Some? && ValidFor(record, cfg.dns.value.scope);
    }

    /** Asks the provider to remove the last journaled value. */
    method WithdrawLast() returns (ok: bool)
      requires DiskOk() && Good(env.cfg, state, env.sum) && state.dnsCleanup != []
      modifies env`trace, env`sum
      ensures DiskOk() && Good(env.cfg, state, env.sum) && old(env.trace) <= env.trace
      ensures Swept(old(env.sum), env.sum, {LastOf(old(state))}, ok)
      ensures ok ==> LastIsGone(state, env.sum)
    {
      ghost var before := env.sum;
      var last := LastOf(state);
      assert last in state.dnsCleanup;
      var removed;
      ok, removed := env.CleanupTxt(last);
      DiskSurvives(env.cfg, Possible(store.disk.fs), before, Cleanup(last, removed));
      GoodSurvives(env.cfg, state, before, Cleanup(last, removed));
    }

    /** Drops the last journal entry, whose value is gone. */
    method Forget() returns (ok: bool)
      requires DiskOk() && Good(env.cfg, state, env.sum) && LastIsGone(state, env.sum)
      modifies this, store, store.disk
      ensures DiskOk() && Good(env.cfg, state, env.sum)
      ensures state == old(state).(dnsCleanup := old(state.dnsCleanup[..|state.dnsCleanup| - 1]))
      ensures ok ==> Synced()
    {
      PopKeepsGood(env.cfg, state, env.sum);
      state := state.(dnsCleanup := state.dnsCleanup[..|state.dnsCleanup| - 1]);
      ok := Persist();
    }

    // -------------------------------------------------------------- issuance

    /** One bounded issuance or recovery attempt. `privateKey` and `csr` are what the
        key generator would produce if a new order is needed. */
    method Issue(now: U64, privateKey: Pem, csr: Bytes) returns (r: Result<IssuedCertificate, ManagerError>)
      requires Valid()
      requires |privateKey| <= 8192 && |csr| <= 64 * 1024
      modifies this, env, store, store.disk
      ensures Valid() && old(env.trace) <= env.trace
      // success leaves none of this manager's values at the provider
      ensures r.Ok? ==> env.sum.ours == {} && state.dnsCleanup == [] && env.sum.current == Some(r.value)
      // the account key and the pair in service are left alone
      ensures KeepsPair(old(state), state)
      // too early, or with an order of unknown fate, nothing is touched at all
      ensures now < old(state.nextAttempt) ==> r == Err(NotDue)
      ensures now >= old(state.nextAttempt) && Uncertain(old(state)) ==> r == Err(UncertainOrder)
      ensures now < old(state.nextAttempt) || Uncertain(old(state)) ==>
                state == old(state) && env.trace == old(env.trace) && store.disk.fs == old(store.disk.fs)
    {
      if now < state.nextAttempt { return Err(NotDue); }
      if Uncertain(state) { return Err(UncertainOrder); }
      var prepared := Prepare(now);
      if prepared.Err? { return Err(prepared.error); }
      r := IssueInner(now, privateKey, csr);
      var finished := Finish();
      if finished.Err? { return Err(finished.error); }
    }

    /** What follows an attempt, however it ended: honour Retry-After, then clean up. */
    method Finish() returns (r: Result<(), ManagerError>)
      requires DiskOk() && Good(env.cfg, state, env.sum)
      modifies this, env, store, store.disk
      ensures Valid() && old(env.trace) <= env.trace
      ensures env.sum.current == old(env.sum.current) && KeepsPair(old(state), state)
      ensures r.Ok? ==> env.sum.ours == {} && state.dnsCleanup == []
    {
      var dropped: bool := *;
      if dropped { return Err(Dropped); }
      var retryAfter: U64 := *;
      if retryAfter > state.nextAttempt {
        DelayKeepsGood(env.cfg, state, env.sum, retryAfter);
        state := state.(nextAttempt := retryAfter);
        var ok := Persist();
        if !ok { return Err(Storage); }
      }
      r := CleanupDns();
    }

    /** What precedes any contact: the schedule is durable and the journal empty. */
    method Prepare(now: U64) returns (r: Result<(), ManagerError>)
      requires Valid() && state.nextAttempt <= now
      modifies this, env, store, store.disk
      ensures Valid() && old(env.trace) <= env.trace && KeepsPair(old(state), state)
      ensures r.Ok? ==> Synced() && state.dnsCleanup == [] && MayContact(env.cfg, state, env.sum, now)
    {
      var scheduled := Schedule(now);
      if !scheduled { return Err(Storage); }
      ghost var s, sum := state, env.sum;
      r := CleanupDns();
      MayStillContact(env.cfg, s, sum, state, env.sum, now);
    }

    /** Persists the next permitted attempt before anything is contacted. */
    method Schedule(now: U64) returns (ok: bool)
      requires Valid() && state.nextAttempt <= now
      modifies this, store, store.disk
      ensures Valid() && state == Scheduled(old(state), now)
      ensures ok ==> Synced() && MayContact(env.cfg, state, env.sum, now)
    {
      if Good(env.cfg, state, env.sum) {
        ScheduleHoldsBackoff(env.cfg, state, env.sum, now);
      } else {
        PoisonStays(env.cfg, state, env.sum, store.writeFailed, now);
      }
      state := Scheduled(state, now);
      ok := Persist();
    }

    method IssueInner(now: U64, privateKey: Pem, csr: Bytes) returns (r: Result<IssuedCertificate, ManagerError>)
      requires Synced() && state.dnsCleanup == [] && MayContact(env.cfg, state, env.sum, now)
      requires |privateKey| <= 8192 && |csr| <= 64 * 1024
      modifies this, env, store, store.disk
      ensures DiskOk() && Good(env.cfg, state, env.sum) && old(env.trace) <= env.trace
      ensures r.Ok? ==> env.sum.current == Some(r.value)
      ensures KeepsPair(old(state), state)
    {
      var order := ReachOrder(now, privateKey, csr);
      if order.Err? { return Err(order.error); }
      var names := AuthorizeAll();
      if names.Err? { return Err(names.error); }
      r := Drive(order.value, names.value);
    }

    /** Contacts the authority and obtains the order, new or resumed. */
    method ReachOrder(now: U64, privateKey: Pem, csr: Bytes) returns (r: Result<Url, ManagerError>)
      requires Synced() && MayContact(env.cfg, state, env.sum, now)
      requires |privateKey| <= 8192 && |csr| <= 64 * 1024
      modifies this, env, store, store.disk
      ensures DiskOk() && Good(env.cfg, state, env.sum) && old(env.trace) <= env.trace
      ensures Underway(env.sum) && state == old(state).(accountId := state.accountId, order := state.order)
      ensures r.Ok? ==> state.order.Some? && state.order.value.url == Some(r.value)
    {
      Reach(now);
      r := OpenOrderUrl(privateKey, csr);
    }

    method OpenOrderUrl(privateKey: Pem, csr: Bytes) returns (r: Result<Url, ManagerError>)
      requires DiskOk() && Good(env.cfg, state, env.sum) && Underway(env.sum)
      requires |privateKey| <= 8192 && |csr| <= 64 * 1024
      modifies this, env, store, store.disk
      ensures DiskOk() && Good(env.cfg, state, env.sum) && old(env.trace) <= env.trace
      ensures Underway(env.sum) && state == old(state).(accountId := state.accountId, order := state.order)
      ensures r.Ok? ==> state.order.Some? && state.order.value.url == Some(r.value)
    {
      var account := ObtainAccount();
      if account.Err? { return Err(account.error); }
      r := ObtainOrder(privateKey, csr);
    }

    method Reach(now: U64)
      requires Synced() && MayContact(env.cfg, state, env.sum, now)
      modifies env`trace, env`sum
      ensures DiskOk() && Good(env.cfg, state, env.sum) && old(env.trace) <= env.trace
      ensures Underway(env.sum)
    {
      ContactIsBackedOff(env.cfg, state, env.sum, now);
      env.Log(Contact(now));
    }

    method ObtainAccount() returns (r: Result<(), ManagerError>)
      requires DiskOk() && Good(env.cfg, state, env.sum)
      modifies this, store, store.disk
      ensures DiskOk() && Good(env.cfg, state, env.sum)
      ensures state == old(state).(accountId := state.accountId)
    {
      var ok: bool := *;
      if !ok { return Err(Authority); }
      if state.accountId.None? {
        var id: Url := *;
        if !env.cfg.permits(id) { return Err(Authority); }
        AccountKeepsGood(env.cfg, state, env.sum, id);
        state := state.(accountId := Some(id));
        ok := Persist();
        if !ok { return Err(Storage); }
      }
      r := Ok(());
    }

    /** Resumes the recorded order, or writes its key and CSR ahead, sends newOrder
        and records the URL. */
    method ObtainOrder(privateKey: Pem, csr: Bytes) returns (r: Result<Url, ManagerError>)
      requires DiskOk() && Good(env.cfg, state, env.sum) && Underway(env.sum)
      requires |privateKey| <= 8192 && |csr| <= 64 * 1024
      modifies this, env, store, store.disk
      ensures DiskOk() && Good(env.cfg, state, env.sum) && old(env.trace) <= env.trace
      ensures Underway(env.sum) && state == old(state).(order := state.order)
      ensures r.Ok? ==> state.order.Some? && state.order.value.url == Some(r.value)
    {
      var ok: bool := *;
      if state.order.Some? {
        if state.order.value.url.None? { return Err(UncertainOrder); }
        if !ok { return Err(Authority); }
        return Ok(state.order.value.url.value);
      }
      WriteAheadKeepsGood(env.cfg, state, env.sum, privateKey, csr);
      state := state.(order := Some(PendingOrder(None, privateKey, csr)));
      ok := Persist();
      if !ok { return Err(Storage); }
      r := SendNewOrder(privateKey, csr);
    }

    method SendNewOrder(privateKey: Pem, csr: Bytes) returns (r: Result<Url, ManagerError>)
      requires Synced() && state.order == Some(PendingOrder(None, privateKey, csr))
      requires env.sum.open.None? && Underway(env.sum)
      modifies this, env, store, store.disk
      ensures DiskOk() && Good(env.cfg, state, env.sum) && old(env.trace) <= env.trace
      ensures Underway(env.sum) && state == old(state).(order := state.order)
      ensures r.Ok? ==> state.order.Some? && state.order.value.url == Some(r.value)
    {
      ghost var before := env.sum;
      var reply, e := env.NewOrder(privateKey, csr, Possible(store.disk.fs));
      NewOrderIsCarried(env.cfg, state, before, e);
      if reply.None? || !env.cfg.permits(reply.value) { return Err(Authority); }
      r := RecordUrl(reply.value);
    }

    method RecordUrl(url: Url) returns (r: Result<Url, ManagerError>)
      requires DiskOk() && Good(env.cfg, state, env.sum)
      requires state.order.Some? && state.order.value.url.None? && IsOpen(env.sum, url) && env.cfg.permits(url)
      requires url in env.sum.made && env.sum.made[url] == Made(state.order.value.privateKey, state.order.value.csr)
      modifies this, env`trace, env`sum, store, store.disk
      ensures DiskOk() && Good(env.cfg, state, env.sum) && old(env.trace) <= env.trace
      ensures SameAttempt(old(env.sum), env.sum) && state == old(state).(order := state.order)
      ensures r.Ok? ==> state.order.Some? && state.order.value.url == Some(url) == Some(r.value)
    {
      DiskSurvives(env.cfg, Possible(store.disk.fs), env.sum, Replied(url));
      GoodSurvives(env.cfg, state, env.sum, Replied(url));
      env.Log(Replied(url));
      UrlKeepsGood(env.cfg, state, env.sum, url);
      state := state.(order := Some(state.order.value.(url := Some(url))));
      var ok := Persist();
      if !ok { return Err(Storage); }
      r := Ok(url);
    }

    /** An order's URL is recorded and the authority has been contacted. */
    ghost predicate Authorizing()
      reads this, env
    {
      state.order.Some? && state.order.value.url.Some? && env.sum.contacts > 0
    }

    /** Every authorization of the order, each for a configured identifier seen once. */
    method AuthorizeAll() returns (r: Result<seq<Domain>, ManagerError>)
      requires DiskOk() && Good(env.cfg, state, env.sum) && state.dnsCleanup == [] && Authorizing()
      modifies this, env`trace, env`sum, store, store.disk
      ensures DiskOk() && Good(env.cfg, state, env.sum) && old(env.trace) <= env.trace
      ensures SameAttempt(old(env.sum), env.sum) && state == old(state).(dnsCleanup := state.dnsCleanup)
      ensures r.Ok? ==> Distinct(r.value)
    {
      var count: nat :| true;
      if count > 100 { return Err(Authority); }
      var names: seq<Domain> := [];
      for i := 0 to count
        invariant DiskOk() && Good(env.cfg, state, env.sum) && old(env.trace) <= env.trace
        invariant SameAttempt(old(env.sum), env.sum) && state == old(state).(dnsCleanup := state.dnsCleanup)
        invariant |state.dnsCleanup| <= i && Distinct(names)
      {
        var one := AuthorizeOne(names);
        if one.Err? { return Err(one.error); }
        names := names + [one.value];
      }
      r := Ok(names);
    }

    method AuthorizeOne(names: seq<Domain>) returns (r: Result<Domain, ManagerError>)
      requires DiskOk() && Good(env.cfg, state, env.sum) && |state.dnsCleanup| < 100 && Authorizing()
      modifies this, env`trace, env`sum, store, store.disk
      ensures DiskOk() && Good(env.cfg, state, env.sum) && old(env.trace) <= env.trace
      ensures SameAttempt(old(env.sum), env.sum) && state == old(state).(dnsCleanup := state.dnsCleanup)
      ensures |state.dnsCleanup| <= |old(state.dnsCleanup)| + 1
      ensures r.Ok? ==> r.value !in names
    {
      var ok: bool := *;
      if !ok { return Err(Authority); }
      var identifier: string := *;
      var parsed := if env.cfg.dns.Some? then ParseDns01(identifier) else Parse(identifier);
      if parsed.Err? { return Err(Challenge); }
      var domain := parsed.value;
      if domain !in env.cfg.domains || domain in names { return Err(Challenge); }
      var status: AuthorizationStatus := *;
      if status == AuthorizationValid { return Ok(domain); }
      if status != AuthorizationPending { return Err(Challenge); }
      ok := *;
      if !ok { return Err(Challenge); }          // no challenge of the wanted type
      if env.cfg.dns.Some? {
        var published := PublishTxt(domain);
        if published.Err? { return Err(published.error); }
      } else {
        ok := *;
        if !ok { return Err(Challenge); }        // the HTTP-01 registry refuses
      }
      ok := *;
      if !ok { return Err(Authority); }
      r := Ok(domain);
    }

    /** Journals the exact value, and only then publishes it. */
    method PublishTxt(domain: Domain) returns (r: Result<(), ManagerError>)
      requires DiskOk() && Good(env.cfg, state, env.sum) && |state.dnsCleanup| < 100 && Authorizing()
      requires env.cfg.dns.Some? && domain in env.cfg.domains
      modifies this, env`trace, env`sum, store, store.disk
      ensures DiskOk() && Good(env.cfg, state, env.sum) && old(env.trace) <= env.trace
      ensures SameAttempt(old(env.sum), env.sum) && state == old(state).(dnsCleanup := state.dnsCleanup)
      ensures |state.dnsCleanup| <= |old(state.dnsCleanup)| + 1
    {
      var value: string := *;
      var built := NewRecord(domain, value);
      if built.Err? || !env.cfg.dns.value.scope.Permits(domain) { return Err(Dns); }
      var record := built.value;
      RecordForConfiguredDomain(env.cfg, domain, value);
      Intend(record);
      state := state.(dnsCleanup := state.dnsCleanup + [record]);
      var ok := Persist();
      if !ok { return Err(Storage); }
      ok := PresentJournaled(record);
      if !ok { return Err(Dns); }
      var ready, polls: nat := false, *;
      while !ready && polls > 0 {
        ready := *;
        polls := polls - 1;
      }
      r := if ready then Ok(()) else Err(Timeout);
    }

    method PresentJournaled(record: DnsRecord) returns (ok: bool)
      requires Synced() && record in state.dnsCleanup && record in env.sum.intents
      modifies env`trace, env`sum
      ensures DiskOk() && Good(env.cfg, state, env.sum) && old(env.trace) <= env.trace
      ensures SameAttempt(old(env.sum), env.sum)
    {
      ghost var before := env.sum;
      var durable := Possible(store.disk.fs);
      var landed;
      ok, landed := env.PresentTxt(record, durable);
      PresentIsJournaled(env.cfg, state, before, Present(record, landed, durable));
    }

    method Intend(record: DnsRecord)
      requires DiskOk() && Good(env.cfg, state, env.sum) && |state.dnsCleanup| < 100 && Authorizing()
      requires AcceptableRecord(env.cfg, record)
      modifies env`trace, env`sum
      ensures DiskOk() && old(env.trace) <= env.trace
      ensures Good(env.cfg, state.(dnsCleanup := state.dnsCleanup + [record]), env.sum)
      ensures record in env.sum.intents && SameAttempt(old(env.sum), env.sum)
    {
      var e := Intent(record, state.order.value.url.value);
      MayFinish(env.cfg, state, env.sum, []);
      Record(e);
      PushKeepsGood(env.cfg, state, env.sum, record);
    }

    /** Polls the order to its end, finalizing with the recorded CSR. */
    method Drive(url: Url, names: seq<Domain>) returns (r: Result<IssuedCertificate, ManagerError>)
      requires DiskOk() && Good(env.cfg, state, env.sum) && env.sum.current.None? && Distinct(names)
      requires state.order.Some? && state.order.value.url == Some(url)
      modifies this, env`trace, env`sum, store, store.disk
      ensures DiskOk() && Good(env.cfg, state, env.sum) && old(env.trace) <= env.trace
      ensures r.Ok? ==> env.sum.current == Some(r.value)
      ensures state == old(state).(order := state.order)
    {
      if (set d | d in names) != env.cfg.domains { return Err(Challenge); }
      var rounds: nat := *;
      while rounds > 0
        invariant DiskOk() && Good(env.cfg, state, env.sum) && old(env.trace) <= env.trace
        invariant state == old(state) && env.sum == old(env.sum)
      {
        var status: OrderStatus := *;
        var ok: bool := *;
        match status {
          case OrderPending => {}
          case OrderProcessing => {}
          case OrderReady =>
            MayFinish(env.cfg, state, env.sum, names);
            Record(Finalize(url, state.order.value.csr, names));
            if !ok { return Err(Authority); }
          case OrderValid =>
            if !ok { return Err(Authority); }
            r := Collect(url);
            return;
          case OrderInvalid =>
            r := Abandon(url);
            return;
        }
        ok := *;
        if !ok { return Err(Authority); }        // refresh
        rounds := rounds - 1;
      }
      r := Err(Timeout);
    }

    method Collect(url: Url) returns (r: Result<IssuedCertificate, ManagerError>)
      requires DiskOk() && Good(env.cfg, state, env.sum) && env.sum.current.None?
      requires state.order.Some? && state.order.value.url == Some(url)
      modifies env`trace, env`sum
      ensures DiskOk() && Good(env.cfg, state, env.sum) && old(env.trace) <= env.trace
      ensures r.Ok? && env.sum.current == Some(r.value) && r.value.privateKey == state.order.value.privateKey
    {
      var pem: Pem := *;
      var pair := IssuedCertificate(pem, state.order.value.privateKey);
      MayFinish(env.cfg, state, env.sum, []);
      Record(Returned(url, pair));
      r := Ok(pair);
    }

    method Abandon(url: Url) returns (r: Result<IssuedCertificate, ManagerError>)
      requires DiskOk() && Good(env.cfg, state, env.sum)
      requires state.order.Some? && state.order.value.url == Some(url)
      modifies this, env`trace, env`sum, store, store.disk
      ensures DiskOk() && Good(env.cfg, state, env.sum) && old(env.trace) <= env.trace
      ensures r.Err? && state == old(state).(order := None)
    {
      MayFinish(env.cfg, state, env.sum, []);
      Record(ObservedInvalid(url));
      ClearKeepsGood(env.cfg, state, env.sum);
      state := state.(order := None);
      var ok := Persist();
      r := Err(if ok then Authority else Storage);
    }

    /** Logs an event that no snapshot has to answer for. */
    method Record(e: Event)
      requires DiskOk() && Good(env.cfg, state, env.sum)
      requires Legal(env.cfg, env.sum, e) && Harmless(e)
      modifies env`trace, env`sum
      ensures DiskOk() && Good(env.cfg, state, env.sum)
      ensures env.sum == Apply(old(env.sum), e) && old(env.trace) <= env.trace
    {
      DiskSurvives(env.cfg, Possible(store.disk.fs), env.sum, e);
      GoodSurvives(env.cfg, state, env.sum, e);
      env.Log(e);
    }

    // -------------------------------------------------------------- operator calls

    /** Commits the pair with the order cleared, in one snapshot. `expires` is the
        validator's verdict. The caller passes the pair the last `issue` returned
        while that order is still open. */
    method Install(issued: IssuedCertificate, expires: Option<U64>, now: U64) returns (r: Result<(), ManagerError>)
      requires Valid()
      requires env.sum.open.Some? ==> env.sum.current == Some(issued)
      modifies this, env`trace, env`sum, store, store.disk
      ensures Valid() && old(env.trace) <= env.trace
      ensures r.Ok? ==> Synced()
      ensures expires.Some? && old(state.dnsCleanup) == [] ==>
                state == old(state).(nextAttempt := RenewAt(old(state), expires.value, now), installed := Some(issued),
                                     failures := 0, order := None)
      ensures r.Ok? ==> env.trace == old(env.trace) + [Installed(issued)]
      ensures r.Err? ==> env.trace == old(env.trace)
      // a refused candidate leaves the previous pair, in memory and on disk
      ensures expires.None? || old(state.dnsCleanup) != [] ==>
                r.Err? && state == old(state) && store.disk.fs == old(store.disk.fs)
    {
      if state.dnsCleanup != [] { return Err(Dns); }
      if expires.None? { return Err(Crypto); }
      state := state.(nextAttempt := RenewAt(state, expires.value, now),
                      installed := Some(issued), failures := 0, order := None);
      r := CommitInstall(issued);
    }

    method CommitInstall(issued: IssuedCertificate) returns (r: Result<(), ManagerError>)
      requires DiskOk() && Acceptable(env.cfg, state) && state.installed == Some(issued)
      requires state.order.None? && state.dnsCleanup == [] && env.sum.ours == {}
      requires env.sum.open.Some? ==> env.sum.current == Some(issued)
      modifies env`trace, env`sum, store, store.disk
      ensures Valid()
      ensures r.Ok? ==> Synced() && env.trace == old(env.trace) + [Installed(issued)]
      ensures r.Err? ==> env.trace == old(env.trace)
    {
      var ok := Persist();
      if !ok { return Err(Storage); }
      LandedIsGood(env.cfg, state, env.sum);
      env.Log(Installed(issued));
      r := Ok(());
    }

    /** The operator supplies the URL of the order this pending record created. */
    method ReconcileOrder(url: Url) returns (r: Result<(), ManagerError>)
      requires Valid()
      requires state.order.Some? ==>
                 url in env.sum.made && env.sum.made[url] == Made(state.order.value.privateKey, state.order.value.csr)
      requires env.sum.open.Some? ==> IsOpen(env.sum, url)
      modifies this, env`trace, env`sum, store, store.disk
      ensures Valid() && old(env.trace) <= env.trace
      ensures r.Ok? ==> state.order.Some? && state.order.value.url == Some(url) && Synced()
      ensures state == old(state).(order := state.order)
      ensures !env.cfg.permits(url) || !Uncertain(old(state)) ==>
                r == Err(State) && state == old(state) && store.disk.fs == old(store.disk.fs)
    {
      if !env.cfg.permits(url) { return Err(State); }
      if !Uncertain(state) { return Err(State); }
      Record(Reconciled(url));
      UrlKeepsGood(env.cfg, state, env.sum, url);
      state := state.(order := Some(state.order.value.(url := Some(url))));
      var ok := Persist();
      if !ok { return Err(Storage); }
      r := Ok(());
    }
  }
}
