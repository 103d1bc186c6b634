/** Every run: any sequence of calls, process restarts and power losses, over the
    same disk, authority and provider. Each call may itself stop at any await. */
module AcmeRuns {
  import opened Wrappers
  import opened SnapshotStore
  import opened AcmeState
  import opened AcmeTrace
  import opened AcmeInvariant
  import opened AcmeManager

  datatype Action =
    | CallIssue(now: U64, privateKey: Pem, csr: Bytes)
    | CallInstall(pair: IssuedCertificate, expires: Option<U64>, now: U64)
    | CallReconcile(url: Url)
    | CallCleanup
    | Restart(freshKey: Bytes)
    | LosePower(freshKey: Bytes)

  /** What is assumed of callers: the key generator respects its size bounds, install
      gets the pair just returned while that order is open, and the operator
      reconciles with the URL of the order the pending record created. */
  predicate Reasonable(cfg: Config, state: Snapshot, sum: Summary, a: Action) {
    match a
    case CallIssue(_, key, csr) => |key| <= 8192 && |csr| <= 64 * 1024
    case CallInstall(pair, _, _) => sum.open.Some? ==> sum.current == Some(pair)
    case CallReconcile(url) =>
      && (state.order.Some? ==> url in sum.made
                                && sum.made[url] == Made(state.order.value.privateKey, state.order.value.csr))
      && (sum.open.Some? ==> IsOpen(sum, url))
    case CallCleanup => true
    case Restart(key) => 0 < |key| <= 4096 && cfg.validKey(key)
    case LosePower(key) => 0 < |key| <= 4096 && cfg.validKey(key)
  }

  /** One call in a running session. */
  method Perform(m: Manager, a: Action)
    requires m.Valid() && Reasonable(m.env.cfg, m.state, m.env.sum, a)
    requires !a.Restart? && !a.LosePower?
    modifies m, m.env, m.store, m.store.disk
    ensures m.Valid() && old(m.env.trace) <= m.env.trace
  {
    match a {
      case CallIssue(now, key, csr) => var _ := m.Issue(now, key, csr);
      case CallInstall(pair, expires, now) => var _ := m.Install(pair, expires, now);
      case CallReconcile(url) => var _ := m.ReconcileOrder(url);
      case CallCleanup => var _ := m.CleanupDns();
    }
  }

  /** After any script the history is lawful, every TXT value this manager presented
      and did not remove is in every snapshot a power loss could leave, and every
      snapshot ever written would pass `open`. */
  method EveryRun(cfg: Config, script: seq<Action>) returns (env: Environment, disk: Disk<Snapshot>)
    requires cfg.Valid()
    ensures fresh(env) && fresh(disk) && env.Valid() && env.cfg == cfg && disk.Valid()
    ensures Lawful(cfg, env.trace) && env.sum == Fold(env.trace)
    ensures forall d, r | d in Possible(disk.fs) && r in env.sum.ours :: d.Some? && r in d.value.dnsCleanup
    ensures forall i | 0 <= i < |disk.log| :: Acceptable(cfg, disk.log[i].payload)
  {
    env := new Environment(cfg);
    disk := new Disk<Snapshot>();
    var session: Option<Manager> := None;
    for i := 0 to |script|
      invariant fresh(env) && fresh(disk) && env.Valid() && env.cfg == cfg && disk.Valid()
      invariant DiskGood(cfg, Possible(disk.fs), env.sum) && LogAcceptable(cfg, disk.log)
      invariant session.Some? ==>
                  var m := session.value;
                  fresh(m) && fresh(m.store) && m.env == env && m.store.disk == disk && m.Valid()
    {
      var a := script[i];
      match a {
        case Restart(key) =>
          if 0 < |key| <= 4096 && cfg.validKey(key) {
            session := Start(env, disk, key);
          }
        case LosePower(key) =>
          disk.PowerLoss();
          session := None;
          if 0 < |key| <= 4096 && cfg.validKey(key) {
            session := Start(env, disk, key);
          }
        case _ =>
          if session.Some? && Reasonable(cfg, session.value.state, env.sum, a) {
            Perform(session.value, a);
          }
      }
    }
    DiskJournalsTxt(cfg, Possible(disk.fs), env.sum);
  }

  lemma {:induction false} DiskJournalsTxt(cfg: Config, durable: set<Option<Snapshot>>, sum: Summary)
    requires DiskGood(cfg, durable, sum)
    ensures forall d, r | d in durable && r in sum.ours :: d.Some? && r in d.value.dnsCleanup
  {
    forall d, r | d in durable && r in sum.ours ensures d.Some? && r in d.value.dnsCleanup {
      assert OnDisk(cfg, d, sum);
    }
  }

  method Start(env: Environment, disk: Disk<Snapshot>, freshKey: Bytes) returns (session: Option<Manager>)
    requires env.Valid() && disk.Valid()
    requires DiskGood(env.cfg, Possible(disk.fs), env.sum) && LogAcceptable(env.cfg, disk.log)
    requires 0 < |freshKey| <= 4096 && env.cfg.validKey(freshKey)
    modifies env, disk
    ensures env.Valid() && disk.Valid()
    ensures DiskGood(env.cfg, Possible(disk.fs), env.sum) && LogAcceptable(env.cfg, disk.log)
    ensures session.Some? ==>
              var m := session.value;
              fresh(m) && fresh(m.store) && m.env == env && m.store.disk == disk && m.Valid()
  {
    var outcome := Manager.Open(env, disk, freshKey);
    session := if outcome.Ok? then Some(outcome.value) else None;
  }
}
