/** Any number of publishers against one object store: the compare-and-swap
    publication lock and the ordered, conditional upload of a site snapshot.

    A request may reach the store at any later moment, even after its sender gave
    up; a reply may never be read. An entity tag is the stored content itself, which
    fresh lock tokens make unique, and a SHA-256 digest stands for its payload. */
module Publication {
  import opened Wrappers
  import opened PublishOrder

  datatype Release = Release(major: nat, minor: nat, patch: nat, revision: nat)

  predicate ReleaseLeq(a: Release, b: Release) {
    || a.major < b.major
    || (a.major == b.major && (
          || a.minor < b.minor
          || (a.minor == b.minor && (
                || a.patch < b.patch
                || (a.patch == b.patch && a.revision <= b.revision)))))
  }

  datatype Content =
    | Lock(token: nat, held: bool)
    | Pointer(release: Release, body: seq<nat>)
    | Payload(body: seq<nat>)

  datatype Condition = Unconditional | IfAbsent | IfMatch(tag: Content)

  datatype Request = Get(key: Name) | Put(key: Name, content: Content, condition: Condition)

  datatype Response = NotFound | Found(content: Content) | Stored | PreconditionFailed

  datatype Wire = Quiet | InFlight | Answered(response: Response)

  /** A verified site snapshot in the order of its upload, with the publisher's
      arguments. */
  datatype Job = Job(
    uploads: seq<Name>, objects: map<Name, Content>, release: Release,
    previous: Option<Content>, previousPointer: Option<Content>)

  /** What a publisher makes of the files of a snapshot. */
  function Staged(files: seq<Name>, objects: map<Name, Content>, release: Release,
                  previous: Option<Content>, previousPointer: Option<Content>): Job
  {
    Job(Order(files), objects, release, previous, previousPointer)
  }

  datatype Phase =
    | ReadLock | WriteLock | CheckLock
    | Heads(done: nat) | ReadPointer
    | Upload(next: nat) | Compare(next: nat)
    | Unlock | Finished

  datatype Publisher = Publisher(
    job: Job, token: nat, phase: Phase, wire: Wire, alive: bool,
    lockCondition: Condition, heads: map<Name, Condition>)

  datatype System = System(store: map<Name, Content>, publishers: map<nat, Publisher>)

  const MARKERS: seq<Name> := [
    STABLE, IN_RELEASE, "rpm/x86_64/repodata/repomd.xml", "rpm/aarch64/repodata/repomd.xml"]

  // ---------------------------------------------------------------- the store

  predicate Admits(store: map<Name, Content>, key: Name, condition: Condition) {
    match condition
    case Unconditional => true
    case IfAbsent => key !in store
    case IfMatch(tag) => key in store && store[key] == tag
  }

  function Handle(store: map<Name, Content>, request: Request): (map<Name, Content>, Response) {
    match request
    case Get(key) => (store, if key in store then Found(store[key]) else NotFound)
    case Put(key, content, condition) =>
      if Admits(store, key, condition) then (store[key := content], Stored) else (store, PreconditionFailed)
  }

  // ---------------------------------------------------------------- one publisher

  /** Each object once, `last` at the end, `apart` not among them. */
  ghost predicate Shaped(u: seq<Name>, objects: map<Name, Content>, last: Name, apart: Name) {
    && NoDuplicates(u) && |u| > 0 && u[|u| - 1] == last
    && (forall i | 0 <= i < |u| :: u[i] in objects && u[i] != apart)
    && (forall f :: f in objects <==> f in u)
  }

  ghost predicate JobOk(job: Job) {
    && Shaped(job.uploads, job.objects, STABLE, LOCK_KEY)
    && STABLE in job.objects && job.objects[STABLE].Pointer? && job.objects[STABLE].release == job.release
  }

  ghost predicate PhaseOk(pub: Publisher) {
    match pub.phase
    case Heads(i) => i < |MARKERS|
    case Upload(i) => i < |pub.job.uploads| && pub.job.uploads[i] in pub.job.objects
    case Compare(i) => i < |pub.job.uploads| && pub.job.uploads[i] in pub.job.objects
    case Finished => !pub.wire.InFlight?
    case _ => true
  }

  function ConditionFor(pub: Publisher, name: Name): Condition {
    if Immutable(name) then IfAbsent
    else if name in pub.heads then pub.heads[name]
    else Unconditional
  }

  /** The request a publisher has on the wire. */
  function RequestOf(pub: Publisher): Request
    requires PhaseOk(pub) && !pub.phase.Finished?
  {
    match pub.phase
    case ReadLock => Get(LOCK_KEY)
    case WriteLock => Put(LOCK_KEY, Lock(pub.token, true), pub.lockCondition)
    case CheckLock => Get(LOCK_KEY)
    case Heads(i) => Get(MARKERS[i])
    case ReadPointer => Get(STABLE)
    case Upload(i) =>
      var name := pub.job.uploads[i];
      Put(name, pub.job.objects[name], ConditionFor(pub, name))
    case Compare(i) => Get(pub.job.uploads[i])
    case Unlock => Put(LOCK_KEY, Lock(pub.token, false), IfMatch(Lock(pub.token, true)))
  }

  function Ask(pub: Publisher, phase: Phase): Publisher {
    pub.(phase := phase, wire := InFlight)
  }

  function Abort(pub: Publisher): Publisher {
    pub.(alive := false, wire := Quiet)
  }

  function UploadFrom(pub: Publisher, i: nat): Publisher {
    if i < |pub.job.uploads| then Ask(pub, Upload(i)) else Ask(pub, Unlock)
  }

  function AfterHeads(pub: Publisher): Publisher {
    if STABLE in pub.heads && pub.heads[STABLE].IfMatch? then Ask(pub, ReadPointer)
    else if pub.job.previous.None? && pub.job.previousPointer.None? then UploadFrom(pub, 0)
    else Abort(pub)
  }

  /** What a publisher does with a reply. */
  function Advance(pub: Publisher, response: Response): Publisher
    requires PhaseOk(pub)
  {
    match pub.phase
    case ReadLock =>
      if response.NotFound? then Ask(pub.(lockCondition := IfAbsent), WriteLock)
      else if response.Found? && response.content.Lock? && !response.content.held then
        Ask(pub.(lockCondition := IfMatch(response.content)), WriteLock)
      else Abort(pub)
    case WriteLock => if response.Stored? then Ask(pub, CheckLock) else Abort(pub)
    case CheckLock =>
      if response == Found(Lock(pub.token, true)) then Ask(pub, Heads(0)) else Abort(pub)
    case Heads(i) =>
      if response.Found? || response.NotFound? then
        var condition := if response.Found? then IfMatch(response.content) else IfAbsent;
        var learned := pub.(heads := pub.heads[MARKERS[i] := condition]);
        if i + 1 < |MARKERS| then Ask(learned, Heads(i + 1)) else AfterHeads(learned)
      else Abort(pub)
    case ReadPointer =>
      if && response.Found? && response.content.Pointer?
         && pub.job.previous == Some(response.content)
         && (pub.job.previousPointer.Some? ==> pub.job.previousPointer == Some(response.content))
         && ReleaseLeq(response.content.release, pub.job.release)
      then UploadFrom(pub, 0) else Abort(pub)
    case Upload(i) =>
      if response.Stored? then UploadFrom(pub, i + 1)
      else if response.PreconditionFailed? && Immutable(pub.job.uploads[i]) then Ask(pub, Compare(i))
      else Abort(pub)
    case Compare(i) =>
      if response == Found(pub.job.objects[pub.job.uploads[i]]) then UploadFrom(pub, i + 1) else Abort(pub)
    case Unlock => if response.Stored? then pub.(phase := Finished, wire := Quiet) else Abort(pub)
    case Finished => pub
  }

  // ---------------------------------------------------------------- the system

  datatype Step =
    | Begin(p: nat, job: Job, token: nat)
    | Serve(p: nat)
    | Receive(p: nat)
    | Fail(p: nat)
    | Recover(replacement: Option<Content>)

  /** The publisher may still write: it runs inside the locked region, or a request it
      sent from there has not been handled yet. */
  predicate Holding(pub: Publisher) {
    match pub.phase
    case ReadLock => false
    case WriteLock => pub.alive && pub.wire == Answered(Stored)
    case Unlock => pub.wire.InFlight?
    case Finished => false
    case _ => pub.alive || pub.wire.InFlight?
  }

  ghost predicate Enabled(s: System, step: Step) {
    match step
    case Begin(p, job, token) =>
      p !in s.publishers && JobOk(job) && forall q | q in s.publishers :: s.publishers[q].token != token
    case Serve(p) => p in s.publishers && s.publishers[p].wire.InFlight?
    case Receive(p) => p in s.publishers && s.publishers[p].alive && s.publishers[p].wire.Answered?
    case Fail(p) => p in s.publishers
    case Recover(replacement) =>
      // the operator has made sure that no publisher is at work or has work outstanding
      && (forall q | q in s.publishers :: !Holding(s.publishers[q]))
      && !(replacement.Some? && replacement.value.Lock? && replacement.value.held)
  }

  ghost predicate Formed(s: System) {
    forall p | p in s.publishers ::
      JobOk(s.publishers[p].job) && PhaseOk(s.publishers[p])
  }

  function Perform(s: System, step: Step): System
    requires Formed(s) && Enabled(s, step)
  {
    match step
    case Begin(p, job, token) =>
      s.(publishers := s.publishers[p := Publisher(job, token, ReadLock, InFlight, true, IfAbsent, map[])])
    case Serve(p) =>
      var pub := s.publishers[p];
      var (store, response) := Handle(s.store, RequestOf(pub));
      System(store, s.publishers[p := pub.(wire := Answered(response))])
    case Receive(p) =>
      var pub := s.publishers[p];
      s.(publishers := s.publishers[p := Advance(pub, pub.wire.response)])
    case Fail(p) =>
      s.(publishers := s.publishers[p := s.publishers[p].(alive := false)])
    case Recover(replacement) =>
      if replacement.Some? then s.(store := s.store[LOCK_KEY := replacement.value])
      else s.(store := s.store - {LOCK_KEY})
  }

  // ---------------------------------------------------------------- the invariant

  /** The condition that demands `key` to be as it is in `store`. */
  function Witness(store: map<Name, Content>, key: Name): Condition {
    if key in store then IfMatch(store[key]) else IfAbsent
  }

  /** The first `n` uploads of the job are in place. */
  ghost predicate Placed(store: map<Name, Content>, job: Job, n: nat)
    requires n <= |job.uploads|
  {
    forall j | 0 <= j < n ::
      var name := job.uploads[j];
      name in job.objects && name in store && store[name] == job.objects[name]
  }

  /** stable.json is as the publisher saw it, and not newer than what it publishes. */
  ghost predicate Guarded(store: map<Name, Content>, pub: Publisher) {
    && STABLE in pub.heads && pub.heads[STABLE] == Witness(store, STABLE)
    && (STABLE in store ==> store[STABLE].Pointer? && ReleaseLeq(store[STABLE].release, pub.job.release))
  }

  /** A reply to a read is still what the store holds. */
  ghost predicate AnswerIsCurrent(store: map<Name, Content>, pub: Publisher)
    requires PhaseOk(pub) && !pub.phase.Finished?
  {
    var request := RequestOf(pub);
    request.Get? && pub.wire.Answered? ==> pub.wire.response == Handle(store, request).1
  }

  ghost predicate Owns(store: map<Name, Content>, token: nat) {
    LOCK_KEY in store && store[LOCK_KEY] == Lock(token, true)
  }

  /** What the locked region guarantees its publisher, phase by phase. */
  ghost predicate Progress(store: map<Name, Content>, pub: Publisher)
    requires PhaseOk(pub)
  {
    match pub.phase
    case Heads(i) => i > 0 ==> STABLE in pub.heads && pub.heads[STABLE] == Witness(store, STABLE)
    case ReadPointer => STABLE in pub.heads && pub.heads[STABLE] == Witness(store, STABLE)
    case Upload(i) =>
      if pub.wire == Answered(Stored) then
        Placed(store, pub.job, i + 1) && (i + 1 < |pub.job.uploads| ==> Guarded(store, pub))
      else Placed(store, pub.job, i) && Guarded(store, pub)
    case Compare(i) => Placed(store, pub.job, i) && Guarded(store, pub)
    case Unlock => Placed(store, pub.job, |pub.job.uploads|)
    case _ => true
  }

  ghost predicate HeldOk(store: map<Name, Content>, pub: Publisher)
    requires PhaseOk(pub) && Holding(pub)
  {
    Owns(store, pub.token) && AnswerIsCurrent(store, pub) && Progress(store, pub)
  }

  ghost predicate LocalOk(pub: Publisher) {
    && JobOk(pub.job) && PhaseOk(pub)
    && (pub.lockCondition.IfAbsent?
        || (pub.lockCondition.IfMatch? && pub.lockCondition.tag.Lock? && !pub.lockCondition.tag.held))
  }

  ghost predicate PublisherOk(store: map<Name, Content>, pub: Publisher) {
    LocalOk(pub) && (Holding(pub) ==> HeldOk(store, pub))
  }

  ghost predicate Inv(s: System) {
    && (forall p | p in s.publishers :: PublisherOk(s.store, s.publishers[p]))
    && (forall p, q | p in s.publishers && q in s.publishers && p != q ::
          s.publishers[p].token != s.publishers[q].token)
  }

  // ---------------------------------------------------------------- the uploads of a job

  /** What snapshot verification establishes. */
  ghost predicate Verified(files: seq<Name>, objects: map<Name, Content>, release: Release) {
    && NoDuplicates(files) && Lists(files, objects) && LOCK_KEY !in objects && STABLE in files
    && STABLE in objects && objects[STABLE].Pointer? && objects[STABLE].release == release
  }

  ghost predicate Lists(files: seq<Name>, objects: map<Name, Content>) {
    forall f :: f in files <==> f in objects
  }

  lemma {:induction false} ShapedFrom(u: seq<Name>, files: seq<Name>, objects: map<Name, Content>, apart: Name)
    requires Complete(u, files) && Lists(files, objects) && apart !in objects
    ensures Shaped(u, objects, STABLE, apart)
  {
    forall i | 0 <= i < |u| ensures u[i] in objects && u[i] != apart {
      assert u[i] in u && u[i] in files;
    }
    forall f ensures f in objects <==> f in u {
      assert f in u <==> f in files;
    }
  }

  /** The order of publication is one that every property below holds for. */
  lemma {:induction false} StagedIsOk(files: seq<Name>, objects: map<Name, Content>, release: Release,
                                      previous: Option<Content>, previousPointer: Option<Content>)
    requires Verified(files, objects, release)
    ensures JobOk(Staged(files, objects, release, previous, previousPointer))
  {
    OrderIsComplete(files);
    ShapedFrom(Order(files), files, objects, LOCK_KEY);
  }

  // ---------------------------------------------------------------- preservation

  /** While one publisher may write, no request of another changes anything. */
  lemma {:induction false} OthersAreShutOut(store: map<Name, Content>, pub: Publisher, holder: Publisher)
    requires PublisherOk(store, pub) && pub.wire.InFlight?
    requires PublisherOk(store, holder) && Holding(holder) && holder.token != pub.token
    ensures Handle(store, RequestOf(pub)).0 == store
  {
  }

  lemma {:induction false} UploadLands(store: map<Name, Content>, pub: Publisher, i: nat)
    requires LocalOk(pub) && pub.phase == Upload(i)
    requires Owns(store, pub.token) && Placed(store, pub.job, i) && Guarded(store, pub)
    ensures var (after, response) := Handle(store, RequestOf(pub));
            && Owns(after, pub.token)
            && (response.Stored? ==> Placed(after, pub.job, i + 1)
                                     && (i + 1 < |pub.job.uploads| ==> Guarded(after, pub)))
            && (!response.Stored? ==> response.PreconditionFailed? && after == store)
  {
    var u := pub.job.uploads;
    var (after, response) := Handle(store, RequestOf(pub));
    if response.Stored? {
      forall j | 0 <= j < i + 1
        ensures u[j] in pub.job.objects && u[j] in after && after[u[j]] == pub.job.objects[u[j]]
      {
        if j < i { assert u[j] != u[i]; }
      }
      if i + 1 < |u| { assert u[i] != u[|u| - 1]; }
    }
  }

  lemma {:induction false} ServeKeepsOwn(store: map<Name, Content>, pub: Publisher)
    requires PublisherOk(store, pub) && pub.wire.InFlight?
    ensures var (after, response) := Handle(store, RequestOf(pub));
            PublisherOk(after, pub.(wire := Answered(response)))
  {
    if pub.phase.Upload? {
      UploadLands(store, pub, pub.phase.next);
    }
  }

  lemma {:induction false} UploadFromKeeps(store: map<Name, Content>, pub: Publisher, i: nat)
    requires LocalOk(pub) && Owns(store, pub.token) && i <= |pub.job.uploads|
    requires Placed(store, pub.job, i) && (i < |pub.job.uploads| ==> Guarded(store, pub))
    ensures PublisherOk(store, UploadFrom(pub, i))
  {
  }

  lemma {:induction false} HeadKeeps(store: map<Name, Content>, pub: Publisher)
    requires PublisherOk(store, pub) && pub.alive && pub.wire.Answered? && pub.phase.Heads?
    ensures PublisherOk(store, Advance(pub, pub.wire.response))
  {
    var i, response := pub.phase.done, pub.wire.response;
    assert MARKERS[0] == STABLE;
    assert i > 0 ==> MARKERS[i] != STABLE;
    if response.Found? || response.NotFound? {
      var condition := if response.Found? then IfMatch(response.content) else IfAbsent;
      var learned := pub.(heads := pub.heads[MARKERS[i] := condition]);
      assert learned.heads[STABLE] == Witness(store, STABLE);
      if i + 1 == |MARKERS| && !learned.heads[STABLE].IfMatch? {
        if pub.job.previous.None? && pub.job.previousPointer.None? {
          UploadFromKeeps(store, learned, 0);
        }
      }
    }
  }

  lemma {:induction false} PointerReadKeeps(store: map<Name, Content>, pub: Publisher)
    requires PublisherOk(store, pub) && pub.alive && pub.wire.Answered? && pub.phase.ReadPointer?
    ensures PublisherOk(store, Advance(pub, pub.wire.response))
  {
    var response := pub.wire.response;
    if response.Found? && response.content.Pointer? && ReleaseLeq(response.content.release, pub.job.release) {
      assert Guarded(store, pub);
      UploadFromKeeps(store, pub, 0);
    }
  }

  lemma {:induction false} UploadedKeeps(store: map<Name, Content>, pub: Publisher)
    requires PublisherOk(store, pub) && pub.alive && pub.wire.Answered? && (pub.phase.Upload? || pub.phase.Compare?)
    ensures PublisherOk(store, Advance(pub, pub.wire.response))
  {
    var i, response := pub.phase.next, pub.wire.response;
    var content := pub.job.objects[pub.job.uploads[i]];
    assert HeldOk(store, pub);
    if (pub.phase.Upload? && response.Stored?) || (pub.phase.Compare? && response == Found(content)) {
      assert Placed(store, pub.job, i + 1);
      UploadFromKeeps(store, pub, i + 1);
    }
  }

  lemma {:induction false} ReceiveKeeps(store: map<Name, Content>, pub: Publisher)
    requires PublisherOk(store, pub) && pub.alive && pub.wire.Answered?
    ensures PublisherOk(store, Advance(pub, pub.wire.response))
  {
    match pub.phase
    case Heads(_) => HeadKeeps(store, pub);
    case ReadPointer => PointerReadKeeps(store, pub);
    case Upload(_) => UploadedKeeps(store, pub);
    case Compare(_) => UploadedKeeps(store, pub);
    case _ =>
  }

  lemma {:induction false} ServeKeepsOther(store: map<Name, Content>, pub: Publisher, other: Publisher)
    requires PublisherOk(store, pub) && pub.wire.InFlight?
    requires PublisherOk(store, other) && other.token != pub.token
    ensures PublisherOk(Handle(store, RequestOf(pub)).0, other)
  {
    if Holding(other) {
      OthersAreShutOut(store, pub, other);
    }
  }

  lemma {:induction false} ServeKeepsInv(s: System, p: nat)
    requires Inv(s) && Formed(s) && Enabled(s, Serve(p))
    ensures Inv(Perform(s, Serve(p)))
  {
    var pub, after := s.publishers[p], Perform(s, Serve(p));
    forall q | q in after.publishers ensures PublisherOk(after.store, after.publishers[q]) {
      if q == p {
        ServeKeepsOwn(s.store, pub);
      } else {
        ServeKeepsOther(s.store, pub, s.publishers[q]);
      }
    }
  }

  /** A step that replaces one publisher and leaves the store alone. */
  lemma {:induction false} ReplaceKeepsInv(s: System, p: nat, pub: Publisher)
    requires Inv(s) && PublisherOk(s.store, pub)
    requires forall q | q in s.publishers && q != p :: s.publishers[q].token != pub.token
    ensures Inv(s.(publishers := s.publishers[p := pub]))
  {
  }

  lemma {:induction false} FailKeeps(store: map<Name, Content>, pub: Publisher)
    requires PublisherOk(store, pub)
    ensures PublisherOk(store, pub.(alive := false))
  {
    if Holding(pub.(alive := false)) {
      assert HeldOk(store, pub);
    }
  }

  lemma {:induction false} RecoverKeepsInv(s: System, replacement: Option<Content>)
    requires Inv(s) && Formed(s) && Enabled(s, Recover(replacement))
    ensures Inv(Perform(s, Recover(replacement)))
  {
    var after := Perform(s, Recover(replacement));
    forall q | q in after.publishers ensures PublisherOk(after.store, after.publishers[q]) {
      assert PublisherOk(s.store, s.publishers[q]);
    }
  }

  lemma {:induction false} InvIsFormed(s: System)
    requires Inv(s)
    ensures Formed(s)
  {
    forall p | p in s.publishers ensures JobOk(s.publishers[p].job) && PhaseOk(s.publishers[p]) {
      assert PublisherOk(s.store, s.publishers[p]);
    }
  }

  lemma {:induction false} AdvanceKeepsToken(pub: Publisher, response: Response)
    requires PhaseOk(pub)
    ensures Advance(pub, response).token == pub.token
  {
  }

  lemma {:induction false} StepKeepsInv(s: System, step: Step)
    requires Inv(s) && Formed(s) && Enabled(s, step)
    ensures Inv(Perform(s, step))
  {
    match step
    case Begin(p, job, token) =>
      ReplaceKeepsInv(s, p, Publisher(job, token, ReadLock, InFlight, true, IfAbsent, map[]));
    case Serve(p) => ServeKeepsInv(s, p);
    case Receive(p) =>
      var pub := s.publishers[p];
      ReceiveKeeps(s.store, pub);
      AdvanceKeepsToken(pub, pub.wire.response);
      ReplaceKeepsInv(s, p, Advance(pub, pub.wire.response));
    case Fail(p) =>
      FailKeeps(s.store, s.publishers[p]);
      ReplaceKeepsInv(s, p, s.publishers[p].(alive := false));
    case Recover(replacement) => RecoverKeepsInv(s, replacement);
  }

  // ---------------------------------------------------------------- what one step can do to the store

  /** At most one publisher may write, and while it may, the lock is its own. */
  lemma {:induction false} OneWriter(s: System, p: nat, q: nat)
    requires Inv(s) && p in s.publishers && q in s.publishers
    requires Holding(s.publishers[p]) && Holding(s.publishers[q])
    ensures p == q && Owns(s.store, s.publishers[p].token)
  {
    assert PublisherOk(s.store, s.publishers[p]) && PublisherOk(s.store, s.publishers[q]);
  }

  lemma {:induction false} HandleIsWriteOnce(store: map<Name, Content>, pub: Publisher, name: Name)
    requires LocalOk(pub) && !pub.phase.Finished? && Immutable(name) && name in store
    ensures var after := Handle(store, RequestOf(pub)).0;
            name in after && after[name] == store[name]
  {
    var request := RequestOf(pub);
    if request.Put? && request.key == name {
      if pub.phase.Upload? {
        assert request.condition == IfAbsent;
      } else {
        LockIsMutable();
        assert false;
      }
    }
  }

  lemma {:induction false} ImmutableStepIsWriteOnce(s: System, step: Step, name: Name)
    requires Inv(s) && Formed(s) && Enabled(s, step) && Immutable(name) && name in s.store
    ensures name in Perform(s, step).store && Perform(s, step).store[name] == s.store[name]
  {
    if step.Serve? {
      assert PublisherOk(s.store, s.publishers[step.p]);
      HandleIsWriteOnce(s.store, s.publishers[step.p], name);
    } else if step.Recover? {
      LockIsMutable();
    }
  }

  predicate PointerMoved(before: map<Name, Content>, after: map<Name, Content>) {
    (STABLE in before) != (STABLE in after) || (STABLE in before && before[STABLE] != after[STABLE])
  }

  /** Every object of the job is in the store. */
  ghost predicate AllPlaced(store: map<Name, Content>, job: Job) {
    forall name | name in job.objects :: name in store && store[name] == job.objects[name]
  }

  lemma {:induction false} LastUploadPlacesAll(store: map<Name, Content>, job: Job)
    requires JobOk(job) && Placed(store, job, |job.uploads|)
    ensures AllPlaced(store, job)
  {
    var u := job.uploads;
    forall name | name in job.objects ensures name in store && store[name] == job.objects[name] {
      var k :| 0 <= k < |u| && u[k] == name;
    }
  }

  lemma {:induction false} NamesDiffer()
    ensures STABLE != LOCK_KEY
  {
    assert STABLE[0] != LOCK_KEY[0];
  }

  lemma {:induction false} OnlyItsUploadMovesPointer(store: map<Name, Content>, pub: Publisher)
    requires LocalOk(pub) && !pub.phase.Finished? && PointerMoved(store, Handle(store, RequestOf(pub)).0)
    ensures pub.phase.Upload? && pub.job.uploads[pub.phase.next] == STABLE
    ensures Handle(store, RequestOf(pub)).1.Stored?
  {
    NamesDiffer();
  }

  lemma {:induction false} PointerIsLastUpload(job: Job, i: nat)
    requires JobOk(job) && i < |job.uploads| && job.uploads[i] == STABLE
    ensures i + 1 == |job.uploads|
  {
    NoRepeat(job.uploads, i, |job.uploads| - 1);
  }

  lemma {:induction false} NoRepeat(names: seq<Name>, i: nat, j: nat)
    requires NoDuplicates(names) && i <= j < |names| && names[i] == names[j]
    ensures i == j
  {
  }

  lemma {:induction false} PointerIsConditional(pub: Publisher)
    requires STABLE in pub.heads
    ensures ConditionFor(pub, STABLE) == pub.heads[STABLE]
  {
    PointerIsMutable();
  }

  /** The request that would replace stable.json names, as its condition, the entity tag
      that stable.json has at that very moment, which the publisher read under the lock. */
  lemma {:induction false} PointerRequestIsCurrent(store: map<Name, Content>, pub: Publisher)
    requires PublisherOk(store, pub) && Holding(pub) && pub.wire.InFlight? && pub.phase.Upload?
             && pub.job.uploads[pub.phase.next] == STABLE
    ensures STABLE in pub.heads && pub.heads[STABLE] == Witness(store, STABLE)
    ensures RequestOf(pub) == Put(STABLE, pub.job.objects[STABLE], Witness(store, STABLE))
  {
    assert Guarded(store, pub);
    PointerIsConditional(pub);
  }

  lemma {:induction false} HandleMovesPointer(store: map<Name, Content>, pub: Publisher)
    requires PublisherOk(store, pub) && pub.wire.InFlight? && PointerMoved(store, Handle(store, RequestOf(pub)).0)
    ensures AllPlaced(Handle(store, RequestOf(pub)).0, pub.job)
    ensures STABLE in store ==> store[STABLE].Pointer? && ReleaseLeq(store[STABLE].release, pub.job.release)
  {
    OnlyItsUploadMovesPointer(store, pub);
    PointerIsLastUpload(pub.job, pub.phase.next);
    UploadLands(store, pub, pub.phase.next);
    LastUploadPlacesAll(Handle(store, RequestOf(pub)).0, pub.job);
  }

  /** stable.json changes only when the publisher that changes it has every object of its
      snapshot in place, and never to an older release. */
  lemma {:induction false} PointerStep(s: System, step: Step)
    requires Inv(s) && Formed(s) && Enabled(s, step) && PointerMoved(s.store, Perform(s, step).store)
    ensures step.Serve?
    ensures var job := s.publishers[step.p].job;
            && JobOk(job) && AllPlaced(Perform(s, step).store, job)
            && (STABLE in s.store ==> s.store[STABLE].Pointer? && ReleaseLeq(s.store[STABLE].release, job.release))
  {
    NamesDiffer();
    assert PublisherOk(s.store, s.publishers[step.p]);
    HandleMovesPointer(s.store, s.publishers[step.p]);
  }

  // ---------------------------------------------------------------- every run

  /** `run` starts with no publishers and follows `steps`. */
  ghost predicate IsRun(run: seq<System>, steps: seq<Step>) {
    && |run| == |steps| + 1
    && run[0].publishers == map[]
    && forall i | 0 <= i < |steps| ::
         Formed(run[i]) && Enabled(run[i], steps[i]) && run[i + 1] == Perform(run[i], steps[i])
  }

  lemma {:induction false} InvAlways(run: seq<System>, steps: seq<Step>, i: nat)
    requires IsRun(run, steps) && i < |run|
    ensures Inv(run[i])
  {
    if i > 0 {
      InvAlways(run, steps, i - 1);
      StepKeepsInv(run[i - 1], steps[i - 1]);
    }
  }

  /** Whatever has happened, any step that is enabled can follow. */
  lemma {:induction false} RunsExtend(run: seq<System>, steps: seq<Step>, step: Step)
    requires IsRun(run, steps) && Enabled(run[|run| - 1], step)
    ensures Formed(run[|run| - 1])
    ensures IsRun(run + [Perform(run[|run| - 1], step)], steps + [step])
  {
    InvAlways(run, steps, |run| - 1);
    InvIsFormed(run[|run| - 1]);
    RunsConcat(run, steps, step, Perform(run[|run| - 1], step));
  }

  lemma {:induction false} RunsConcat(run: seq<System>, steps: seq<Step>, step: Step, next: System)
    requires IsRun(run, steps) && Formed(run[|run| - 1]) && Enabled(run[|run| - 1], step)
             && next == Perform(run[|run| - 1], step)
    ensures IsRun(run + [next], steps + [step])
  {
    var run', steps' := run + [next], steps + [step];
    forall i | 0 <= i < |steps'|
      ensures Formed(run'[i]) && Enabled(run'[i], steps'[i]) && run'[i + 1] == Perform(run'[i], steps'[i])
    {
      if i < |steps| {
        assert run'[i] == run[i] && run'[i + 1] == run[i + 1] && steps'[i] == steps[i];
      }
    }
  }

  /** In every interleaving, with requests delayed past their senders and replies
      lost, at most one publisher is in the locked region, and the lock object is
      then its own held document. */
  lemma {:induction false} MutualExclusion(run: seq<System>, steps: seq<Step>, i: nat, p: nat, q: nat)
    requires IsRun(run, steps) && i < |run|
    requires p in run[i].publishers && Holding(run[i].publishers[p])
    requires q in run[i].publishers && Holding(run[i].publishers[q])
    ensures p == q && Owns(run[i].store, run[i].publishers[p].token)
  {
    InvAlways(run, steps, i);
    OneWriter(run[i], p, q);
  }

  /** Every immutable object of `before` is still there, unchanged. */
  ghost predicate WriteOnce(before: map<Name, Content>, after: map<Name, Content>) {
    forall name | name in before && Immutable(name) :: name in after && after[name] == before[name]
  }

  /** The store at each moment of a run. */
  ghost function Stores(run: seq<System>): seq<map<Name, Content>> {
    seq(|run|, k requires 0 <= k < |run| => run[k].store)
  }

  lemma {:induction false} StepIsWriteOnce(s: System, step: Step)
    requires Inv(s) && Formed(s) && Enabled(s, step)
    ensures WriteOnce(s.store, Perform(s, step).store)
  {
    forall name | name in s.store && Immutable(name)
      ensures name in Perform(s, step).store && Perform(s, step).store[name] == s.store[name]
    {
      ImmutableStepIsWriteOnce(s, step, name);
    }
  }

  lemma {:induction false} WriteOnceAlong(stores: seq<map<Name, Content>>, i: nat, j: nat)
    requires i <= j < |stores|
    requires forall k | 0 <= k < |stores| - 1 :: WriteOnce(stores[k], stores[k + 1])
    ensures WriteOnce(stores[i], stores[j])
    decreases j
  {
    if i < j {
      WriteOnceAlong(stores, i, j - 1);
      assert WriteOnce(stores[j - 1], stores[j - 1 + 1]);
    }
  }

  /** No immutable object ever changes. */
  lemma {:induction false} ImmutablesAreWriteOnce(run: seq<System>, steps: seq<Step>, i: nat, j: nat)
    requires IsRun(run, steps) && i <= j < |run|
    ensures WriteOnce(run[i].store, run[j].store)
  {
    var stores := Stores(run);
    forall k | 0 <= k < |stores| - 1 ensures WriteOnce(stores[k], stores[k + 1]) {
      InvAlways(run, steps, k);
      StepIsWriteOnce(run[k], steps[k]);
    }
    WriteOnceAlong(stores, i, j);
  }

  lemma {:induction false} ReleaseTransitive(a: Release, b: Release, c: Release)
    requires ReleaseLeq(a, b) && ReleaseLeq(b, c)
    ensures ReleaseLeq(a, c)
  {
  }

  /** The release that stable.json announces, once it is there. */
  function StableRelease(store: map<Name, Content>): Option<Release> {
    if STABLE in store && store[STABLE].Pointer? then Some(store[STABLE].release) else None
  }

  predicate NotOlder(before: Option<Release>, after: Option<Release>) {
    before.Some? ==> after.Some? && ReleaseLeq(before.value, after.value)
  }

  lemma {:induction false} ReleaseStep(s: System, step: Step)
    requires Inv(s) && Formed(s) && Enabled(s, step)
    ensures NotOlder(StableRelease(s.store), StableRelease(Perform(s, step).store))
  {
    if PointerMoved(s.store, Perform(s, step).store) {
      PointerStep(s, step);
    }
  }

  lemma {:induction false} NotOlderTransitive(a: Option<Release>, b: Option<Release>, c: Option<Release>)
    requires NotOlder(a, b) && NotOlder(b, c)
    ensures NotOlder(a, c)
  {
    if a.Some? { ReleaseTransitive(a.value, b.value, c.value); }
  }

  lemma {:induction false} NotOlderAlong(releases: seq<Option<Release>>, i: nat, j: nat)
    requires i <= j < |releases|
    requires forall k | 0 <= k < |releases| - 1 :: NotOlder(releases[k], releases[k + 1])
    ensures NotOlder(releases[i], releases[j])
    decreases j
  {
    if i < j {
      NotOlderAlong(releases, i, j - 1);
      assert NotOlder(releases[j - 1], releases[j - 1 + 1]);
      NotOlderTransitive(releases[i], releases[j - 1], releases[j]);
    }
  }

  /** Over all publishers the stable release never goes back. */
  lemma {:induction false} StableNeverDecreases(run: seq<System>, steps: seq<Step>, i: nat, j: nat)
    requires IsRun(run, steps) && i <= j < |run|
    ensures NotOlder(StableRelease(run[i].store), StableRelease(run[j].store))
  {
    var releases := seq(|run|, k requires 0 <= k < |run| => StableRelease(run[k].store));
    forall k | 0 <= k < |releases| - 1 ensures NotOlder(releases[k], releases[k + 1]) {
      InvAlways(run, steps, k);
      ReleaseStep(run[k], steps[k]);
    }
    NotOlderAlong(releases, i, j);
  }

  /** The last time stable.json changed before `j`. */
  lemma {:induction false} LastMove(stores: seq<map<Name, Content>>, j: nat) returns (i: nat)
    requires j < |stores| && PointerMoved(stores[0], stores[j])
    ensures i < j && PointerMoved(stores[i], stores[i + 1]) && !PointerMoved(stores[i + 1], stores[j])
    decreases j
  {
    if PointerMoved(stores[j - 1], stores[j]) {
      i := j - 1;
    } else {
      i := LastMove(stores, j - 1);
    }
  }

  /** A changed stable.json was put there by the step that changed it, with its whole
      snapshot in place. */
  ghost predicate Announced(before: System, step: Step, after: map<Name, Content>) {
    && step.Serve? && step.p in before.publishers
    && var job := before.publishers[step.p].job;
       AllPlaced(after, job) && STABLE in job.objects
  }

  lemma {:induction false} MoveAnnounces(run: seq<System>, steps: seq<Step>, i: nat)
    requires IsRun(run, steps) && i < |steps| && PointerMoved(run[i].store, run[i + 1].store)
    ensures Announced(run[i], steps[i], run[i + 1].store)
  {
    InvAlways(run, steps, i);
    PointerStep(run[i], steps[i]);
  }

  /** Whenever stable.json changes, the request that changes it was made against the entity
      tag it had at that moment. */
  lemma {:induction false} PointerIsReplacedAgainstItsTag(run: seq<System>, steps: seq<Step>, i: nat)
    requires IsRun(run, steps) && i < |steps| && PointerMoved(run[i].store, run[i + 1].store)
    ensures steps[i].Serve? && steps[i].p in run[i].publishers
    ensures var pub := run[i].publishers[steps[i].p];
            && PhaseOk(pub) && pub.phase.Upload? && STABLE in pub.job.objects && STABLE in pub.heads
            && pub.heads[STABLE] == Witness(run[i].store, STABLE)
            && RequestOf(pub) == Put(STABLE, pub.job.objects[STABLE], Witness(run[i].store, STABLE))
  {
    InvAlways(run, steps, i);
    PointerStep(run[i], steps[i]);
    var pub := run[i].publishers[steps[i].p];
    assert PublisherOk(run[i].store, pub);
    OnlyItsUploadMovesPointer(run[i].store, pub);
    PointerRequestIsCurrent(run[i].store, pub);
  }

  lemma {:induction false} PlacedImmutablesStay(before: map<Name, Content>, after: map<Name, Content>,
                                                objects: map<Name, Content>, name: Name)
    requires WriteOnce(before, after) && Immutable(name) && name in before && name in objects
             && before[name] == objects[name]
    ensures name in after && after[name] == objects[name]
  {
  }

  /** Wherever a run is stopped, a stable.json that differs from the initial one was put
      there by a step after which every object of its snapshot was in place, and its
      immutable objects still are. */
  lemma {:induction false} PointerOnlyAfterItsSnapshot(run: seq<System>, steps: seq<Step>, j: nat) returns (i: nat)
    requires IsRun(run, steps) && j < |run| && PointerMoved(run[0].store, run[j].store)
    ensures i < j && steps[i].Serve? && steps[i].p in run[i].publishers
    ensures var job := run[i].publishers[steps[i].p].job;
            && AllPlaced(run[i + 1].store, job)
            && STABLE in job.objects && STABLE in run[j].store && run[j].store[STABLE] == job.objects[STABLE]
            && (forall name | name in job.objects && Immutable(name) ::
                  name in run[j].store && run[j].store[name] == job.objects[name])
  {
    i := LastMove(Stores(run), j);
    MoveAnnounces(run, steps, i);
    ImmutablesAreWriteOnce(run, steps, i + 1, j);
    var job := run[i].publishers[steps[i].p].job;
    forall name | name in job.objects && Immutable(name)
      ensures name in run[j].store && run[j].store[name] == job.objects[name]
    {
      PlacedImmutablesStay(run[i + 1].store, run[j].store, job.objects, name);
    }
  }
}
