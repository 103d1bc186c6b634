/** The publisher as it is written: one request after another, any of which may fail or
    lose its reply. The store does not change between its requests, which is what the
    lock guarantees once it is held (see Publication). */
module SitePublisher {
  import opened Wrappers
  import opened PublishOrder
  import opened Publication

  /** Nothing but objects of the job has changed. */
  ghost predicate OnlyUploads(before: map<Name, Content>, after: map<Name, Content>, job: Job) {
    forall name | name !in job.objects ::
      (name in after <==> name in before) && (name in before ==> after[name] == before[name])
  }

  /** Where the upload may stop: stable.json is the old one, or everything is in place
      and the release is not older than the one it replaces. */
  ghost predicate SafeStop(before: map<Name, Content>, after: map<Name, Content>, job: Job) {
    && WriteOnce(before, after)
    && OnlyUploads(before, after, job)
    && (PointerMoved(before, after) ==> AllPlaced(after, job) && NotOlder(StableRelease(before), Some(job.release)))
  }

  /** Another publisher holds the lock, or it is not a lock this code understands. */
  predicate Locked(store: map<Name, Content>) {
    LOCK_KEY in store && !(store[LOCK_KEY].Lock? && !store[LOCK_KEY].held)
  }

  /** Everything is in place and the lock is given back. */
  ghost predicate Done(store: map<Name, Content>, token: nat, job: Job) {
    AllPlaced(store, job) && LOCK_KEY in store && store[LOCK_KEY] == Lock(token, false)
  }

  ghost predicate Published(before: map<Name, Content>, after: map<Name, Content>, job: Job) {
    && WriteOnce(before, after)
    && (PointerMoved(before, after) ==> AllPlaced(after, job) && NotOlder(StableRelease(before), Some(job.release)))
  }

  predicate SameButFor(key: Name, a: map<Name, Content>, b: map<Name, Content>) {
    && (forall k | k in a && k != key :: k in b && b[k] == a[k])
    && (forall k | k in b && k != key :: k in a)
  }

  lemma {:induction false} KeyApart(key: Name, before: map<Name, Content>, taken: map<Name, Content>,
                                    done: map<Name, Content>, after: map<Name, Content>, job: Job)
    requires key !in job.objects && !Immutable(key) && key != STABLE
    requires SameButFor(key, before, taken) && SafeStop(taken, done, job) && SameButFor(key, done, after)
    ensures Published(before, after, job)
    ensures AllPlaced(done, job) ==> AllPlaced(after, job)
    ensures key in taken ==> key in done && done[key] == taken[key]
  {
  }

  /** Taking and giving back the lock is no concern of the site. */
  lemma {:induction false} LockApart(before: map<Name, Content>, taken: map<Name, Content>,
                                     done: map<Name, Content>, after: map<Name, Content>, job: Job)
    requires JobOk(job)
    requires SameButFor(LOCK_KEY, before, taken) && SafeStop(taken, done, job) && SameButFor(LOCK_KEY, done, after)
    ensures Published(before, after, job)
    ensures AllPlaced(done, job) ==> AllPlaced(after, job)
    ensures LOCK_KEY in taken ==> LOCK_KEY in done && done[LOCK_KEY] == taken[LOCK_KEY]
  {
    NamesDiffer();
    LockIsMutable();
    KeyApart(LOCK_KEY, before, taken, done, after, job);
  }

  /** The heads read so far are what the store holds. */
  ghost predicate Current(store: map<Name, Content>, heads: map<Name, Condition>) {
    forall name | name in heads :: heads[name] == Witness(store, name)
  }

  /** One more object in place, before stable.json. */
  lemma {:induction false} PlaceNext(before: map<Name, Content>, store: map<Name, Content>, after: map<Name, Content>,
                                     job: Job, i: nat)
    requires JobOk(job) && i < |job.uploads| && job.uploads[i] in job.objects
    requires Placed(store, job, i) && WriteOnce(before, store) && OnlyUploads(before, store, job)
    requires var name := job.uploads[i];
      && after == store[name := job.objects[name]]
      && (Immutable(name) && name in store ==> store[name] == job.objects[name])
    ensures Placed(after, job, i + 1) && WriteOnce(before, after) && OnlyUploads(before, after, job)
    ensures i + 1 < |job.uploads| ==> job.uploads[i] != STABLE
  {
    var u := job.uploads;
    forall j | 0 <= j < i + 1 ensures u[j] in job.objects && u[j] in after && after[u[j]] == job.objects[u[j]] {
      if j < i { assert u[j] != u[i]; }
    }
    if i + 1 < |u| { assert u[i] != u[|u| - 1]; }
  }

  // ---------------------------------------------------------------- the publisher of the step system

  /** `request` is what this publisher of the step system has on the wire. */
  ghost predicate Asks(pub: Publisher, request: Request) {
    PhaseOk(pub) && !pub.phase.Finished? && pub.alive && pub.wire.InFlight? && RequestOf(pub) == request
  }

  /** The same publisher once it has received `response`. */
  ghost function Told(pub: Publisher, response: Response): Publisher
    requires PhaseOk(pub) && !pub.phase.Finished?
  {
    Advance(pub.(wire := Answered(response)), response)
  }

  /** It is about to make the request of `phase`. */
  ghost predicate Stands(pub: Publisher, job: Job, token: nat, heads: map<Name, Condition>, phase: Phase) {
    pub.job == job && pub.token == token && pub.heads == heads && pub.phase == phase && pub.alive && pub.wire.InFlight?
  }

  /** A publisher as it begins. */
  ghost function Begun(job: Job, token: nat): Publisher {
    Publisher(job, token, ReadLock, InFlight, true, IfAbsent, map[])
  }

  function Learned(response: Response): Condition {
    if response.Found? then IfMatch(response.content) else IfAbsent
  }

  ghost function AfterUpload(job: Job, i: nat): Phase {
    if i + 1 < |job.uploads| then Phase.Upload(i + 1) else Unlock
  }

  lemma {:induction false} ToldHead(pub: Publisher, job: Job, token: nat, heads: map<Name, Condition>, i: nat,
                                    response: Response)
    requires JobOk(job) && i < |MARKERS| && Stands(pub, job, token, heads, Heads(i))
             && (response.Found? || response.NotFound?)
    ensures var heads' := heads[MARKERS[i] := Learned(response)];
            if i + 1 < |MARKERS| then Stands(Told(pub, response), job, token, heads', Heads(i + 1))
            else AllRead(Told(pub, response), job, token, heads')
  {
  }

  /** All heads are read: stable.json is next, or the uploads, or nothing. */
  ghost predicate AllRead(pub: Publisher, job: Job, token: nat, heads: map<Name, Condition>) {
    if STABLE in heads && heads[STABLE].IfMatch? then Stands(pub, job, token, heads, Phase.ReadPointer)
    else job.previous.None? && job.previousPointer.None? ==> Stands(pub, job, token, heads, Phase.Upload(0))
  }

  lemma {:induction false} ToldPointer(pub: Publisher, job: Job, token: nat, heads: map<Name, Condition>,
                                       content: Content)
    requires JobOk(job) && Stands(pub, job, token, heads, Phase.ReadPointer)
    requires content.Pointer? && job.previous == Some(content) && ReleaseLeq(content.release, job.release)
    requires job.previousPointer.Some? ==> job.previousPointer == Some(content)
    ensures Stands(Told(pub, Found(content)), job, token, heads, Phase.Upload(0))
  {
  }

  lemma {:induction false} ToldUpload(pub: Publisher, job: Job, token: nat, heads: map<Name, Condition>, i: nat)
    requires JobOk(job) && i < |job.uploads| && Stands(pub, job, token, heads, Phase.Upload(i))
    ensures job.uploads[i] in job.objects
    ensures var name := job.uploads[i];
            Asks(pub, Request.Put(name, job.objects[name],
                                  if Immutable(name) then IfAbsent
                                  else if name in heads then heads[name] else Unconditional))
    ensures Stands(Told(pub, Stored), job, token, heads, AfterUpload(job, i))
    ensures Immutable(job.uploads[i]) ==> Stands(Told(pub, PreconditionFailed), job, token, heads, Compare(i))
  {
  }

  lemma {:induction false} ToldCompare(pub: Publisher, job: Job, token: nat, heads: map<Name, Condition>, i: nat)
    requires JobOk(job) && i < |job.uploads| && Stands(pub, job, token, heads, Compare(i))
    ensures job.uploads[i] in job.objects && Asks(pub, Get(job.uploads[i]))
    ensures Stands(Told(pub, Found(job.objects[job.uploads[i]])), job, token, heads, AfterUpload(job, i))
  {
  }

  // ---------------------------------------------------------------- the code

  /** The client of the store, with the publisher of the step system that it is: every
      request it sends is the one that publisher has on the wire, and it goes on as
      `Publication.Advance` says. */
  class S3 {
    var objects: map<Name, Content>
    ghost var pub: Publisher

    constructor (objects: map<Name, Content>, ghost job: Job, ghost token: nat)
      ensures this.objects == objects && pub == Begun(job, token)
    {
      this.objects := objects;
      pub := Begun(job, token);
    }

    /** A request: handled or not, and its reply read or lost. */
    method Send(request: Request) returns (response: Option<Response>)
      requires Asks(pub, request)
      modifies this
      ensures response.Some? ==> (objects, response.value) == Handle(old(objects), request)
      ensures objects == old(objects) || objects == Handle(old(objects), request).0
      ensures pub == if response.Some? then Told(old(pub), response.value) else old(pub).(alive := false)
    {
      var arrives, answered := *, *;
      if !arrives {
        pub := pub.(alive := false);
        return None;
      }
      var r := Handle(objects, request);
      objects := r.0;
      if answered {
        pub := Told(pub, r.1);
        response := Some(r.1);
      } else {
        pub := pub.(alive := false);
        response := None;
      }
    }

    /** Stores upload `i`. An immutable object is written only if absent, and one already
        there is accepted only if it is the same. */
    method Put(key: Name, content: Content, immutable: bool, condition: Condition,
               ghost job: Job, ghost token: nat, ghost heads: map<Name, Condition>, ghost i: nat) returns (ok: bool)
      requires JobOk(job) && i < |job.uploads| && Stands(pub, job, token, heads, Phase.Upload(i))
      requires key == job.uploads[i] && key in job.objects && content == job.objects[key] && immutable == Immutable(key)
      requires condition == if key in heads then heads[key] else Unconditional
      modifies this
      ensures objects == old(objects) || objects == old(objects)[key := content]
      ensures immutable && key in old(objects) ==> objects == old(objects)
      ensures !immutable && !Admits(old(objects), key, condition) ==> objects == old(objects) && !ok
      ensures ok ==> key in objects && objects[key] == content
      ensures ok ==> Stands(pub, job, token, heads, AfterUpload(job, i))
    {
      ToldUpload(pub, job, token, heads, i);
      var response := Send(Request.Put(key, content, if immutable then IfAbsent else condition));
      if response == Some(Stored) { return true; }
      if !immutable || response != Some(PreconditionFailed) { return false; }
      ToldCompare(pub, job, token, heads, i);
      response := Send(Get(key));
      ok := response == Some(Found(content));
    }

    /** Reads the entity tags the mutable index files will be replaced against. */
    method ReadHeads(ghost job: Job, ghost token: nat) returns (ok: bool, heads: map<Name, Condition>)
      requires JobOk(job) && Stands(pub, job, token, map[], Heads(0))
      modifies this
      ensures objects == old(objects)
      ensures Current(objects, heads)
      ensures ok ==> forall j | 0 <= j < |MARKERS| :: MARKERS[j] in heads
      ensures ok ==> STABLE in heads && AllRead(pub, job, token, heads)
    {
      heads := map[];
      for i := 0 to |MARKERS|
        invariant objects == old(objects)
        invariant Current(objects, heads)
        invariant forall j | 0 <= j < i :: MARKERS[j] in heads
        invariant if i < |MARKERS| then Stands(pub, job, token, heads, Heads(i)) else AllRead(pub, job, token, heads)
      {
        ghost var was := pub;
        var response := Send(Get(MARKERS[i]));
        if response.None? { return false, heads; }
        ToldHead(was, job, token, heads, i, response.value);
        heads := heads[MARKERS[i] := Learned(response.value)];
      }
      ok := true;
      assert MARKERS[0] == STABLE;
    }

    /** The stable.json to be replaced is the one the snapshot was staged against, and not
        of a later release. */
    method CheckPointer(job: Job, heads: map<Name, Condition>, ghost token: nat) returns (ok: bool)
      requires JobOk(job) && STABLE in heads && Current(objects, heads) && AllRead(pub, job, token, heads)
      modifies this
      ensures objects == old(objects)
      ensures ok ==> NotOlder(StableRelease(objects), Some(job.release))
      ensures ok ==> job.previous == (if STABLE in objects then Some(objects[STABLE]) else None)
      ensures ok ==> Stands(pub, job, token, heads, Phase.Upload(0))
    {
      assert heads[STABLE] == Witness(objects, STABLE);
      if !heads[STABLE].IfMatch? {
        return job.previous.None? && job.previousPointer.None?;
      }
      ghost var was := pub;
      var response := Send(Get(STABLE));
      if response.None? || !response.value.Found? { return false; }
      var content := response.value.content;
      ok := && content.Pointer? && job.previous == Some(content)
            && (job.previousPointer.Some? ==> job.previousPointer == Some(content))
            && ReleaseLeq(content.release, job.release);
      if ok { ToldPointer(was, job, token, heads, content); }
    }

    /** The locked part of a publication: wherever it stops, readers see either the old
        stable.json or the new one with its whole snapshot. */
    method PublishLocked(job: Job, ghost token: nat) returns (ok: bool)
      requires JobOk(job) && Stands(pub, job, token, map[], Heads(0))
      modifies this
      ensures SafeStop(old(objects), objects, job)
      ensures ok ==>
                AllPlaced(objects, job) && pub.token == token && pub.phase == Unlock && pub.alive && pub.wire.InFlight?
    {
      var heads;
      ok, heads := ReadHeads(job, token);
      if !ok { return; }
      ok := CheckPointer(job, heads, token);
      if !ok { return; }
      ok := Upload(job, heads, token);
    }

    method Upload(job: Job, heads: map<Name, Condition>, ghost token: nat) returns (ok: bool)
      requires JobOk(job) && NotOlder(StableRelease(objects), Some(job.release))
      requires Stands(pub, job, token, heads, Phase.Upload(0))
      modifies this
      ensures SafeStop(old(objects), objects, job)
      ensures ok ==> AllPlaced(objects, job) && Stands(pub, job, token, heads, Unlock)
    {
      var u := job.uploads;
      for i := 0 to |u|
        invariant Placed(objects, job, i) && WriteOnce(old(objects), objects) && OnlyUploads(old(objects), objects, job)
        invariant i < |u| ==> !PointerMoved(old(objects), objects)
        invariant Stands(pub, job, token, heads, if i < |u| then Phase.Upload(i) else Unlock)
      {
        var name := u[i];
        ghost var store := objects;
        ok := Put(name, job.objects[name], Immutable(name), if name in heads then heads[name] else Unconditional,
                  job, token, heads, i);
        if ok || objects != store {
          assert objects == store[name := job.objects[name]];
          PlaceNext(old(objects), store, objects, job, i);
        }
        if !ok {
          if i + 1 == |u| && objects != store { LastUploadPlacesAll(objects, job); }
          return;
        }
      }
      ok := true;
      LastUploadPlacesAll(objects, job);
    }

    /** Reads the lock and replaces it, if it is absent or released, by our own. No lock is
        held yet: that the store is the same at both requests is assumed here, and only
        here. `Publication.MutualExclusion` does without it, by the condition of the
        second request. */
    method Acquire(ghost job: Job, token: nat) returns (ok: bool)
      requires JobOk(job) && pub == Begun(job, token)
      modifies this
      ensures Locked(old(objects)) ==> !ok
      ensures objects == old(objects)
              || (!Locked(old(objects)) && objects == old(objects)[LOCK_KEY := Lock(token, true)])
      ensures ok ==> Owns(objects, token) && Stands(pub, job, token, map[], Heads(0))
    {
      var response := Send(Get(LOCK_KEY));
      if response.None? { return false; }
      var condition := IfAbsent;
      if response.value.Found? {
        if !response.value.content.Lock? || response.value.content.held { return false; }
        condition := IfMatch(response.value.content);
      }
      response := Send(Request.Put(LOCK_KEY, Lock(token, true), condition));
      if response != Some(Stored) { return false; }
      response := Send(Get(LOCK_KEY));
      ok := response == Some(Found(Lock(token, true)));
    }

    /** A whole publication. It touches nothing while another holds the lock; if it fails
        after taking the lock, the lock stays its own, and only a publication that is
        complete is ever released. */
    method Publish(job: Job, token: nat) returns (ok: bool)
      requires JobOk(job) && pub == Begun(job, token)
      modifies this
      ensures Locked(old(objects)) ==> !ok && objects == old(objects)
      ensures ok ==> Done(objects, token, job) && pub.phase.Finished?
      ensures objects == old(objects) || Owns(objects, token) || Done(objects, token, job)
      ensures Published(old(objects), objects, job)
    {
      ok := Acquire(job, token);
      ghost var taken := objects;
      LockApart(old(objects), taken, taken, taken, job);
      if !ok { return; }
      ok := PublishLocked(job, token);
      ghost var done := objects;
      LockApart(old(objects), taken, done, done, job);
      if !ok { return; }
      ok := Release(token);
      LockApart(old(objects), taken, done, objects, job);
    }

    method Release(token: nat) returns (ok: bool)
      requires pub.token == token && pub.phase == Unlock && pub.alive && pub.wire.InFlight? && Owns(objects, token)
      modifies this
      ensures objects == old(objects) || objects == old(objects)[LOCK_KEY := Lock(token, false)]
      ensures ok ==> pub.phase.Finished? && objects == old(objects)[LOCK_KEY := Lock(token, false)]
    {
      var response := Send(Request.Put(LOCK_KEY, Lock(token, false), IfMatch(Lock(token, true))));
      ok := response == Some(Stored);
    }
  }
}
