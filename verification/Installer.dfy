/** Installing a release: the ownership check, the transaction that deploys helpers,
    switches the command link and commits the record, the handler that undoes it, and
    removal. A digest in the ownership record stands for the bytes it was taken of. */
module Installer {
  import opened Wrappers

  type Bytes = seq<nat>

  /** A file the installer owns outside the release directories: a helper that runs with
      privilege (under libexec, or httpjetctl), the recorded service identity beside the
      helpers, or a service profile, which the administrator may edit. */
  datatype Path = Tool(name: string) | Identity | Profile(name: string) {
    predicate Privileged() { !Profile? }
  }

  /** The command link: nothing, a symlink to a retained release, a symlink to
      something else, or a file that is not a link. */
  datatype Link = Missing | ToRelease(version: string) | Elsewhere | NotALink

  datatype Record = Record(current: Option<string>, previous: Option<string>, versions: set<string>,
                           owned: map<Path, Bytes>, uid: nat, gid: nat)

  /** A file the release installs outside its own directory. */
  datatype Helper = Helper(path: Path, content: Bytes)

  function IdentityContent(uid: nat, gid: nat): Bytes { [uid, gid] }

  function At(files: map<Path, Bytes>, p: Path): Option<Bytes> {
    if p in files then Some(files[p]) else None
  }

  predicate HelpersOk(helpers: seq<Helper>) {
    && (forall i, j | 0 <= i < j < |helpers| :: helpers[i].path != helpers[j].path)
    && (forall i | 0 <= i < |helpers| :: helpers[i].path != Identity)
  }

  /** Every privileged file that is recorded and present is as recorded. */
  predicate Unmodified(files: map<Path, Bytes>, owned: map<Path, Bytes>) {
    forall p | p in owned && p in files && p.Privileged() :: files[p] == owned[p]
  }

  /** The ownership check against an existing record. */
  predicate Accepts(files: map<Path, Bytes>, link: Link, record: Record) {
    && !link.NotALink?
    && (record.current.Some? ==> link.Missing? || link == ToRelease(record.current.value))
    && Unmodified(files, record.owned)
  }

  /** The recorded identity is the recorded account. */
  predicate Formed(record: Record) {
    Identity in record.owned ==> record.owned[Identity] == IdentityContent(record.uid, record.gid)
  }

  /** The link is the one the record calls for. */
  predicate LinkAgrees(link: Link, current: Option<string>) {
    link == if current.Some? then ToRelease(current.value) else Missing
  }

  /** Nothing the record owns as a tool is on the machine. */
  predicate Bare(files: map<Path, Bytes>, owned: map<Path, Bytes>) {
    forall p | p in owned && p.Tool? :: p !in files
  }

  /** What every operation here leaves behind when nobody else touches links or
      privileged files. */
  predicate Settled(files: map<Path, Bytes>, link: Link, record: Option<Record>) {
    match record
    case None => link == Missing && files == map[]
    case Some(r) =>
      && LinkAgrees(link, r.current)
      && Formed(r)
      && Unmodified(files, r.owned)
      && (r.current.None? ==> Bare(files, r.owned))
  }

  // ---------------------------------------------------------------- deployment

  /** What deployment has done so far, relative to the files and the ownership it
      started from: a target is replaced only if it was absent or as recorded. */
  ghost predicate Deployed(before: map<Path, Bytes>, owned0: map<Path, Bytes>,
                           files: map<Path, Bytes>, owned: map<Path, Bytes>, backups: map<Path, Option<Bytes>>)
  {
    && Identity !in backups
    && (forall p | p != Identity :: if p in backups then Replaced(before, owned0, files, owned, backups[p], p)
                                                    else Kept(before, owned0, files, owned, p))
  }

  ghost predicate Kept(before: map<Path, Bytes>, owned0: map<Path, Bytes>,
                       files: map<Path, Bytes>, owned: map<Path, Bytes>, p: Path)
  {
    At(files, p) == At(before, p) && At(owned, p) == At(owned0, p)
  }

  ghost predicate Replaced(before: map<Path, Bytes>, owned0: map<Path, Bytes>,
                           files: map<Path, Bytes>, owned: map<Path, Bytes>, backup: Option<Bytes>, p: Path)
  {
    && backup == At(before, p)
    && (p in before ==> At(owned0, p) == At(before, p))
    && (At(owned, p) == At(owned0, p) || (p in files && At(owned, p) == At(files, p)))
  }

  /** Everything replaced so far is recorded as it now is. */
  ghost predicate Owned(files: map<Path, Bytes>, owned: map<Path, Bytes>, backups: map<Path, Option<Bytes>>) {
    forall p | p in backups :: p in files && At(owned, p) == At(files, p)
  }

  /** What is now recorded of a helper is what was recorded before or its new content, and
      only helpers have been touched. */
  ghost predicate Recorded(helpers: seq<Helper>, owned0: map<Path, Bytes>, owned: map<Path, Bytes>,
                           backups: map<Path, Option<Bytes>>) {
    && backups.Keys <= Paths(helpers)
    && forall k | 0 <= k < |helpers| ::
         || At(owned, helpers[k].path) == At(owned0, helpers[k].path)
         || At(owned, helpers[k].path) == Some(helpers[k].content)
  }

  /** The first n helpers are in place and recorded; the rest have not been touched. */
  ghost predicate Progress(helpers: seq<Helper>, n: nat, files: map<Path, Bytes>, owned: map<Path, Bytes>,
                           backups: map<Path, Option<Bytes>>)
    requires n <= |helpers|
  {
    && (forall k | n <= k < |helpers| :: helpers[k].path !in backups)
    && InPlace(helpers[..n], files, owned)
  }

  predicate InPlace(helpers: seq<Helper>, files: map<Path, Bytes>, owned: map<Path, Bytes>) {
    forall h | h in helpers && h.path.Privileged() :: At(files, h.path) == At(owned, h.path) == Some(h.content)
  }

  /** What happens to one helper's own path leaves the others' progress alone. */
  lemma {:induction false} Advance(helpers: seq<Helper>, n: nat, owned0: map<Path, Bytes>,
                                   files: map<Path, Bytes>, owned: map<Path, Bytes>, backups: map<Path, Option<Bytes>>,
                                   files': map<Path, Bytes>, owned': map<Path, Bytes>,
                                   backups': map<Path, Option<Bytes>>, ok: bool)
    requires n < |helpers| && HelpersOk(helpers) && var h := helpers[n];
      && Progress(helpers, n, files, owned, backups) && Recorded(helpers, owned0, owned, backups)
      && At(owned, h.path) == At(owned0, h.path)
      && (forall p | p != h.path :: At(files', p) == At(files, p) && At(owned', p) == At(owned, p))
      && (At(owned', h.path) == At(owned, h.path) || At(owned', h.path) == Some(h.content))
      && backups'.Keys <= backups.Keys + {h.path}
      && (ok && h.path.Privileged() ==> At(files', h.path) == At(owned', h.path) == Some(h.content))
    ensures Recorded(helpers, owned0, owned', backups')
    ensures ok ==> Progress(helpers, n + 1, files', owned', backups')
  {
    assert helpers[n].path in Paths(helpers);
    if ok {
      forall g | g in helpers[..n + 1] && g.path.Privileged()
        ensures At(files', g.path) == At(owned', g.path) == Some(g.content)
      {
        var k :| 0 <= k < n + 1 && helpers[k] == g;
        assert k < n ==> g in helpers[..n];
      }
    }
  }

  function Paths(helpers: seq<Helper>): set<Path> {
    set k | 0 <= k < |helpers| :: helpers[k].path
  }

  /** Every privileged helper already there has the bytes the release would install. */
  predicate Unchanged(files: map<Path, Bytes>, helpers: seq<Helper>) {
    forall k | 0 <= k < |helpers| && helpers[k].path in files && helpers[k].path.Privileged() ::
      files[helpers[k].path] == helpers[k].content
  }

  /** The identity file is as before, or written with its digest recorded or not. */
  ghost predicate IdentityState(before: map<Path, Bytes>, owned0: map<Path, Bytes>,
                                files: map<Path, Bytes>, owned: map<Path, Bytes>, content: Bytes)
  {
    || Kept(before, owned0, files, owned, Identity)
    || (At(files, Identity) == Some(content)
        && (At(owned, Identity) == Some(content) || At(owned, Identity) == At(owned0, Identity)))
  }

  /** Replacing one target: before its rename, after it, and once recorded. */
  lemma {:induction false} DeployStep(before: map<Path, Bytes>, owned0: map<Path, Bytes>, files: map<Path, Bytes>,
                                      owned: map<Path, Bytes>, backups: map<Path, Option<Bytes>>, p: Path,
                                      content: Bytes)
    requires Deployed(before, owned0, files, owned, backups) && p != Identity && p !in backups
    requires p in files ==> At(owned, p) == At(files, p)
    ensures Deployed(before, owned0, files, owned, backups[p := At(files, p)])
    ensures Deployed(before, owned0, files[p := content], owned, backups[p := At(files, p)])
    ensures Deployed(before, owned0, files[p := content], owned[p := content], backups[p := At(files, p)])
  {
    assert Kept(before, owned0, files, owned, p);
  }

  /** Writing the identity file is no concern of the helpers. */
  lemma {:induction false} IdentityApart(helpers: seq<Helper>, before: map<Path, Bytes>, owned0: map<Path, Bytes>,
                                         files: map<Path, Bytes>, files': map<Path, Bytes>,
                                         owned: map<Path, Bytes>, owned': map<Path, Bytes>,
                                         backups: map<Path, Option<Bytes>>)
    requires HelpersOk(helpers) && Deployed(before, owned0, files, owned, backups) && Owned(files, owned, backups)
    requires Recorded(helpers, owned0, owned, backups) && InPlace(helpers, files, owned)
    requires forall p | p != Identity :: At(files', p) == At(files, p) && At(owned', p) == At(owned, p)
    ensures Deployed(before, owned0, files', owned', backups) && Owned(files', owned', backups)
    ensures Recorded(helpers, owned0, owned', backups) && InPlace(helpers, files', owned')
  {
  }

  // ---------------------------------------------------------------- the two ends

  /** After an undo with no release current, the new digests match what is there if the
      helpers that were there are those of the release; and only then, once all of them
      had been deployed. */
  lemma {:induction false} UndoAgainstNewRecord(helpers: seq<Helper>, before: map<Path, Bytes>, r: Record,
                                                mid: map<Path, Bytes>,
                                                owned: map<Path, Bytes>, backups: map<Path, Option<Bytes>>,
                                                files: map<Path, Bytes>, deployed: bool)
    requires HelpersOk(helpers) && Formed(r) && Unmodified(before, r.owned)
    requires Deployed(before, r.owned, mid, owned, backups) && Recorded(helpers, r.owned, owned, backups)
    requires IdentityState(before, r.owned, mid, owned, IdentityContent(r.uid, r.gid))
    requires Restored(before, files, IdentityContent(r.uid, r.gid)) && At(files, Identity) == At(mid, Identity)
    requires deployed ==> InPlace(helpers, mid, owned)
    ensures Unchanged(before, helpers) ==> Unmodified(files, owned)
    ensures deployed && Unmodified(files, owned) ==> Unchanged(before, helpers)
  {
    if Unchanged(before, helpers) {
      forall p | p in owned && p in files && p.Privileged() ensures files[p] == owned[p] {
        if p in backups {
          var k :| 0 <= k < |helpers| && helpers[k].path == p;
          assert At(files, p) == At(before, p);
        } else if p != Identity {
          assert Kept(before, r.owned, mid, owned, p) && At(files, p) == At(before, p);
        }
      }
    }
    if deployed && Unmodified(files, owned) {
      forall k | 0 <= k < |helpers| && helpers[k].path in before && helpers[k].path.Privileged()
        ensures before[helpers[k].path] == helpers[k].content
      {
        var h := helpers[k];
        assert h in helpers && At(files, h.path) == At(before, h.path) && At(owned, h.path) == Some(h.content);
      }
    }
  }

  /** A committed installation is settled. */
  lemma {:induction false} CommitSettles(before: map<Path, Bytes>, state: Record, files: map<Path, Bytes>,
                                         owned: map<Path, Bytes>, backups: map<Path, Option<Bytes>>)
    requires Unmodified(before, state.owned) && Deployed(before, state.owned, files, owned, backups)
    requires Owned(files, owned, backups)
    requires At(files, Identity) == At(owned, Identity) == Some(IdentityContent(state.uid, state.gid))
    ensures Unmodified(files, owned)
  {
    forall p | p in owned && p in files && p.Privileged() ensures files[p] == owned[p] {
      if p != Identity && p !in backups {
        assert Kept(before, state.owned, files, owned, p);
      }
    }
  }

  /** The files after a successful undo: all as before but the identity, which has no
      backup. */
  ghost predicate Restored(before: map<Path, Bytes>, files: map<Path, Bytes>, content: Bytes) {
    && (forall p | p != Identity :: At(files, p) == At(before, p))
    && (At(files, Identity) == At(before, Identity) || At(files, Identity) == Some(content))
  }

  lemma {:induction false} UndoRestores(before: map<Path, Bytes>, r: Record, mid: map<Path, Bytes>,
                                        owned: map<Path, Bytes>,
                                        backups: map<Path, Option<Bytes>>, files: map<Path, Bytes>)
    requires Deployed(before, r.owned, mid, owned, backups)
    requires IdentityState(before, r.owned, mid, owned, IdentityContent(r.uid, r.gid))
    requires forall p :: At(files, p) == if p in backups then backups[p] else At(mid, p)
    ensures Restored(before, files, IdentityContent(r.uid, r.gid)) && At(files, Identity) == At(mid, Identity)
  {
    forall p | p != Identity ensures At(files, p) == At(before, p) {
      if p in backups {
        assert Replaced(before, r.owned, mid, owned, backups[p], p);
      } else {
        assert Kept(before, r.owned, mid, owned, p);
      }
    }
  }

  /** Undoing when a release was current puts its record back: what is there matches it. */
  lemma {:induction false} UndoMatchesOldRecord(before: map<Path, Bytes>, r: Record, files: map<Path, Bytes>)
    requires Unmodified(before, r.owned) && Formed(r)
    requires Restored(before, files, IdentityContent(r.uid, r.gid))
    ensures Unmodified(files, r.owned)
    ensures Identity in before && Identity in r.owned ==> At(files, Identity) == At(before, Identity)
  {
    forall p | p in r.owned && p in files && p.Privileged() ensures files[p] == r.owned[p] {
      assert p != Identity ==> At(files, p) == At(before, p);
    }
  }

  /** Undoing when no release was current keeps the new digests. What is there matches
      them when no recorded tool was there before. */
  lemma {:induction false} UndoMatchesNewRecord(before: map<Path, Bytes>, r: Record, mid: map<Path, Bytes>,
                                                owned: map<Path, Bytes>,
                                                backups: map<Path, Option<Bytes>>, files: map<Path, Bytes>)
    requires Formed(r) && Bare(before, r.owned) && Unmodified(before, r.owned)
    requires Deployed(before, r.owned, mid, owned, backups)
    requires IdentityState(before, r.owned, mid, owned, IdentityContent(r.uid, r.gid))
    requires Restored(before, files, IdentityContent(r.uid, r.gid)) && At(files, Identity) == At(mid, Identity)
    ensures Bare(files, owned) && Unmodified(files, owned)
    ensures Identity in owned ==> owned[Identity] == IdentityContent(r.uid, r.gid)
  {
    forall p | p in owned && p.Tool? ensures p !in files {
      if p in backups {
        assert Replaced(before, r.owned, mid, owned, backups[p], p);
      } else {
        assert Kept(before, r.owned, mid, owned, p);
      }
      assert At(files, p) == At(before, p);
    }
  }

  lemma {:induction false} SameFiles(before: map<Path, Bytes>, files: map<Path, Bytes>)
    requires forall p :: At(files, p) == At(before, p)
    ensures files == before
  {
    forall p ensures (p in files <==> p in before) && (p in files ==> files[p] == before[p]) {
      assert At(files, p) == At(before, p);
    }
  }

  /** The ownership check accepts links that an undo does not put back, and recorded
      helpers that the digests kept by an undone first installation do not match. */
  lemma {:induction false} AcceptedButNotSettled()
    ensures exists r, link :: Accepts(map[], link, r) && Formed(r) && r.current.Some? && !LinkAgrees(link, r.current)
    ensures exists r, link :: Accepts(map[], link, r) && Formed(r) && r.current.None? && !LinkAgrees(link, r.current)
    ensures exists r, files, h ::
              Accepts(files, Missing, r) && Formed(r) && r.current.None? && HelpersOk([h]) && !Unchanged(files, [h])
  {
    var r := Record(Some("1"), None, {}, map[], 1, 1);
    assert Accepts(map[], Missing, r) && Formed(r) && !LinkAgrees(Missing, r.current);
    var r' := r.(current := None);
    assert Accepts(map[], Elsewhere, r') && Formed(r') && !LinkAgrees(Elsewhere, r'.current);
    var files, h := map[Tool("launch") := [0]], Helper(Tool("launch"), [1]);
    var r'' := r'.(owned := files);
    assert [h][0].path in files && !Unchanged(files, [h]);
    assert Accepts(files, Missing, r'') && Formed(r'') && HelpersOk([h]);
  }

  lemma {:induction false} SomeRemoved(before: map<Path, Bytes>, files: map<Path, Bytes>, owned: map<Path, Bytes>)
    requires forall p :: At(files, p) == At(before, p) || At(files, p) == None
    ensures Unmodified(before, owned) ==> Unmodified(files, owned)
  {
    forall p | p in files ensures p in before && files[p] == before[p] {
      assert At(files, p) == At(before, p);
    }
  }

  lemma {:induction false} AllRemoved(before: map<Path, Bytes>, files: map<Path, Bytes>, owned: map<Path, Bytes>)
    requires Unmodified(before, owned)
    requires forall p :: At(files, p) == if At(before, p) == At(owned, p) then None else At(before, p)
    ensures Bare(files, owned)
  {
    forall p | p in owned && p.Tool? ensures p !in files {
      assert At(files, p) == None;
    }
  }

  // ---------------------------------------------------------------- the machine

  /** Refused by a check or failed outside the transaction; already installed; committed;
      failed inside and undone; or an undo step failed. */
  datatype Outcome = Refused | Retained | Committed | RolledBack | Broken

  class Machine {
    var files: map<Path, Bytes>
    var link: Link
    var record: Option<Record>

    constructor ()
      ensures Settled(files, link, record) && record == None
    {
      files, link, record := map[], Missing, None;
    }

    /** Replaces helpers one by one, remembering what each target held. What it owns so
        far and the backups survive a failure. */
    method DeployTools(helpers: seq<Helper>, owned0: map<Path, Bytes>)
        returns (ok: bool, owned: map<Path, Bytes>, backups: map<Path, Option<Bytes>>)
      requires HelpersOk(helpers)
      modifies this`files
      ensures Deployed(old(files), owned0, files, owned, backups)
      ensures Kept(old(files), owned0, files, owned, Identity)
      ensures Recorded(helpers, owned0, owned, backups)
      ensures ok ==> Owned(files, owned, backups)
      ensures ok ==> InPlace(helpers, files, owned)
    {
      ok, owned, backups := true, owned0, map[];
      for i := 0 to |helpers|
        invariant ok
        invariant Deployed(old(files), owned0, files, owned, backups)
        invariant Kept(old(files), owned0, files, owned, Identity)
        invariant Recorded(helpers, owned0, owned, backups)
        invariant Owned(files, owned, backups)
        invariant Progress(helpers, i, files, owned, backups)
      {
        assert Kept(old(files), owned0, files, owned, helpers[i].path);
        ghost var files1, owned1, backups1 := files, owned, backups;
        ok, owned, backups := DeployOne(helpers[i], old(files), owned0, owned, backups);
        Advance(helpers, i, owned0, files1, owned1, backups1, files, owned, backups, ok);
        if !ok { return; }
      }
      assert helpers[..|helpers|] == helpers;
    }

    /** The helpers, then the identity file, which has no backup. */
    method DeployHelpers(helpers: seq<Helper>, owned0: map<Path, Bytes>, content: Bytes)
        returns (ok: bool, owned: map<Path, Bytes>, backups: map<Path, Option<Bytes>>)
      requires HelpersOk(helpers)
      modifies this`files
      ensures Deployed(old(files), owned0, files, owned, backups)
      ensures IdentityState(old(files), owned0, files, owned, content)
      ensures Recorded(helpers, owned0, owned, backups)
      ensures ok ==> Owned(files, owned, backups)
      ensures ok ==> At(files, Identity) == At(owned, Identity) == Some(content)
      ensures ok ==> InPlace(helpers, files, owned)
    {
      ok, owned, backups := DeployTools(helpers, owned0);
      if !ok { return; }
      ghost var files1 := files;
      ok := WriteIdentity(content);
      IdentityApart(helpers, old(files), owned0, files1, files, owned, owned, backups);
      if !ok { return; }
      IdentityApart(helpers, old(files), owned0, files1, files, owned, owned[Identity := content], backups);
      owned := owned[Identity := content];
      ok := *;                                   // daemon-reload
    }

    method WriteIdentity(content: Bytes) returns (ok: bool)
      modifies this`files
      ensures forall p | p != Identity :: At(files, p) == At(old(files), p)
      ensures At(files, Identity) == Some(content) || (!ok && files == old(files))
    {
      ok := *;
      if !ok { return; }
      files := files[Identity := content];
      ok := *;                                   // taking its digest failed
    }

    method DeployOne(h: Helper, ghost before: map<Path, Bytes>, ghost owned0: map<Path, Bytes>,
                     owned: map<Path, Bytes>, backups: map<Path, Option<Bytes>>)
        returns (ok: bool, owned': map<Path, Bytes>, backups': map<Path, Option<Bytes>>)
      requires Deployed(before, owned0, files, owned, backups) && h.path != Identity && h.path !in backups
      modifies this`files
      ensures Deployed(before, owned0, files, owned', backups')
      ensures forall p | p != h.path :: At(owned', p) == At(owned, p)
      ensures At(owned', h.path) == At(owned, h.path) || At(owned', h.path) == Some(h.content)
      ensures backups'.Keys <= backups.Keys + {h.path}
      ensures forall p | p != h.path :: At(files, p) == At(old(files), p)
      ensures ok && Owned(old(files), owned, backups) ==> Owned(files, owned', backups')
      ensures ok && h.path.Privileged() ==> At(files, h.path) == At(owned', h.path) == Some(h.content)
    {
      owned', backups' := owned, backups;
      ok := *;
      if !ok { return; }                         // unsafe permissions
      if h.path in files && h.path in owned && files[h.path] != owned[h.path] {
        ok := !h.path.Privileged();              // an edited profile is preserved
        return;
      }
      if h.path in files && h.path !in owned {
        ok := false;
        return;
      }
      DeployStep(before, owned0, files, owned, backups, h.path, h.content);
      backups' := backups[h.path := At(files, h.path)];
      ok := *;
      if !ok { return; }                         // failed before the rename
      files := files[h.path := h.content];
      ok := *;
      if !ok { return; }                         // taking its digest failed
      owned' := owned[h.path := h.content];
    }

    /** Puts every replaced file back, in any order. */
    method Restore(backups: map<Path, Option<Bytes>>) returns (ok: bool)
      modifies this`files
      ensures ok ==> forall p :: At(files, p) == if p in backups then backups[p] else At(old(files), p)
    {
      var todo := backups.Keys;
      while todo != {}
        invariant todo <= backups.Keys
        invariant forall p :: At(files, p) == if p in backups && p !in todo then backups[p] else At(old(files), p)
        decreases |todo|
      {
        var p :| p in todo;
        ok := *;
        if !ok { return; }
        if backups[p].None? {
          files := files - {p};
        } else {
          files := files[p := backups[p].value];
        }
        todo := todo - {p};
      }
      ok := true;
    }

    /** Writing the record is atomic: a failed write left the old record or the new. */
    method Save(state: Record) returns (ok: bool)
      modifies this`record
      ensures record == Some(state) || (!ok && record == old(record))
    {
      ok := *;
      var landed := *;
      if ok || landed { record := Some(state); }
    }

    method Point(version: string) returns (ok: bool)
      modifies this`link
      ensures ok ==> link == ToRelease(version)
      ensures !ok ==> link == old(link)
    {
      ok := *;
      if ok { link := ToRelease(version); }
    }

    /** The steps of the transaction, any of which may fail. The backups and the record in
        memory are what the handler then works from. */
    method Attempt(helpers: seq<Helper>, release: string, state0: Record)
        returns (ok: bool, state: Record, backups: map<Path, Option<Bytes>>, ghost deployed: bool)
      requires HelpersOk(helpers)
      modifies this
      ensures Deployed(old(files), state0.owned, files, state.owned, backups)
      ensures IdentityState(old(files), state0.owned, files, state.owned, IdentityContent(state0.uid, state0.gid))
      ensures Recorded(helpers, state0.owned, state.owned, backups)
      ensures deployed ==> InPlace(helpers, files, state.owned)
      ensures deployed ==> At(files, Identity) == Some(IdentityContent(state0.uid, state0.gid))
      ensures state.versions == state0.versions && state.uid == state0.uid && state.gid == state0.gid
      ensures ok ==> Owned(files, state.owned, backups)
      ensures ok ==> At(files, Identity) == At(state.owned, Identity) == Some(IdentityContent(state.uid, state.gid))
      ensures ok ==>
                && deployed && state.current == Some(release) && state.previous == state0.current
                && record == Some(state) && link == ToRelease(release)
    {
      var owned;
      ok, owned, backups := DeployHelpers(helpers, state0.owned, IdentityContent(state0.uid, state0.gid));
      state, deployed := state0.(owned := owned), ok;
      if !ok { return; }
      ok := Point(release);
      if !ok { return; }
      state := state.(previous := state0.current, current := Some(release));
      ok := Save(state);
      if !ok { return; }
      ok := *;                                   // enable, start and probe the service
    }

    /** The handler: put the files back, then the link and the record of the release that
        was current, or none of either. */
    method Undo(state0: Record, state: Record, backups: map<Path, Option<Bytes>>) returns (ok: bool)
      modifies this
      ensures ok ==> forall p :: At(files, p) == if p in backups then backups[p] else At(old(files), p)
      ensures ok ==> LinkAgrees(link, state0.current)
      ensures ok ==> record == Some(if state0.current.Some? then state0 else state.(current := None))
    {
      ok := Restore(backups);
      if !ok { return; }
      if state0.current.Some? {
        ok := Point(state0.current.value);
        if !ok { return; }
        ok := Save(state0);
      } else {
        link := Missing;
        ok := Save(state.(current := None));
      }
    }

    /** If a step fails and the undo succeeds, the current release, every file but a
        freshly written identity and, exactly when it was the one the record called for,
        the command link are as before. */
    method Transaction(helpers: seq<Helper>, release: string, state0: Record) returns (o: Outcome, ghost deployed: bool)
      requires HelpersOk(helpers) && record == Some(state0)
      modifies this
      ensures o in {Committed, RolledBack, Broken}
      ensures o.Committed? ==> link == ToRelease(release) && record.Some? && record.value.current == Some(release)
      ensures o.Committed? ==> record.value.previous == state0.current && record.value.versions == state0.versions
      ensures o.Committed? ==> InPlace(helpers, files, record.value.owned)
      ensures o.RolledBack? ==> Restored(old(files), files, IdentityContent(state0.uid, state0.gid))
      // every file is put back if the identity file already was what is written, and
      // after a full deployment only then
      ensures o.RolledBack? && At(old(files), Identity) == Some(IdentityContent(state0.uid, state0.gid)) ==>
                files == old(files)
      ensures o.RolledBack? && deployed ==>
        (files == old(files) <==> At(old(files), Identity) == Some(IdentityContent(state0.uid, state0.gid)))
      ensures o.RolledBack? ==>
                record.Some? && record.value.current == state0.current && record.value.versions == state0.versions
      ensures o.RolledBack? && state0.current.Some? ==> record == Some(state0)
      ensures o.RolledBack? ==> (link == old(link) <==> LinkAgrees(old(link), state0.current))
      ensures !o.Broken? && Settled(old(files), old(link), Some(state0)) ==> Settled(files, link, record)
      ensures o.RolledBack? && Formed(state0) && Accepts(old(files), old(link), state0) ==>
        && (state0.current.Some? || Unchanged(old(files), helpers) ==> Accepts(files, link, record.value))
        && (state0.current.None? && deployed && !Unchanged(old(files), helpers) ==> !Accepts(files, link, record.value))
    {
      ghost var before := files;
      var ok, state, backups;
      ok, state, backups, deployed := Attempt(helpers, release, state0);
      if ok {
        if Unmodified(before, state0.owned) { CommitSettles(before, state0, files, state.owned, backups); }
        return Committed, deployed;
      }
      ghost var mid := files;
      ok := Undo(state0, state, backups);
      if !ok { return Broken, deployed; }
      UndoRestores(before, state0, mid, state.owned, backups, files);
      o := RolledBack;
      if At(before, Identity) == Some(IdentityContent(state0.uid, state0.gid)) { SameFiles(before, files); }
      if Unmodified(before, state0.owned) && Formed(state0) {
        UndoMatchesOldRecord(before, state0, files);
        UndoAgainstNewRecord(helpers, before, state0, mid, state.owned, backups, files, deployed);
        if Bare(before, state0.owned) {
          UndoMatchesNewRecord(before, state0, mid, state.owned, backups, files);
        }
      }
    }

    /** The ownership check of a run, with or without a record. */
    predicate Owns()
      reads this
    {
      match record
      case None => link == Missing && files == map[]
      case Some(r) => Accepts(files, link, r)
    }

    /** The identity file of the account on record, or of the one newly made. */
    function Account(uid: nat, gid: nat): Bytes
      reads this
    {
      if record.Some? then IdentityContent(record.value.uid, record.value.gid) else IdentityContent(uid, gid)
    }

    /** One run of the installer. What it refuses, or fails before the transaction, it
        leaves as it was apart from the list of retained releases. */
    method Install(helpers: seq<Helper>, release: string, uid: nat, gid: nat) returns (o: Outcome, ghost deployed: bool)
      requires HelpersOk(helpers)
      modifies this
      ensures !old(Owns()) ==> o.Refused? && record == old(record)
      ensures o.Refused? || o.Retained? ==> files == old(files) && link == old(link)
      ensures o.Refused? && old(record.Some?) ==>
                record.Some? && record == Some(old(record).value.(versions := record.value.versions))
      ensures o.Retained? ==> record == old(record) && record.Some? && record.value.current == Some(release)
      ensures o.Committed? ==>
                && record.Some? && record.value.current == Some(release) && link == ToRelease(release)
                && InPlace(helpers, files, record.value.owned)
      ensures o.RolledBack? ==>
                record.Some? && record.value.current == (if old(record.Some?) then old(record).value.current else None)
      ensures o.RolledBack? ==> forall p | p != Identity :: At(files, p) == At(old(files), p)
      ensures o.RolledBack? && At(old(files), Identity) == Some(old(Account(uid, gid))) ==> files == old(files)
      ensures o.RolledBack? && deployed ==>
                (files == old(files) <==> At(old(files), Identity) == Some(old(Account(uid, gid))))
      ensures o.RolledBack? ==>
        (link == old(link) <==> LinkAgrees(old(link), if old(record.Some?) then old(record).value.current else None))
      ensures o.RolledBack? && old(Settled(files, link, record)) ==> link == old(link)
      ensures o.RolledBack? && old(Settled(files, link, record))
              && old(record.Some? && Identity in record.value.owned && Identity in files) ==>
        files == old(files)
      ensures old(Settled(files, link, record)) && !o.Broken? ==> Settled(files, link, record)
    {
      if !Owns() { return Refused, false; }
      var ok := *;
      if !ok { return Refused, false; }                 // account, init method
      if record.Some? && record.value.current == Some(release) {
        var intact, complete := *, *;
        if !intact { return Refused, false; }
        if complete && forall p | p in record.value.owned && p.Privileged() :: p in files { return Retained, false; }
      }
      var state := if record.Some? then record.value else Record(None, None, {}, map[], uid, gid);
      ok := Save(state);
      if !ok { return Refused, false; }
      ok := *;                                   // copying the release
      if !ok { return Refused, false; }
      state := state.(versions := state.versions + {release});
      ok := Save(state);
      if !ok { return Refused, false; }
      ok := *;                                   // validation, stopping the service
      if !ok { return Refused, false; }
      o, deployed := Transaction(helpers, release, state);
      if o.RolledBack? && old(Settled(files, link, record)) && Identity in state.owned && Identity in old(files) {
        SameFiles(old(files), files);
      }
    }

    /** Removes every owned file that is as recorded, in any order. */
    method RemoveOwned(owned: map<Path, Bytes>) returns (ok: bool)
      modifies this`files
      ensures forall p :: At(files, p) == At(old(files), p) || At(files, p) == None
      ensures ok ==> forall p :: At(files, p) == if At(old(files), p) == At(owned, p) then None else At(old(files), p)
    {
      var todo := owned.Keys;
      while todo != {}
        invariant todo <= owned.Keys
        invariant forall p ::
                    At(files, p) == if p !in todo && At(old(files), p) == At(owned, p) then None else At(old(files), p)
        decreases |todo|
      {
        var p :| p in todo;
        ok := *;
        if !ok { return; }
        if p in files && files[p] == owned[p] { files := files - {p}; }
        todo := todo - {p};
      }
      ok := true;
    }

    /** Removes the link and every owned file that is as recorded. A removal that stops
        half way can be run again. */
    method Uninstall() returns (o: Outcome)
      modifies this
      ensures o in {Refused, Committed, Broken}
      ensures o.Refused? ==> files == old(files) && link == old(link) && record == old(record)
      ensures !o.Refused? ==>
                old(record).Some? && old(Owns()) && record.Some? && record.value.owned == old(record).value.owned
      ensures !o.Refused? ==> link == if LinkAgrees(old(link), old(record).value.current) then Missing else old(link)
      ensures o.Broken? ==> record == old(record) && Owns()
      ensures o.Committed? ==> record == Some(old(record).value.(current := None))
      ensures o.Committed? ==> forall p ::
                At(files, p) == if At(old(files), p) == At(old(record).value.owned, p) then None else At(old(files), p)
      ensures old(Settled(files, link, record)) && !o.Broken? ==> Settled(files, link, record)
    {
      if record.None? || !Owns() { return Refused; }
      var r := record.value;
      var ok := *;
      if !ok { return Refused; }                 // stopping the service
      if r.current.Some? && link == ToRelease(r.current.value) { link := Missing; }
      ok := RemoveOwned(r.owned);
      SomeRemoved(old(files), files, r.owned);
      if !ok { return Broken; }
      ok := *;
      if !ok { return Broken; }
      AllRemoved(old(files), files, r.owned);
      record := Some(r.(current := None));
      o := Committed;
    }
  }

  datatype Action =
    | DoInstall(helpers: seq<Helper>, release: string, uid: nat, gid: nat)
    | DoUninstall
    | EditProfile(name: string, content: Bytes)

  /** Any sequence of installations, removals and profile edits, up to the first undo or
      removal that fails half way: the machine stays settled, so each next run's
      ownership check passes and each failed installation puts the link back. */
  method Lifetime(script: seq<Action>) returns (m: Machine, intact: bool)
    requires forall a | a in script && a.DoInstall? :: HelpersOk(a.helpers)
    ensures intact ==> Settled(m.files, m.link, m.record) && m.Owns()
  {
    m := new Machine();
    intact := true;
    for i := 0 to |script|
      invariant fresh(m)
      invariant intact ==> Settled(m.files, m.link, m.record)
    {
      if intact {
        var o := Committed;
        match script[i] {
          case DoInstall(helpers, release, uid, gid) =>
            assert script[i] in script;
            ghost var deployed;
            o, deployed := m.Install(helpers, release, uid, gid);
          case DoUninstall =>
            o := m.Uninstall();
          case EditProfile(name, content) =>
            if m.record.Some? { m.files := m.files[Profile(name) := content]; }
        }
        intact := !o.Broken?;
      }
    }
  }
}
