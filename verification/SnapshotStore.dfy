/** The private snapshot directory: one committed file, replaced by
    create / write / fsync / rename / directory-fsync, over a file system whose
    directory operations become durable only when the directory is synced.

    A payload is one value of `T`; a file whose bytes are incomplete holds `None`. */
module SnapshotStore {
  import opened Wrappers

  const MAX_SNAPSHOT: nat := 1024 * 1024

  datatype File<T> = File(content: Option<T>, synced: bool)

  /** The two names the store ever uses, as inode numbers. */
  datatype Directory = Directory(snapshot: Option<nat>, pending: Option<nat>)

  /** `dir` is what running processes see. `durable` holds every directory that a
      power loss may leave on the medium. Inodes below `next` have been used. */
  datatype FileSystem<T> = FileSystem(
    files: map<nat, File<T>>, next: nat, dir: Directory, durable: set<Directory>)

  /** The snapshot inode of `d` is absent, or complete and flushed. */
  ghost predicate Committed<T>(fs: FileSystem<T>, d: Directory) {
    d.snapshot.Some? ==>
      && d.snapshot.value in fs.files
      && fs.files[d.snapshot.value].synced
      && fs.files[d.snapshot.value].content.Some?
  }

  ghost predicate Sound<T>(fs: FileSystem<T>) {
    && fs.dir in fs.durable
    && (forall d | d in fs.durable :: Committed(fs, d))
    && (forall i | i in fs.files :: i < fs.next)
  }

  /** What reading the snapshot through directory `d` yields. */
  function Contents<T>(fs: FileSystem<T>, d: Directory): Option<T>
    requires Committed(fs, d)
  {
    if d.snapshot.None? then None else fs.files[d.snapshot.value].content
  }

  /** Every snapshot a power loss may leave behind. */
  function Possible<T(==)>(fs: FileSystem<T>): set<Option<T>>
    requires Sound(fs)
  {
    set d | d in fs.durable :: Contents(fs, d)
  }

  ghost function Visible<T>(fs: FileSystem<T>): Option<T>
    requires Sound(fs)
  {
    Contents(fs, fs.dir)
  }

  // ---------------------------------------------------------------- system calls

  function Enter<T>(fs: FileSystem<T>, dir: Directory): FileSystem<T> {
    fs.(dir := dir, durable := fs.durable + {dir})
  }

  function Create<T>(fs: FileSystem<T>): FileSystem<T> {
    Enter(fs.(files := fs.files[fs.next := File(None, false)], next := fs.next + 1),
          fs.dir.(pending := Some(fs.next)))
  }

  function Write<T>(fs: FileSystem<T>, inode: nat, content: Option<T>): FileSystem<T> {
    fs.(files := fs.files[inode := File(content, false)])
  }

  function Fsync<T>(fs: FileSystem<T>, inode: nat): FileSystem<T>
    requires inode in fs.files
  {
    fs.(files := fs.files[inode := fs.files[inode].(synced := true)])
  }

  function Rename<T>(fs: FileSystem<T>): FileSystem<T> {
    Enter(fs, Directory(fs.dir.pending, None))
  }

  function Unlink<T>(fs: FileSystem<T>): FileSystem<T> {
    Enter(fs, fs.dir.(pending := None))
  }

  function SyncDirectory<T>(fs: FileSystem<T>): FileSystem<T> {
    fs.(durable := {fs.dir})
  }

  /** The medium after a power loss: one possible directory, and every unflushed
      file in `torn` reduced to incomplete bytes. */
  function AfterPowerLoss<T>(fs: FileSystem<T>, survivor: Directory, torn: set<nat>): FileSystem<T> {
    var files := map i | i in fs.files ::
      if fs.files[i].synced || i !in torn then fs.files[i] else File(None, false);
    FileSystem(files, fs.next, survivor, {survivor})
  }

  // ---------------------------------------------------------------- what each call keeps

  /** `inode` exists and no directory that may survive names it as the snapshot. */
  ghost predicate Unpublished<T>(fs: FileSystem<T>, inode: nat) {
    && inode in fs.files
    && forall d | d in fs.durable :: d.snapshot != Some(inode)
  }

  lemma {:induction false} CreateKeeps<T>(fs: FileSystem<T>)
    requires Sound(fs)
    ensures Sound(Create(fs)) && Unpublished(Create(fs), fs.next)
    ensures Possible(Create(fs)) == Possible(fs)
  {
    var after := Create(fs);
    forall d | d in after.durable ensures Committed(after, d) && d.snapshot != Some(fs.next) {
      assert Committed(fs, if d in fs.durable then d else fs.dir);
    }
    forall d | d in fs.durable ensures Contents(after, d) == Contents(fs, d) {}
    assert Contents(after, after.dir) == Contents(fs, fs.dir);
  }

  lemma {:induction false} UnpublishedFileKeeps<T>(fs: FileSystem<T>, inode: nat, file: File<T>)
    requires Sound(fs) && Unpublished(fs, inode)
    ensures var after := fs.(files := fs.files[inode := file]);
            Sound(after) && Unpublished(after, inode) && Possible(after) == Possible(fs)
  {
    var after := fs.(files := fs.files[inode := file]);
    forall d | d in fs.durable ensures Committed(after, d) && Contents(after, d) == Contents(fs, d) {
      assert Committed(fs, d);
    }
  }

  lemma {:induction false} RenameKeeps<T>(fs: FileSystem<T>, inode: nat)
    requires Sound(fs) && fs.dir.pending == Some(inode) && inode in fs.files
    requires fs.files[inode].synced && fs.files[inode].content.Some?
    ensures Sound(Rename(fs)) && Visible(Rename(fs)) == fs.files[inode].content
    ensures Possible(Rename(fs)) == Possible(fs) + {fs.files[inode].content}
  {
    var after := Rename(fs);
    forall d | d in fs.durable ensures Committed(after, d) && Contents(after, d) == Contents(fs, d) {
      assert Committed(fs, d);
    }
    assert Committed(after, after.dir);
  }

  lemma {:induction false} UnlinkKeeps<T>(fs: FileSystem<T>)
    requires Sound(fs)
    ensures Sound(Unlink(fs)) && Visible(Unlink(fs)) == Visible(fs) && Possible(Unlink(fs)) == Possible(fs)
  {
    var after := Unlink(fs);
    forall d | d in fs.durable ensures Committed(after, d) && Contents(after, d) == Contents(fs, d) {
      assert Committed(fs, d);
    }
    assert Contents(after, after.dir) == Contents(fs, fs.dir);
  }

  lemma {:induction false} SyncDirectoryKeeps<T>(fs: FileSystem<T>)
    requires Sound(fs)
    ensures Sound(SyncDirectory(fs)) && Visible(SyncDirectory(fs)) == Visible(fs)
    ensures Possible(SyncDirectory(fs)) == {Visible(fs)}
  {
    var after := SyncDirectory(fs);
    assert Committed(fs, fs.dir) && Committed(after, after.dir);
  }

  lemma {:induction false} PowerLossKeeps<T>(fs: FileSystem<T>, survivor: Directory, torn: set<nat>)
    requires Sound(fs) && survivor in fs.durable
    ensures var after := AfterPowerLoss(fs, survivor, torn);
            Sound(after) && Visible(after) in Possible(fs) && Possible(after) == {Visible(after)}
  {
    var after := AfterPowerLoss(fs, survivor, torn);
    assert Committed(fs, survivor) && Committed(after, survivor);
    assert Contents(after, survivor) == Contents(fs, survivor);
  }

  // ---------------------------------------------------------------- the store

  /** One replacement that reached the protocol, and what its caller was told. */
  datatype Outcome<T> = Outcome(payload: T, acknowledged: bool)

  /** What a read may return after `log`: the last acknowledged payload (initially
      nothing) or one attempted after it. */
  ghost function Admissible<T>(log: seq<Outcome<T>>): set<Option<T>> {
    if log == [] then {None}
    else
      var last := log[|log| - 1];
      if last.acknowledged then {Some(last.payload)}
      else Admissible(log[..|log| - 1]) + {Some(last.payload)}
  }

  /** `Admissible` said by position: nothing acknowledged comes after the value read. */
  lemma {:induction false} AdmissibleMeans<T>(log: seq<Outcome<T>>, v: Option<T>)
    ensures v in Admissible(log) <==>
              || (v.None? && forall j | 0 <= j < |log| :: !log[j].acknowledged)
              || (v.Some? && exists i | 0 <= i < |log| ::
                   && log[i].payload == v.value
                   && forall j | i < j < |log| :: !log[j].acknowledged)
  {
    if log != [] {
      var n := |log| - 1;
      AdmissibleMeans(log[..n], v);
      if v.Some? && log[n].payload != v.value {
        if !log[n].acknowledged && v in Admissible(log[..n]) {
          var i :| 0 <= i < n && log[..n][i].payload == v.value
                   && forall j | i < j < n :: !log[..n][j].acknowledged;
          assert log[i].payload == v.value && forall j | i < j < |log| :: !log[j].acknowledged;
        }
        if i :| 0 <= i < |log| && log[i].payload == v.value
                && forall j | i < j < |log| :: !log[j].acknowledged {
          assert log[..n][i].payload == v.value && forall j | i < j < n :: !log[..n][j].acknowledged;
        }
      }
    }
  }

  /** The medium and its operating system, which outlive every store session.
      `log` lists every replacement that was not refused up front. */
  class Disk<T(==)> {
    var fs: FileSystem<T>
    ghost var log: seq<Outcome<T>>

    ghost predicate Valid()
      reads this
    {
      Sound(fs) && Possible(fs) <= Admissible(log)
    }

    constructor ()
      ensures Valid() && fresh(this)
      ensures log == [] && Possible(fs) == {None}
    {
      fs := FileSystem(map[], 0, Directory(None, None), {Directory(None, None)});
      log := [];
    }

    /** Power is lost: any directory still possible is what comes back. */
    method PowerLoss()
      requires Valid()
      modifies this
      ensures Valid() && log == old(log)
      ensures Visible(fs) in old(Possible(fs))
      ensures Possible(fs) == {Visible(fs)}
    {
      var survivor: Directory := *;
      if survivor !in fs.durable {
        survivor := fs.dir;
      }
      var torn: set<nat> := *;
      PowerLossKeeps(fs, survivor, torn);
      fs := AfterPowerLoss(fs, survivor, torn);
    }
  }

  /** One session of the single writer. */
  class PrivateStore<T(==)> {
    const disk: Disk<T>
    const size: T -> nat
    var writeFailed: bool

    ghost predicate Valid()
      reads this, disk
    {
      disk.Valid()
    }

    constructor (disk: Disk<T>, size: T -> nat)
      requires disk.Valid()
      ensures this.disk == disk && this.size == size && !writeFailed
    {
      this.disk := disk;
      this.size := size;
      writeFailed := false;
    }

    /** Removes a leftover pending file; never promotes it. `false` reports an
        operating-system error, after which the session is not used. */
    method Recover() returns (ok: bool)
      requires Valid()
      modifies disk
      ensures Valid()
      ensures disk.log == old(disk.log)
      ensures Visible(disk.fs) == old(Visible(disk.fs))
      ensures Possible(disk.fs) <= old(Possible(disk.fs))
      ensures ok ==> disk.fs.dir.pending.None?
    {
      if disk.fs.dir.pending.Some? {
        ok := *;
        if !ok { return; }
        UnlinkKeeps(disk.fs);
        disk.fs := Unlink(disk.fs);
        ok := *;
        if !ok { return; }
        SyncDirectoryKeeps(disk.fs);
        disk.fs := SyncDirectory(disk.fs);
      }
      ok := true;
    }

    /** Returns only committed state: the last acknowledged payload, or one
        attempted after it. `ok` is false if the file cannot be opened or fails its
        metadata check. */
    method Read() returns (ok: bool, r: Option<T>)
      requires Valid()
      ensures ok ==> r == Visible(disk.fs) && r in Admissible(disk.log)
    {
      ok, r := *, None;
      if !ok { return; }
      assert Visible(disk.fs) in Possible(disk.fs);
      if disk.fs.dir.snapshot.None? {
        r := None;
      } else {
        r := disk.fs.files[disk.fs.dir.snapshot.value].content;
      }
    }

    method Replace(payload: T) returns (ok: bool)
      requires Valid()
      modifies this, disk
      ensures Valid()
      // a session writes nothing after its first failed write, and an oversized
      // payload is refused without touching the latch
      ensures old(writeFailed) || size(payload) > MAX_SNAPSHOT ==>
                !ok && disk.fs == old(disk.fs) && disk.log == old(disk.log) && writeFailed == old(writeFailed)
      ensures !(old(writeFailed) || size(payload) > MAX_SNAPSHOT) ==>
                disk.log == old(disk.log) + [Outcome(payload, ok)] && writeFailed == !ok
      // an acknowledged payload is the only one a power loss can leave
      ensures ok ==> Possible(disk.fs) == {Some(payload)}
      ensures !ok ==> Possible(disk.fs) <= old(Possible(disk.fs)) + {Some(payload)}
    {
      if writeFailed { return false; }
      if size(payload) > MAX_SNAPSHOT { return false; }
      writeFailed := true;
      ghost var before := disk.log;
      disk.log := before + [Outcome(payload, false)];
      assert disk.log[..|before|] == before;
      ok := ReplaceInner(payload);
      if ok {
        writeFailed := false;
        disk.log := before + [Outcome(payload, true)];
      }
    }

    method ReplaceInner(payload: T) returns (ok: bool)
      requires Valid()
      requires disk.log != [] && disk.log[|disk.log| - 1] == Outcome(payload, false)
      modifies disk
      ensures Valid() && disk.log == old(disk.log)
      ensures ok ==> Possible(disk.fs) == {Some(payload)}
      ensures !ok ==> Possible(disk.fs) <= old(Possible(disk.fs)) + {Some(payload)}
    {
      ok := *;                                   // the committed file's metadata check
      if !ok || disk.fs.dir.pending.Some? { return false; }   // O_EXCL
      var inode := disk.fs.next;
      CreateKeeps(disk.fs);
      disk.fs := Create(disk.fs);
      ok := *;
      if !ok { return; }
      ok := FillAndFlush(inode, payload);
      if !ok { return; }
      RenameKeeps(disk.fs, inode);
      disk.fs := Rename(disk.fs);
      ok := *;
      if !ok { return; }
      SyncDirectoryKeeps(disk.fs);
      disk.fs := SyncDirectory(disk.fs);
    }

    /** Writes and flushes the pending file; a failure leaves any prefix of it. */
    method FillAndFlush(inode: nat, payload: T) returns (ok: bool)
      requires Valid() && Unpublished(disk.fs, inode)
      modifies disk`fs
      ensures Valid() && Possible(disk.fs) == old(Possible(disk.fs))
      ensures disk.fs.dir == old(disk.fs.dir) && inode in disk.fs.files
      ensures ok ==> disk.fs.files[inode] == File(Some(payload), true)
    {
      UnpublishedFileKeeps(disk.fs, inode, File(None, false));
      disk.fs := Write(disk.fs, inode, None);
      ok := *;
      if !ok { return; }
      UnpublishedFileKeeps(disk.fs, inode, File(Some(payload), false));
      disk.fs := Write(disk.fs, inode, Some(payload));
      ok := *;
      if !ok { return; }
      UnpublishedFileKeeps(disk.fs, inode, File(Some(payload), true));
      disk.fs := Fsync(disk.fs, inode);
    }
  }
}
