/** The handlers that carry out a plan at the client and serve it at the server, one user's
    database on each side, proved against the steps of the synchronisation round. */
module PlanHandlers {
  import opened Common
  import opened Paths
  import opened TreeView
  import opened Index
  import opened SyncCommon
  import opened HashDiff
  import opened Replicas
  import opened Convergence
  import Transfer

  /** The entries of a plan in the order the client goes through them. */
  function EntriesOf(plan: Plan): seq<Finding> {
    Flagged(OnlyInLeft, plan.onlyInLeft) + Flagged(OnlyInRight, plan.onlyInRight)
    + Timed(ModifiedWinsLeft, plan.modifiedWinsLeft) + Timed(ModifiedWinsRight, plan.modifiedWinsRight)
    + Timed(DeletionWinsLeft, plan.deletionWinsLeft) + Timed(DeletionWinsRight, plan.deletionWinsRight)
  }

  function Flagged(b: DiffBucket, s: seq<(bool, Path)>): seq<Finding> {
    seq(|s|, i requires 0 <= i < |s| => Finding(b, s[i].0, s[i].1, 0))
  }

  function Timed(b: DiffBucket, s: seq<TimedFileEntry>): seq<Finding> {
    seq(|s|, i requires 0 <= i < |s| => Finding(b, true, s[i].path, s[i].mtime))
  }

  /** No entry names the root. */
  ghost predicate NoRoot(fs: seq<Finding>) {
    forall f :: f in fs ==> f.path != []
  }

  /** Going through entries one after the other. */
  ghost function Carry(H: Hasher, c: Replica, tasks: set<Task>, fs: seq<Finding>): (r: (Replica, set<Task>))
    requires Wf(c.db.tree) && NoRoot(fs)
    ensures Wf(r.0.db.tree)
  {
    if fs == [] then (c, tasks)
    else
      var n := |fs| - 1;
      assert fs[n] in fs;
      var (d, t) := Carry(H, c, tasks, fs[..n]);
      (Staged(H, d, fs[n]), t + Started(d, fs[n]))
  }

  lemma CarryNext(H: Hasher, c: Replica, tasks: set<Task>, fs: seq<Finding>, n: nat)
    requires Wf(c.db.tree) && NoRoot(fs) && n < |fs|
    ensures NoRoot(fs[..n]) && NoRoot(fs[..n + 1]) && fs[n].path != []
    ensures var r := Carry(H, c, tasks, fs[..n]);
      Carry(H, c, tasks, fs[..n + 1]) == (Staged(H, r.0, fs[n]), r.1 + Started(r.0, fs[n]))
  {
    assert fs[n] in fs;
    assert fs[..n + 1][..n] == fs[..n];
  }

  lemma {:induction false} CarryAppend(H: Hasher, c: Replica, tasks: set<Task>, a: seq<Finding>, b: seq<Finding>)
    requires Wf(c.db.tree) && NoRoot(a) && NoRoot(b)
    ensures NoRoot(a + b)
    ensures var r := Carry(H, c, tasks, a); Carry(H, c, tasks, a + b) == Carry(H, r.0, r.1, b)
  {
    hide Wf, Staged, Started;
    if b == [] {
      assert a + b == a;
    } else {
      var n := |b| - 1;
      assert (a + b)[..|a + b| - 1] == a + b[..n];
      CarryAppend(H, c, tasks, a, b[..n]);
    }
  }

  // ----- directory listings -----

  /** The tombstones of a listing in order. */
  function DeletedPaths(es: seq<FileEntry>): seq<Path> {
    if es == [] then [] else
      var e := es[|es| - 1];
      DeletedPaths(es[..|es| - 1]) + if e.deleted then [e.path] else []
  }

  lemma {:induction false} DeletedListed(es: seq<FileEntry>, p: Path)
    ensures p in DeletedPaths(es) <==> exists e :: e in es && e.deleted && e.path == p
  {
    if es != [] {
      var t, x := es[..|es| - 1], es[|es| - 1];
      DeletedListed(t, p);
      assert es == t + [x];
    }
  }

  lemma {:induction false} DeletedOnce(es: seq<FileEntry>)
    requires forall i, j :: 0 <= i < j < |es| && es[i].deleted && es[j].deleted ==> es[i].path != es[j].path
    ensures NoDup(DeletedPaths(es))
  {
    if es != [] {
      var t, x := es[..|es| - 1], es[|es| - 1];
      DeletedOnce(t);
      DeletedListed(t, x.path);
    }
  }

  /** The message says what the listing on its way back says. */
  ghost predicate Tells(es: seq<FileEntry>, t: Task) {
    && t.Listed?
    && (forall p :: p in t.files <==> exists e :: e in es && !e.deleted && e.path == p)
    && NoDup(DeletedPaths(es)) && (forall p :: p in DeletedPaths(es) <==> p in t.tombs)
    && (forall e :: e in es && e.deleted ==> e.path in t.tombs && t.tombs[e.path] == e.mtime)
  }

  class FileClient {
    const H: Hasher
    var files: map<Path, Bytes>
    var tasks: set<Task>  // transfers running, commands and requests sent or about to be
    ghost var db: Db

    constructor (H: Hasher, files: map<Path, Bytes>, ghost db: Db)
      ensures this.H == H && Here() == Replica(files, db) && tasks == {}
    {
      this.H, this.files, this.db, tasks := H, files, db, {};
    }

    ghost function Here(): Replica
      reads this
    {
      Replica(files, db)
    }

    /** The round as the client takes part in it, given the server and the entries still to come. */
    ghost function Seen(server: Replica, todo: set<Finding>): World
      reads this
    {
      World(Here(), server, todo, tasks)
    }

    /** If the round was ready for it, the handler finished the task. */
    twostate predicate Finishes(server: Replica, todo: set<Finding>, t: Task, replied: Time, order: seq<Path>)
      reads this
    {
      old(Ready(Seen(server, todo), Done(t, replied, order))) ==>
        Seen(server, todo) == Finish(H, old(Seen(server, todo)), t, replied, order)
    }

    /** The handler went through the entries. */
    twostate predicate Carried(fs: seq<Finding>)
      reads this
      requires old(Wf(db.tree)) && NoRoot(fs)
    {
      (Here(), tasks) == Carry(H, old(Here()), old(tasks), fs)
    }

    method UploadRequested(path: Path)
      modifies `tasks
      ensures tasks == old(tasks) + {Up(path)}
    {
      tasks := tasks + {Up(path)};
    }

    method DownloadRequested(path: Path)
      modifies `tasks
      ensures tasks == old(tasks) + {Down(path)}
    {
      tasks := tasks + {Down(path)};
    }

    /** Every local file below the directory. */
    method StageDirectoryUpload(dir: Path)
      modifies `tasks
      ensures tasks == old(tasks) + set q | q in files && dir <= q :: Up(q)
    {
      var rest := files.Keys;
      while rest != {}
        invariant rest <= files.Keys
        invariant tasks == old(tasks) + set q | q in files && q !in rest && dir <= q :: Up(q)
        decreases |rest|
      {
        var path :| path in rest;
        rest := rest - {path};
        if dir <= path {
          UploadRequested(path);
        }
      }
    }

    method StageDirectoryDownload(dir: Path)
      modifies `tasks
      ensures tasks == old(tasks) + {Ask(dir)}
    {
      tasks := tasks + {Ask(dir)};
    }

    /** Prepare the request and tombstone the local tree at once. */
    method StageDeleteFor(path: Path, at: Time)
      requires Wf(db.tree) && path != []
      modifies this
      ensures Here() == Staged(H, old(Here()), Finding(DeletionWinsLeft, true, path, at))
      ensures files == old(files) && db == old(db).(tree := DeleteView(H, old(db.tree), path, at))
      ensures tasks == old(tasks) + {Erasing(path, at)}
    {
      tasks := tasks + {Erasing(path, at)};
      db := db.(tree := DeleteView(H, db.tree, path, at));
    }

    method ApplyTombstone(path: Path, at: Time)
      requires Wf(db.tree) && path != []
      modifies `files, `db
      ensures Here() == Convergence.ApplyTombstone(H, old(Here()), path, at)
      ensures path !in old(files) ==> Here() == old(Here())
      ensures path in old(files) ==>
        files == old(files) - {path} && db == Index.RecordDeletion(H, old(db), path, at)
    {
      if path in files {
        files := files - {path};
        db := Index.RecordDeletion(H, db, path, at);
      }
    }

    method GoUp(entries: seq<(bool, Path)>)
      requires Wf(db.tree) && NoRoot(Flagged(OnlyInLeft, entries))
      modifies this
      ensures Carried(Flagged(OnlyInLeft, entries))
    {
      hide Wf;
      ghost var fs := Flagged(OnlyInLeft, entries);
      assert fs[..0] == [];
      for i := 0 to |entries|
        invariant NoRoot(fs[..i]) && (Here(), tasks) == Carry(H, old(Here()), old(tasks), fs[..i])
      {
        CarryNext(H, old(Here()), old(tasks), fs, i);
        var (isFile, path) := entries[i];
        if isFile {
          UploadRequested(path);
        } else {
          StageDirectoryUpload(path);
        }
      }
      assert fs[..|entries|] == fs;
    }

    method GoDown(entries: seq<(bool, Path)>)
      requires Wf(db.tree) && NoRoot(Flagged(OnlyInRight, entries))
      modifies this
      ensures Carried(Flagged(OnlyInRight, entries))
    {
      hide Wf;
      ghost var fs := Flagged(OnlyInRight, entries);
      assert fs[..0] == [];
      for i := 0 to |entries|
        invariant NoRoot(fs[..i]) && (Here(), tasks) == Carry(H, old(Here()), old(tasks), fs[..i])
      {
        CarryNext(H, old(Here()), old(tasks), fs, i);
        var (isFile, path) := entries[i];
        if isFile {
          DownloadRequested(path);
        } else {
          StageDirectoryDownload(path);
        }
      }
      assert fs[..|entries|] == fs;
    }

    /** Our version is newer: upload it. Theirs is newer: download it. */
    method GoNewer(bucket: DiffBucket, entries: seq<TimedFileEntry>)
      requires bucket.ModifiedWinsLeft? || bucket.ModifiedWinsRight?
      requires Wf(db.tree) && NoRoot(Timed(bucket, entries))
      modifies this
      ensures Carried(Timed(bucket, entries))
    {
      hide Wf;
      ghost var fs := Timed(bucket, entries);
      assert fs[..0] == [];
      for i := 0 to |entries|
        invariant NoRoot(fs[..i]) && (Here(), tasks) == Carry(H, old(Here()), old(tasks), fs[..i])
      {
        CarryNext(H, old(Here()), old(tasks), fs, i);
        if bucket.ModifiedWinsLeft? {
          UploadRequested(entries[i].path);
        } else {
          DownloadRequested(entries[i].path);
        }
      }
      assert fs[..|entries|] == fs;
    }

    method GoDelete(bucket: DiffBucket, entries: seq<TimedFileEntry>)
      requires bucket.DeletionWinsLeft? || bucket.DeletionWinsRight?
      requires Wf(db.tree) && NoRoot(Timed(bucket, entries))
      modifies this
      ensures Carried(Timed(bucket, entries))
    {
      hide Wf, DeleteView, Index.RecordDeletion;
      ghost var fs := Timed(bucket, entries);
      assert fs[..0] == [];
      for i := 0 to |entries|
        invariant NoRoot(fs[..i]) && (Here(), tasks) == Carry(H, old(Here()), old(tasks), fs[..i])
      {
        CarryNext(H, old(Here()), old(tasks), fs, i);
        if bucket.DeletionWinsLeft? {
          StageDeleteFor(entries[i].path, entries[i].mtime);
        } else {
          ApplyTombstone(entries[i].path, entries[i].mtime);
          assert tasks + {} == tasks;
        }
      }
      assert fs[..|entries|] == fs;
    }

    /** Go through the six buckets of a finished negotiation. */
    method HandleNegotiationCompleted(plan: Plan)
      requires Wf(db.tree) && NoRoot(EntriesOf(plan))
      modifies this
      ensures Carried(EntriesOf(plan))
    {
      hide Wf, Carry, Flagged, Timed;
      ghost var c, t := Here(), tasks;
      ghost var a, b := Flagged(OnlyInLeft, plan.onlyInLeft), Flagged(OnlyInRight, plan.onlyInRight);
      ghost var d := Timed(ModifiedWinsLeft, plan.modifiedWinsLeft);
      ghost var e := Timed(ModifiedWinsRight, plan.modifiedWinsRight);
      ghost var f := Timed(DeletionWinsLeft, plan.deletionWinsLeft);
      ghost var g := Timed(DeletionWinsRight, plan.deletionWinsRight);
      assert NoRoot(a) && NoRoot(b) && NoRoot(d) && NoRoot(e) && NoRoot(f) && NoRoot(g);
      GoUp(plan.onlyInLeft);
      GoDown(plan.onlyInRight);
      CarryAppend(H, c, t, a, b);
      GoNewer(ModifiedWinsLeft, plan.modifiedWinsLeft);
      CarryAppend(H, c, t, a + b, d);
      GoNewer(ModifiedWinsRight, plan.modifiedWinsRight);
      CarryAppend(H, c, t, a + b + d, e);
      GoDelete(DeletionWinsLeft, plan.deletionWinsLeft);
      CarryAppend(H, c, t, a + b + d + e, f);
      GoDelete(DeletionWinsRight, plan.deletionWinsRight);
      CarryAppend(H, c, t, a + b + d + e + f, g);
    }

    /** The listing of a requested directory has come: download what is tracked there, and apply the
        tombstones, in the order they are listed. */
    method HandleMerkleDirectoryListing(
        entries: seq<FileEntry>, listed: Task, ghost server: Replica, ghost todo: set<Finding>)
      requires Wf(db.tree) && Tells(entries, listed) && [] !in listed.tombs
      modifies this
      ensures Here() == ApplyTombstones(H, old(Here()), listed.tombs, DeletedPaths(entries))
      ensures tasks == old(tasks) + Followed(server, listed) - {listed}
      ensures Finishes(server, todo, listed, 0, DeletedPaths(entries))
    {
      hide Wf, Index.RecordDeletion, Convergence.ApplyTombstone, Tells, DeletedPaths, ApplyTombstones;
      ghost var order := DeletedPaths(entries);
      TombstonesListed(entries, listed);
      NoTombstones(H, Here(), listed.tombs, entries);
      assert entries[..0] == [];
      for i := 0 to |entries|
        invariant forall p :: p in DeletedPaths(entries[..i]) ==> p in listed.tombs
        invariant tasks == old(tasks) + set e | e in entries[..i] && !e.deleted :: Down(e.path)
        invariant Here() == ApplyTombstones(H, old(Here()), listed.tombs, DeletedPaths(entries[..i]))
      {
        assert entries[..i + 1] == entries[..i] + [entries[i]];
        TombstoneNext(H, old(Here()), listed.tombs, entries, i);
        if entries[i].deleted {
          ApplyTombstone(entries[i].path, entries[i].mtime);
        } else {
          DownloadRequested(entries[i].path);
        }
      }
      assert entries[..|entries|] == entries;
      tasks := tasks - {listed};
      ListedFiles(entries, listed, server);
    }

    /** A finished download: keep the file under the server's time and hash. */
    method OnDownloadCompleted(
        path: Path, contents: Bytes, mtime: Time, hash: Bytes, ghost server: Replica, ghost todo: set<Finding>)
      requires Wf(db.tree) && Addable(db.tree, path)
      modifies this
      ensures Here() == Store(H, old(Here()), path, contents, mtime, hash) && tasks == old(tasks) - {Down(path)}
      ensures files == old(files)[path := contents] && db == Index.RecordFile(H, old(db), path, mtime, hash)
      ensures Offers(server, path, contents, mtime, hash) ==> Finishes(server, todo, Down(path), 0, [])
    {
      hide Wf, Addable, AddView, Transfer.Copy, Transfer.Uploads, Transfer.Downloads;
      tasks := tasks - {Down(path)};
      files := files[path := contents];
      db := Index.RecordFile(H, db, path, mtime, hash);
    }

    /** The server has acknowledged: record the deletion under the time the reply carries. After an error
        nothing is recorded. */
    method HandleDeleteResponse(
        path: Path, status: FileOperationStatus, replied: Time, ghost server: Replica, ghost todo: set<Finding>)
      requires Wf(db.tree) && path != []
      modifies this
      ensures status.Deleted? ==> Finishes(server, todo, Acking(path), replied, [])
      ensures status.Deleted? ==> Untracked(path, replied) && Here().files == old(Here()).files
      ensures status.Error? ==> Here() == old(Here())
      ensures tasks == old(tasks) - {Acking(path)}
    {
      hide Wf, DeleteView;
      tasks := tasks - {Acking(path)};
      if status.Deleted? {
        db := Index.RecordDeletion(H, db, path, replied);
      }
    }

    /** The path is no longer tracked, its deletion is remembered; no other record has changed. */
    twostate predicate Untracked(path: Path, at: Time)
      reads this
    {
      && path !in db.mtimes && path !in db.hashes && path in db.tombs && db.tombs[path] == at
      && forall q :: q != path ==>
           && (q in db.mtimes <==> q in old(db.mtimes)) && (q in db.tombs <==> q in old(db.tombs))
           && (q in db.mtimes ==> db.mtimes[q] == old(db.mtimes)[q])
           && (q in db.tombs ==> db.tombs[q] == old(db.tombs)[q])
    }
  }

  lemma TombstonesListed(es: seq<FileEntry>, t: Task)
    requires Tells(es, t)
    ensures t.Listed? && forall e :: e in es && e.deleted ==> e.path in t.tombs && t.tombs[e.path] == e.mtime
  {
  }

  lemma NoTombstones(H: Hasher, c: Replica, tombs: map<Path, Time>, es: seq<FileEntry>)
    requires Wf(c.db.tree)
    ensures DeletedPaths(es[..0]) == [] && ApplyTombstones(H, c, tombs, []) == c
  {
    hide Wf;
  }

  /** One more entry of a listing applies its tombstone, if it is one. */
  lemma TombstoneNext(H: Hasher, c: Replica, tombs: map<Path, Time>, es: seq<FileEntry>, i: nat)
    requires Wf(c.db.tree) && i < |es|
    requires forall e :: e in es && e.deleted ==> e.path in tombs && e.path != []
    ensures es[i].deleted ==> es[i].path in tombs && es[i].path != []
    ensures var a, b := DeletedPaths(es[..i]), DeletedPaths(es[..i + 1]);
      && (forall p :: p in a ==> p in tombs && p != []) && (forall p :: p in b ==> p in tombs && p != [])
      && Wf(ApplyTombstones(H, c, tombs, a).db.tree)
      && ApplyTombstones(H, c, tombs, b) ==
           if es[i].deleted then
             ApplyTombstone(H, ApplyTombstones(H, c, tombs, a), es[i].path, tombs[es[i].path])
           else ApplyTombstones(H, c, tombs, a)
  {
    hide Wf, ApplyTombstone;
    assert es[i] in es && es[..i + 1][..i] == es[..i];
    forall p ensures p in DeletedPaths(es[..i]) ==> p in tombs && p != [] {
      DeletedListed(es[..i], p);
    }
    if es[i].deleted {
      var a, p := DeletedPaths(es[..i]), es[i].path;
      assert DeletedPaths(es[..i + 1]) == a + [p] && (a + [p])[..|a + [p]| - 1] == a;
    } else {
      assert DeletedPaths(es[..i + 1]) == DeletedPaths(es[..i]);
    }
  }

  /** The downloads of a listing are the work that follows on it. */
  lemma ListedFiles(es: seq<FileEntry>, t: Task, server: Replica)
    requires Tells(es, t)
    ensures (set e | e in es && !e.deleted :: Down(e.path)) == Followed(server, t)
  {
    var a := set e | e in es && !e.deleted :: Down(e.path);
    forall u ensures u in a <==> u in Followed(server, t) {
      if u.Down? {
        assert u.path in t.files <==> exists e :: e in es && !e.deleted && e.path == u.path;
      }
    }
  }

  /** These are what a transfer delivers of the side's file, and the time and hash it has it under. */
  predicate Offers(r: Replica, p: Path, contents: Bytes, mtime: Time, hash: Bytes) {
    && p in r.files && p in r.db.mtimes && p in r.db.hashes
    && contents == Transfer.Copy(r.files[p]) && r.db.mtimes[p] == mtime && r.db.hashes[p] == hash
  }

  /** The server's answers to a deletion request. */
  datatype FileOperationStatus = Deleted | Error

  class FileServer {
    const H: Hasher
    var files: map<Path, Bytes>
    var mtimes: map<Path, Time>
    var tombs: map<Path, Time>
    ghost var db: Db

    /** The two maps the handlers read are the database's. */
    ghost predicate Valid()
      reads this
    {
      Wf(db.tree) && mtimes == db.mtimes && tombs == db.tombs
    }

    constructor (H: Hasher, files: map<Path, Bytes>, mtimes: map<Path, Time>, tombs: map<Path, Time>, ghost db: Db)
      requires Wf(db.tree) && mtimes == db.mtimes && tombs == db.tombs
      ensures Valid() && this.H == H && Here() == Replica(files, db)
    {
      this.H, this.files, this.mtimes, this.tombs, this.db := H, files, mtimes, tombs, db;
    }

    ghost function Here(): Replica
      reads this
    {
      Replica(files, db)
    }

    /** The round's next state, as far as it is the server's. */
    twostate predicate Finishes(x: World, t: Task)
      reads this
      requires old(Here()) == x.server
    {
      Ready(x, Done(t, 0, [])) ==> Here() == Finish(H, x, t, 0, []).server
    }

    /** Delete what is tracked, without a look at the times; an unknown path counts as deleted, and an error
        is answered when the storage has no such file. */
    method HandleDeleteRequest(path: Path, at: Time, ghost x: World) returns (status: FileOperationStatus)
      requires Valid() && path != [] && x.server == Here()
      modifies this
      ensures Valid() && Finishes(x, Erasing(path, at))
      ensures status.Error? <==> old(path in mtimes && path !in files)
      ensures status.Error? || path !in old(mtimes) ==> Here() == old(Here())
      ensures status.Deleted? && path in old(mtimes) ==>
        files == old(files) - {path} && db == Index.RecordDeletion(H, old(db), path, at)
    {
      hide Wf, DeleteView;
      if path !in mtimes {
        return Deleted;
      }
      if path !in files {
        return Error;
      }
      files := files - {path};
      mtimes, tombs := mtimes - {path}, tombs[path := at];
      db := Index.RecordDeletion(H, db, path, at);
      return Deleted;
    }

    /** The tracked files and then the tombstones below a directory, or all of them, each once and with its
        time: the listing the round expects. */
    method HandleListRequest(dir: Path) returns (entries: seq<FileEntry>)
      requires Valid()
      ensures NoDup(entries) && forall e ::
        e in entries <==> EntryOf(db.mtimes, dir, false, e) || EntryOf(db.tombs, dir, true, e)
      ensures dir != [] ==> Followed(Here(), Ask(dir)) == {ListingBelow(Here(), dir)}
      ensures dir != [] ==> Tells(entries, ListingBelow(Here(), dir))
    {
      hide Wf;
      var tracked := Listing(mtimes, dir, false);
      var deleted := Listing(tombs, dir, true);
      entries := tracked + deleted;
      FilesThenTombstones(tracked, deleted);
      if dir != [] {
        ListingTells(Here(), dir, entries);
      }
    }

    static method Listing(times: map<Path, Time>, dir: Path, deleted: bool) returns (entries: seq<FileEntry>)
      ensures NoDup(entries) && forall e :: e in entries <==> EntryOf(times, dir, deleted, e)
    {
      entries := [];
      var rest := times.Keys;
      while rest != {}
        invariant rest <= times.Keys && NoDup(entries)
        invariant forall e :: e in entries <==> EntryOf(times, dir, deleted, e) && e.path !in rest
        decreases |rest|
      {
        var path :| path in rest;
        rest := rest - {path};
        if dir == [] || dir < path {
          entries := entries + [FileEntry(path, times[path], deleted, [])];
        }
      }
    }

    /** A finished upload: keep the file under the time and hash the client announced. */
    method OnUploadCompleted(path: Path, contents: Bytes, mtime: Time, hash: Bytes, ghost x: World)
      requires Valid() && Addable(db.tree, path) && x.server == Here()
      modifies this
      ensures Valid() && Here() == Store(H, old(Here()), path, contents, mtime, hash)
      ensures files == old(files)[path := contents] && db == Index.RecordFile(H, old(db), path, mtime, hash)
      ensures Offers(x.client, path, contents, mtime, hash) ==> Finishes(x, Up(path))
    {
      hide Wf, AddView, Addable, Transfer.Copy, Transfer.Uploads, Transfer.Downloads;
      files := files[path := contents];
      mtimes := mtimes[path := mtime];
      db := Index.RecordFile(H, db, path, mtime, hash);
    }
  }

  /** The entry of a recorded time at or below the directory asked for. */
  predicate EntryOf(times: map<Path, Time>, dir: Path, deleted: bool, e: FileEntry) {
    e.path in times && (dir == [] || dir < e.path) && e == FileEntry(e.path, times[e.path], deleted, [])
  }

  lemma FilesThenTombstones(a: seq<FileEntry>, b: seq<FileEntry>)
    requires NoDup(a) && NoDup(b) && (forall e :: e in a ==> !e.deleted) && (forall e :: e in b ==> e.deleted)
    ensures NoDup(a + b)
  {
    forall i, j | 0 <= i < j < |a + b| ensures (a + b)[i] != (a + b)[j] {
      assert i < |a| ==> a[i] in a;
      assert j >= |a| ==> b[j - |a|] in b;
    }
  }

  lemma ListingTells(s: Replica, dir: Path, es: seq<FileEntry>)
    requires NoDup(es) && dir != []
    requires forall e :: e in es <==> EntryOf(s.db.mtimes, dir, false, e) || EntryOf(s.db.tombs, dir, true, e)
    ensures Tells(es, ListingBelow(s, dir))
  {
    var t := ListingBelow(s, dir);
    forall p ensures p in t.files <==> exists e :: e in es && !e.deleted && e.path == p {
      if p in t.files {
        assert FileEntry(p, s.db.mtimes[p], false, []) in es;
      }
    }
    forall p ensures p in DeletedPaths(es) <==> p in t.tombs {
      DeletedListed(es, p);
      if p in t.tombs {
        assert FileEntry(p, s.db.tombs[p], true, []) in es;
      }
    }
    forall i, j | 0 <= i < j < |es| && es[i].deleted && es[j].deleted ensures es[i].path != es[j].path {
      assert es[i] in es && es[j] in es;
    }
    DeletedOnce(es);
  }
}
