/** The client's look at its own directory before a round: what has changed since the database was written,
    and how far the database tells the truth afterwards. */
module LocalScan {
  import opened Common
  import opened Paths
  import opened TreeView
  import opened TreeRuns
  import opened Index
  import opened SyncCommon
  import opened Replicas

  /** Not tracked, or tracked under another time. */
  predicate Changed(mtimes: map<Path, Time>, times: map<Path, Time>, p: Path) {
    p in times && (p !in mtimes || mtimes[p] != times[p])
  }

  predicate Gone(mtimes: map<Path, Time>, times: map<Path, Time>, p: Path) {
    p in mtimes && p !in times
  }

  function EntryPaths(s: seq<TimedFileEntry>): set<Path> {
    set e | e in s :: e.path
  }

  /** The times by path, a later entry replacing an earlier one. */
  function EntryTimes(s: seq<TimedFileEntry>): map<Path, Time> {
    if s == [] then map[]
    else
      var e := s[|s| - 1];
      EntryTimes(s[..|s| - 1])[e.path := e.mtime]
  }

  lemma {:induction false} EntryTimesIn(s: seq<TimedFileEntry>, p: Path)
    ensures p in EntryTimes(s) <==> exists e :: e in s && e.path == p
    ensures p in EntryTimes(s) ==> TimedFileEntry(p, EntryTimes(s)[p]) in s
  {
    if s != [] {
      var t, x := s[..|s| - 1], s[|s| - 1];
      EntryTimesIn(t, p);
      assert s == t + [x];
    }
  }

  /** New and modified files with their times on disk; vanished ones with the recorded deletion time, if there
      is one, or the time of the scan. */
  method ScanFilesystemForChanges(
      mtimes: map<Path, Time>, tombs: map<Path, Time>, times: map<Path, Time>, now: Time)
    returns (newFiles: seq<TimedFileEntry>, modifiedFiles: seq<TimedFileEntry>, deletedFiles: seq<TimedFileEntry>)
    ensures NoDup(newFiles) && NoDup(modifiedFiles) && NoDup(deletedFiles)
    ensures forall e :: e in newFiles <==> e.path in times && e.mtime == times[e.path] && e.path !in mtimes
    ensures forall e :: e in modifiedFiles <==>
      e.path in times && e.mtime == times[e.path] && e.path in mtimes && mtimes[e.path] != times[e.path]
    ensures forall e :: e in deletedFiles <==>
      Gone(mtimes, times, e.path) && e.mtime == if e.path in tombs then tombs[e.path] else now
  {
    newFiles, modifiedFiles, deletedFiles := [], [], [];
    var rest := times.Keys;
    while rest != {}
      invariant rest <= times.Keys && NoDup(newFiles) && NoDup(modifiedFiles)
      invariant forall e :: e in newFiles <==>
        e.path in times && e.path !in rest && e.mtime == times[e.path] && e.path !in mtimes
      invariant forall e :: e in modifiedFiles <==>
        e.path in times && e.path !in rest && e.mtime == times[e.path] && e.path in mtimes
        && mtimes[e.path] != times[e.path]
      decreases |rest|
    {
      var path :| path in rest;
      rest := rest - {path};
      if path !in mtimes {
        newFiles := newFiles + [TimedFileEntry(path, times[path])];
      } else if times[path] != mtimes[path] {
        modifiedFiles := modifiedFiles + [TimedFileEntry(path, times[path])];
      }
    }
    rest := mtimes.Keys;
    while rest != {}
      invariant rest <= mtimes.Keys && NoDup(deletedFiles)
      invariant forall e :: e in deletedFiles <==>
        Gone(mtimes, times, e.path) && e.path !in rest && e.mtime == if e.path in tombs then tombs[e.path] else now
      decreases |rest|
    {
      var path :| path in rest;
      rest := rest - {path};
      if path !in times {
        deletedFiles := deletedFiles + [TimedFileEntry(path, if path in tombs then tombs[path] else now)];
      }
    }
  }

  /** The database after some files were recorded as they are and some were dropped. */
  ghost predicate Applied(
      H: Hasher, files: map<Path, Bytes>, times: map<Path, Time>, db: Db, cur: Db, done: set<Path>,
      gone: map<Path, Time>) {
    forall p ::
      && (p in cur.mtimes <==> p in done || (p in db.mtimes && p !in gone))
      && (p in done ==> p in times && p in files && cur.mtimes[p] == times[p])
      && (p in done ==> p in cur.hashes && cur.hashes[p] == H.digest(files[p]))
      && (p !in done && p in cur.mtimes ==> cur.mtimes[p] == db.mtimes[p])
      && (p !in done && p in cur.mtimes ==> p in cur.hashes && p in db.hashes && cur.hashes[p] == db.hashes[p])
      && (p in cur.tombs <==> p in gone || p in db.tombs)
      && (p in cur.tombs ==> cur.tombs[p] == if p in gone then gone[p] else db.tombs[p])
  }

  lemma NothingApplied(H: Hasher, P: iset<Path>, files: map<Path, Bytes>, times: map<Path, Time>, db: Db)
    requires Agrees(H, P, db)
    ensures Applied(H, files, times, db, db, {}, map[])
  {
    forall p ensures p in db.hashes <==> p in db.mtimes {
      assert AgreesAt(db, p);
    }
  }

  lemma OneApplied(
      H: Hasher, files: map<Path, Bytes>, times: map<Path, Time>, db: Db, cur: Db, next: Db, done: set<Path>, p: Path)
    requires Applied(H, files, times, db, cur, done, map[]) && p in files && p in times
    requires MapsStep(cur, next, Put(p, times[p], H.digest(files[p])))
    ensures Applied(H, files, times, db, next, done + {p}, map[])
  {
  }

  lemma OneDropped(
      H: Hasher, files: map<Path, Bytes>, times: map<Path, Time>, db: Db, cur: Db, next: Db, done: set<Path>,
      gone: map<Path, Time>, p: Path, at: Time)
    requires Applied(H, files, times, db, cur, done, gone) && p !in done && MapsStep(cur, next, Del(p, at))
    ensures Applied(H, files, times, db, next, done, gone[p := at])
  {
  }

  /** Record every entry as it is on disk. */
  method ApplyPresent(
      H: Hasher, ghost P: iset<Path>, files: map<Path, Bytes>, times: map<Path, Time>, entries: seq<TimedFileEntry>,
      ghost db: Db, ghost cur: Db, ghost done: set<Path>) returns (ghost next: Db)
    requires ClashFree(P) && Agrees(H, P, cur) && Applied(H, files, times, db, cur, done, map[])
    requires forall e :: e in entries ==> e.path in P && e.path in files && e.path in times && e.mtime == times[e.path]
    ensures Agrees(H, P, next) && Applied(H, files, times, db, next, done + EntryPaths(entries), map[])
  {
    hide Agrees, Applied, MapsStep, Record;
    next := cur;
    assert done + EntryPaths(entries[..0]) == done;
    for i := 0 to |entries|
      invariant Agrees(H, P, next) && Applied(H, files, times, db, next, done + EntryPaths(entries[..i]), map[])
    {
      var e := entries[i];
      assert e in entries && entries[..i + 1] == entries[..i] + [e];
      ghost var op := Put(e.path, e.mtime, H.digest(files[e.path]));
      RecordOnce(H, P, next, op);
      ghost var was := next;
      next := Record(H, next, op);
      OneApplied(H, files, times, db, was, next, done + EntryPaths(entries[..i]), e.path);
      assert done + EntryPaths(entries[..i]) + {e.path} == done + EntryPaths(entries[..i + 1]);
    }
    assert entries[..|entries|] == entries;
  }

  /** Drop every entry under its deletion time. */
  method ApplyGone(
      H: Hasher, ghost P: iset<Path>, files: map<Path, Bytes>, times: map<Path, Time>, entries: seq<TimedFileEntry>,
      ghost db: Db, ghost cur: Db, ghost done: set<Path>) returns (ghost next: Db)
    requires ClashFree(P) && Agrees(H, P, cur) && Applied(H, files, times, db, cur, done, map[])
    requires forall e :: e in entries ==> e.path in P && e.path !in done
    ensures Agrees(H, P, next) && Applied(H, files, times, db, next, done, EntryTimes(entries))
  {
    hide Agrees, Applied, MapsStep, Record;
    next := cur;
    assert entries[..0] == [];
    for i := 0 to |entries|
      invariant Agrees(H, P, next) && Applied(H, files, times, db, next, done, EntryTimes(entries[..i]))
    {
      var e := entries[i];
      assert e in entries && entries[..i + 1] == entries[..i] + [e];
      ghost var op := Del(e.path, e.mtime);
      RecordOnce(H, P, next, op);
      ghost var was := next;
      next := Record(H, next, op);
      OneDropped(H, files, times, db, was, next, done, EntryTimes(entries[..i]), e.path, e.mtime);
      assert entries[..i + 1][..i] == entries[..i];
    }
    assert entries[..|entries|] == entries;
  }

  lemma RecordOnce(H: Hasher, P: iset<Path>, db: Db, op: Op)
    requires ClashFree(P) && op.path in P && Agrees(H, P, db)
    ensures Wf(db.tree) && op.path != [] && (op.Put? ==> Addable(db.tree, op.path))
    ensures Agrees(H, P, Record(H, db, op)) && MapsStep(db, Record(H, db, op), op)
  {
    RecordAgrees(H, P, db, op);
    hide HashOk, Record, AgreesAt;
    RecordMaps(H, db, op);
  }

  /** The recorded hashes of the files whose time has not changed are those of their contents. */
  ghost predicate UnchangedTrue(H: Hasher, db: Db, files: map<Path, Bytes>, times: map<Path, Time>) {
    forall p :: p in files && p in times && p in db.mtimes && p in db.hashes && !Changed(db.mtimes, times, p) ==>
      db.hashes[p] == H.digest(files[p])
  }

  /** Vanished files are remembered as deleted at the recorded time, if there is one, or the time of the scan;
      every other tombstone is as before. */
  predicate Remembers(
      mtimes: map<Path, Time>, tombs: map<Path, Time>, times: map<Path, Time>, now: Time, next: map<Path, Time>) {
    && (forall p :: p in mtimes && p !in times ==> p in next && next[p] == if p in tombs then tombs[p] else now)
    && (forall p :: p in tombs ==> p in next && next[p] == tombs[p])
    && (forall p :: p in next ==> p in tombs || (p in mtimes && p !in times))
  }

  /** A scan and its changes applied: index, maps and files fit together, and the side counts as scanned if and
      only if no file has changed its contents and kept its time. */
  method ScanAndApply(
      H: Hasher, ghost P: iset<Path>, files: map<Path, Bytes>, times: map<Path, Time>, now: Time, ghost db: Db,
      mtimes: map<Path, Time>, tombs: map<Path, Time>) returns (ghost next: Db)
    requires ClashFree(P) && Agrees(H, P, db) && mtimes == db.mtimes && tombs == db.tombs
    requires files.Keys == times.Keys && forall p :: p in files ==> p in P
    ensures Tracked(H, P, Replica(files, next)) && next.mtimes == times
    ensures Scanned(H, P, Replica(files, next)) <==> UnchangedTrue(H, db, files, times)
    ensures Remembers(mtimes, tombs, times, now, next.tombs)
  {
    hide Agrees, Applied, Scanned, Tracked, UnchangedTrue, Remembers;
    var newFiles, modifiedFiles, deletedFiles := ScanFilesystemForChanges(mtimes, tombs, times, now);
    NothingApplied(H, P, files, times, db);
    next := ApplyPresent(H, P, files, times, newFiles, db, db, {});
    assert {} + EntryPaths(newFiles) == EntryPaths(newFiles);
    next := ApplyPresent(H, P, files, times, modifiedFiles, db, next, EntryPaths(newFiles));
    ghost var done := EntryPaths(newFiles) + EntryPaths(modifiedFiles);
    GoneInP(H, P, db);
    next := ApplyGone(H, P, files, times, deletedFiles, db, next, done);
    forall p
      ensures p in done <==> Changed(mtimes, times, p)
      ensures p in EntryTimes(deletedFiles) <==> Gone(mtimes, times, p)
      ensures p in EntryTimes(deletedFiles) ==> EntryTimes(deletedFiles)[p] == if p in tombs then tombs[p] else now
    {
      EntryTimesIn(deletedFiles, p);
      if p in times {
        assert TimedFileEntry(p, times[p]) in newFiles <==> p !in mtimes;
        assert TimedFileEntry(p, times[p]) in modifiedFiles <==> p in mtimes && mtimes[p] != times[p];
      }
      var e := TimedFileEntry(p, if p in tombs then tombs[p] else now);
      assert e in deletedFiles <==> Gone(mtimes, times, p);
    }
    hide EntryTimes, EntryPaths;
    AppliedScanned(H, P, files, times, db, next, done, EntryTimes(deletedFiles));
    AppliedRemembers(H, files, times, db, next, done, EntryTimes(deletedFiles), now);
  }

  lemma GoneInP(H: Hasher, P: iset<Path>, db: Db)
    requires Agrees(H, P, db)
    ensures forall p :: p in db.mtimes ==> p in P
  {
    forall p | p in db.mtimes ensures p in P {
      assert AgreesAt(db, p);
    }
  }

  lemma AppliedRemembers(
      H: Hasher, files: map<Path, Bytes>, times: map<Path, Time>, db: Db, next: Db, done: set<Path>,
      gone: map<Path, Time>, now: Time)
    requires Applied(H, files, times, db, next, done, gone)
    requires forall p :: p in gone <==> Gone(db.mtimes, times, p)
    requires forall p :: p in gone ==> gone[p] == if p in db.tombs then db.tombs[p] else now
    ensures Remembers(db.mtimes, db.tombs, times, now, next.tombs)
  {
  }

  lemma AppliedScanned(
      H: Hasher, P: iset<Path>, files: map<Path, Bytes>, times: map<Path, Time>, db: Db, next: Db, done: set<Path>,
      gone: map<Path, Time>)
    requires Agrees(H, P, db) && Agrees(H, P, next) && files.Keys == times.Keys
    requires Applied(H, files, times, db, next, done, gone)
    requires forall p :: p in done <==> Changed(db.mtimes, times, p)
    requires forall p :: p in gone <==> Gone(db.mtimes, times, p)
    ensures Tracked(H, P, Replica(files, next)) && next.mtimes == times
    ensures Scanned(H, P, Replica(files, next)) <==> UnchangedTrue(H, db, files, times)
  {
    hide Agrees;
    forall p
      ensures p in next.mtimes <==> p in times
      ensures p in next.mtimes ==> next.mtimes[p] == times[p]
      ensures p in files && p !in done ==> p in db.mtimes && p in db.hashes && p in next.hashes
      ensures p in files && p !in done ==> next.hashes[p] == db.hashes[p]
      ensures p in files && p in done ==> Honest(H, Replica(files, next), p)
    {
    }
    hide Applied;
    if Scanned(H, P, Replica(files, next)) {
      forall p | p in files && p in times && p in db.mtimes && p in db.hashes && !Changed(db.mtimes, times, p)
        ensures db.hashes[p] == H.digest(files[p])
      {
        assert Honest(H, Replica(files, next), p);
      }
    }
  }
}
