/** Comparing the disk with the tracked state: changed files, and moves recognised by inode. */
module Scanner {
  import opened Common

  const MISSING_INODE: nat := 0
  const UNKNOWN: Time := 0

  datatype Tracked = Tracked(filename: string, mtime: Time, inode: nat, isDir: bool, isTombstoned: bool)

  type State = map<string, Tracked>

  /** What the storage reports: files with their times, directories, and inodes where readable. */
  datatype Disk = Disk(
    files: map<string, Time>, dirs: set<string>, inodes: map<string, nat>, dirTimes: map<string, Time>)

  datatype Change = Change(path: string, time: Time)

  datatype Rename = Rename(oldPath: string, newPath: string, mtime: Time)

  datatype ChangeSet = ChangeSet(
    newFiles: seq<Change>, modifiedFiles: seq<Change>, deletedFiles: seq<Change>,
    renamedFiles: seq<Rename>, renamedDirectories: seq<Rename>)

  /** Entries are stored under their own names. */
  predicate Keyed(state: State) {
    forall p :: p in state ==> state[p].filename == p
  }

  // ----- what the lists are to contain -----

  /** Not tracked, or tracked as deleted. */
  predicate Candidate(state: State, p: string) {
    p !in state || state[p].isTombstoned
  }

  predicate Modified(state: State, disk: Disk, p: string) {
    p in disk.files && !Candidate(state, p) && disk.files[p] != state[p].mtime
  }

  /** A tracked live file that is gone from its path. */
  predicate Missing(state: State, disk: Disk, p: string) {
    p in state && !state[p].isTombstoned && !state[p].isDir && p !in disk.files
  }

  predicate MissingDir(state: State, disk: Disk, p: string) {
    p in state && !state[p].isTombstoned && state[p].isDir && p !in disk.dirs && state[p].inode != MISSING_INODE
  }

  function Paths(s: seq<Change>): seq<string> {
    seq(|s|, i requires 0 <= i < |s| => s[i].path)
  }

  function Olds(s: seq<Rename>): seq<string> {
    seq(|s|, i requires 0 <= i < |s| => s[i].oldPath)
  }

  function News(s: seq<Rename>): seq<string> {
    seq(|s|, i requires 0 <= i < |s| => s[i].newPath)
  }

  lemma PathsIn(s: seq<Change>, c: Change)
    ensures Paths(s + [c]) == Paths(s) + [c.path]
  {
  }

  lemma RenamesIn(s: seq<Rename>, r: Rename)
    ensures Olds(s + [r]) == Olds(s) + [r.oldPath] && News(s + [r]) == News(s) + [r.newPath]
  {
  }

  // ----- the steps of a scan -----

  method FindNewAndModifiedFiles(disk: Disk, state: State)
    returns (candidateNew: seq<string>, modifiedFiles: seq<Change>)
    ensures NoDup(candidateNew) && forall p :: p in candidateNew <==> p in disk.files && Candidate(state, p)
    ensures NoDup(Paths(modifiedFiles)) && forall p :: p in Paths(modifiedFiles) <==> Modified(state, disk, p)
    ensures forall c :: c in modifiedFiles ==> c.path in disk.files && c.time == disk.files[c.path]
  {
    candidateNew, modifiedFiles := [], [];
    var rest := disk.files.Keys;
    while rest != {}
      invariant rest <= disk.files.Keys && NoDup(candidateNew) && NoDup(Paths(modifiedFiles))
      invariant forall p :: p in candidateNew <==> p in disk.files && p !in rest && Candidate(state, p)
      invariant forall p :: p in Paths(modifiedFiles) <==> p !in rest && Modified(state, disk, p)
      invariant forall c :: c in modifiedFiles ==> c.path in disk.files && c.time == disk.files[c.path]
      decreases |rest|
    {
      var path :| path in rest;
      rest := rest - {path};
      if path !in state || state[path].isTombstoned {
        candidateNew := candidateNew + [path];
      } else if disk.files[path] != state[path].mtime {
        PathsIn(modifiedFiles, Change(path, disk.files[path]));
        modifiedFiles := modifiedFiles + [Change(path, disk.files[path])];
      }
    }
  }

  /** The missing files without a known inode, and the others by inode; of several with the same
      inode one is kept. */
  method SplitNodesBasedOnINodeExists(state: State, disk: Disk)
    returns (withoutInode: seq<string>, byInode: map<nat, string>)
    requires Keyed(state)
    ensures Split(state, disk, withoutInode, byInode)
  {
    withoutInode, byInode := [], map[];
    var rest := state.Keys;
    while rest != {}
      invariant rest <= state.Keys && NoDup(withoutInode)
      invariant forall p :: p in withoutInode <==>
        p !in rest && Missing(state, disk, p) && state[p].inode == MISSING_INODE
      invariant forall i :: i in byInode ==>
        i != MISSING_INODE && Missing(state, disk, byInode[i]) && state[byInode[i]].inode == i
      invariant forall p :: p !in rest && Missing(state, disk, p) && state[p].inode != MISSING_INODE ==>
        state[p].inode in byInode
      decreases |rest|
    {
      var key :| key in rest;
      rest := rest - {key};
      var tracked := state[key];
      if tracked.isTombstoned || tracked.isDir || tracked.filename in disk.files {
        continue;
      }
      if tracked.inode == MISSING_INODE {
        withoutInode := withoutInode + [tracked.filename];
      } else {
        byInode := byInode[tracked.inode := tracked.filename];
      }
    }
  }

  ghost predicate Injective(m: map<nat, string>) {
    forall i, j :: i in m && j in m && m[i] == m[j] ==> i == j
  }

  /** The same thing under an old and a new name: the inode tells. */
  ghost predicate Moved(byInode: map<nat, string>, disk: Disk, r: Rename) {
    r.newPath in disk.inodes && disk.inodes[r.newPath] in byInode && byInode[disk.inodes[r.newPath]] == r.oldPath
  }

  /** The file's inode is known and is that of a missing file nothing was matched with. */
  predicate CouldMatch(disk: Disk, left: map<nat, string>, path: string) {
    path in disk.inodes && disk.inodes[path] != MISSING_INODE && disk.inodes[path] in left
  }

  /** Every candidate becomes a rename or a new file, once; every rename uses up one missing entry, and no new
      file could have been matched with one that is left. */
  method MatchRenames(candidateNew: seq<string>, byInode: map<nat, string>, disk: Disk)
    returns (newFiles: seq<Change>, renamedFiles: seq<Rename>, left: map<nat, string>)
    requires NoDup(candidateNew) && (forall p :: p in candidateNew ==> p in disk.files)
    requires Injective(byInode) && MISSING_INODE !in byInode
    ensures NoDup(Paths(newFiles) + News(renamedFiles))
    ensures forall p :: p in Paths(newFiles) + News(renamedFiles) <==> p in candidateNew
    ensures |candidateNew| == |newFiles| + |renamedFiles| && |byInode| == |left| + |renamedFiles|
    ensures NoDup(Olds(renamedFiles)) && forall o :: o in Olds(renamedFiles) ==> o in byInode.Values
    ensures forall i :: i in left <==> i in byInode && byInode[i] !in Olds(renamedFiles)
    ensures forall i :: i in left ==> left[i] == byInode[i]
    ensures forall r :: r in renamedFiles ==>
      Moved(byInode, disk, r) && r.newPath in disk.files && r.mtime == disk.files[r.newPath]
    ensures forall c :: c in newFiles ==> c.path in disk.files && c.time == disk.files[c.path]
    ensures forall c :: c in newFiles ==> !CouldMatch(disk, left, c.path)
  {
    hide Placed, Matching, Paths, Olds, News;
    newFiles, renamedFiles, left := [], [], byInode;
    NothingMatched(byInode, disk);
    assert candidateNew[..0] == [];
    for k := 0 to |candidateNew|
      invariant Placed(candidateNew[..k], newFiles, renamedFiles)
      invariant Matching(byInode, disk, newFiles, renamedFiles, left)
      invariant k == |newFiles| + |renamedFiles|
    {
      var path := candidateNew[k];
      assert path in candidateNew;
      NextPlaced(candidateNew, k, newFiles, renamedFiles, path);
      if path in disk.inodes && disk.inodes[path] != MISSING_INODE && disk.inodes[path] in left {
        var inode := disk.inodes[path];
        var r := Rename(left[inode], path, disk.files[path]);
        OneRenamed(byInode, disk, newFiles, renamedFiles, left, path);
        left := left - {inode};
        renamedFiles := renamedFiles + [r];
        continue;
      }
      OneNew(byInode, disk, newFiles, renamedFiles, left, path);
      newFiles := newFiles + [Change(path, disk.files[path])];
    }
    assert candidateNew[..|candidateNew|] == candidateNew;
    MatchingFacts(byInode, disk, newFiles, renamedFiles, left);
    PlacedFacts(candidateNew, newFiles, renamedFiles);
  }

  /** The renames so far used up different entries of the map, and what is left fits no new file. */
  ghost predicate Matching(
      byInode: map<nat, string>, disk: Disk, newFiles: seq<Change>, renamed: seq<Rename>, left: map<nat, string>) {
    && |byInode| == |left| + |renamed|
    && NoDup(Olds(renamed)) && (forall o :: o in Olds(renamed) ==> o in byInode.Values)
    && (forall i :: i in left <==> i in byInode && byInode[i] !in Olds(renamed))
    && (forall i :: i in left ==> left[i] == byInode[i])
    && (forall r :: r in renamed ==>
          Moved(byInode, disk, r) && r.newPath in disk.files && r.mtime == disk.files[r.newPath])
    && (forall c :: c in newFiles ==> c.path in disk.files && c.time == disk.files[c.path])
    && (forall c :: c in newFiles ==> !CouldMatch(disk, left, c.path))
  }

  lemma NothingMatched(byInode: map<nat, string>, disk: Disk)
    ensures Matching(byInode, disk, [], [], byInode) && Placed([], [], [])
  {
  }

  lemma OneRenamed(
      byInode: map<nat, string>, disk: Disk, newFiles: seq<Change>, renamed: seq<Rename>, left: map<nat, string>,
      path: string)
    requires Injective(byInode) && Matching(byInode, disk, newFiles, renamed, left) && path in disk.files
    requires CouldMatch(disk, left, path)
    ensures var inode := disk.inodes[path];
      Matching(byInode, disk, newFiles, renamed + [Rename(left[inode], path, disk.files[path])], left - {inode})
  {
    hide NoDup, Olds, News, Injective;
    var inode := disk.inodes[path];
    var r := Rename(left[inode], path, disk.files[path]);
    RenamesIn(renamed, r);
    NoDupSnoc(Olds(renamed), r.oldPath);
    OneLess(left, inode);
    var olds := Olds(renamed + [r]);
    assert Moved(byInode, disk, r);
    hide Moved;
    forall i ensures i in left - {inode} <==> i in byInode && byInode[i] !in olds {
      if i in byInode && byInode[i] == r.oldPath { SameKey(byInode, i, inode); }
    }
  }

  lemma SameKey(m: map<nat, string>, i: nat, j: nat)
    requires Injective(m) && i in m && j in m && m[i] == m[j]
    ensures i == j
  {
  }

  lemma OneLess(m: map<nat, string>, i: nat)
    requires i in m
    ensures |m - {i}| == |m| - 1
  {
    assert (m - {i}).Keys == m.Keys - {i};
  }

  lemma OneNew(
      byInode: map<nat, string>, disk: Disk, newFiles: seq<Change>, renamed: seq<Rename>, left: map<nat, string>,
      path: string)
    requires Matching(byInode, disk, newFiles, renamed, left) && path in disk.files && !CouldMatch(disk, left, path)
    ensures Matching(byInode, disk, newFiles + [Change(path, disk.files[path])], renamed, left)
  {
    hide NoDup, Olds, Moved;
  }

  lemma MatchingFacts(
      byInode: map<nat, string>, disk: Disk, newFiles: seq<Change>, renamed: seq<Rename>, left: map<nat, string>)
    requires Matching(byInode, disk, newFiles, renamed, left)
    ensures |byInode| == |left| + |renamed|
    ensures NoDup(Olds(renamed)) && forall o :: o in Olds(renamed) ==> o in byInode.Values
    ensures forall i :: i in left <==> i in byInode && byInode[i] !in Olds(renamed)
    ensures forall i :: i in left ==> left[i] == byInode[i]
    ensures forall r :: r in renamed ==>
      Moved(byInode, disk, r) && r.newPath in disk.files && r.mtime == disk.files[r.newPath]
    ensures forall c :: c in newFiles ==> c.path in disk.files && c.time == disk.files[c.path]
    ensures forall c :: c in newFiles ==> !CouldMatch(disk, left, c.path)
  {
    hide NoDup, Olds, Moved;
  }

  lemma PlacedFacts(seen: seq<string>, newFiles: seq<Change>, renamed: seq<Rename>)
    requires Placed(seen, newFiles, renamed)
    ensures NoDup(Paths(newFiles) + News(renamed))
    ensures forall p :: p in Paths(newFiles) + News(renamed) <==> p in seen
  {
  }

  ghost predicate Placed(seen: seq<string>, newFiles: seq<Change>, renamedFiles: seq<Rename>) {
    NoDup(Paths(newFiles) + News(renamedFiles)) && forall p :: p in Paths(newFiles) + News(renamedFiles) <==> p in seen
  }

  lemma NextPlaced(candidates: seq<string>, k: nat, newFiles: seq<Change>, renamedFiles: seq<Rename>, path: string)
    requires NoDup(candidates) && k < |candidates| && path == candidates[k]
    requires Placed(candidates[..k], newFiles, renamedFiles)
    ensures forall time :: Placed(candidates[..k + 1], newFiles + [Change(path, time)], renamedFiles)
    ensures forall was, time :: Placed(candidates[..k + 1], newFiles, renamedFiles + [Rename(was, path, time)])
  {
    var a, b := Paths(newFiles), News(renamedFiles);
    assert candidates[..k + 1] == candidates[..k] + [path];
    assert path !in candidates[..k];
    forall time ensures Placed(candidates[..k + 1], newFiles + [Change(path, time)], renamedFiles) {
      PathsIn(newFiles, Change(path, time));
      InsertDistinct(a, path, b);
    }
    forall was, time ensures Placed(candidates[..k + 1], newFiles, renamedFiles + [Rename(was, path, time)]) {
      RenamesIn(renamedFiles, Rename(was, path, time));
      assert a + (b + [path]) == (a + b) + [path];
    }
  }

  lemma InsertDistinct(a: seq<string>, x: string, b: seq<string>)
    requires NoDup(a + b) && x !in a + b
    ensures NoDup(a + [x] + b) && forall p :: p in a + [x] + b <==> p in a + b || p == x
  {
    var s, t := a + b, a + [x] + b;
    forall i, j | 0 <= i < j < |t| ensures t[i] != t[j] {
      assert i < |a| ==> t[i] == s[i];
      assert i > |a| ==> t[i] == s[i - 1];
      assert j < |a| ==> t[j] == s[j];
      assert j > |a| ==> t[j] == s[j - 1];
    }
  }

  lemma NoDupSnoc(s: seq<string>, x: string)
    requires NoDup(s) && x !in s
    ensures NoDup(s + [x])
  {
  }

  /** The files a map still holds, in some order. */
  method Remaining(left: map<nat, string>, now: Time) returns (deletedFiles: seq<Change>)
    requires Injective(left)
    ensures NoDup(Paths(deletedFiles)) && forall p :: p in Paths(deletedFiles) <==> p in left.Values
    ensures |deletedFiles| == |left| && forall c :: c in deletedFiles ==> c.time == now
  {
    deletedFiles := [];
    var rest := left.Keys;
    while rest != {}
      invariant rest <= left.Keys && |deletedFiles| + |rest| == |left|
      invariant forall c :: c in deletedFiles ==> c.time == now
      invariant NoDup(Paths(deletedFiles))
      invariant forall p :: p in Paths(deletedFiles) <==> exists i :: i in left && i !in rest && left[i] == p
      decreases |rest|
    {
      var inode :| inode in rest;
      assert left[inode] !in Paths(deletedFiles);
      NoDupSnoc(Paths(deletedFiles), left[inode]);
      PathsIn(deletedFiles, Change(left[inode], now));
      rest := rest - {inode};
      deletedFiles := deletedFiles + [Change(left[inode], now)];
    }
  }

  method Deletions(left: map<nat, string>, withoutInode: seq<string>, now: Time) returns (deletedFiles: seq<Change>)
    requires Injective(left) && NoDup(withoutInode) && forall p :: p in withoutInode ==> p !in left.Values
    ensures NoDup(Paths(deletedFiles))
    ensures forall p :: p in Paths(deletedFiles) <==> p in left.Values || p in withoutInode
    ensures |deletedFiles| == |left| + |withoutInode| && forall c :: c in deletedFiles ==> c.time == now
  {
    deletedFiles := Remaining(left, now);
    for k := 0 to |withoutInode|
      invariant |deletedFiles| == |left| + k && NoDup(Paths(deletedFiles))
      invariant forall c :: c in deletedFiles ==> c.time == now
      invariant forall p :: p in Paths(deletedFiles) <==> p in left.Values || p in withoutInode[..k]
    {
      assert withoutInode[..k + 1] == withoutInode[..k] + [withoutInode[k]];
      NoDupSnoc(Paths(deletedFiles), withoutInode[k]);
      PathsIn(deletedFiles, Change(withoutInode[k], now));
      deletedFiles := deletedFiles + [Change(withoutInode[k], now)];
    }
    assert withoutInode[..|withoutInode|] == withoutInode;
  }

  /** No two missing files share a known inode. */
  ghost predicate DistinctInodes(state: State, disk: Disk) {
    forall p, q :: Missing(state, disk, p) && Missing(state, disk, q) && state[p].inode == state[q].inode ==>
      state[p].inode == MISSING_INODE || p == q
  }

  /** What the file part of a scan promises about its lists. */
  ghost predicate Conserves(
      state: State, disk: Disk, newFiles: seq<Change>, modified: seq<Change>, deleted: seq<Change>,
      renamed: seq<Rename>) {
    // every file on disk is unchanged, modified, new or a rename target: exactly one of these, once
    && NoDup(Paths(newFiles) + News(renamed)) && NoDup(Paths(modified))
    && (forall p :: p in Paths(newFiles) + News(renamed) <==> p in disk.files && Candidate(state, p))
    && (forall p :: p in Paths(modified) <==> Modified(state, disk, p))
    // nothing but a missing file is deleted or a rename source, never both, never twice
    && NoDup(Paths(deleted)) && NoDup(Olds(renamed))
    && (forall p :: p in Paths(deleted) ==> p !in Olds(renamed))
    && (forall p :: p in Paths(deleted) || p in Olds(renamed) ==> Missing(state, disk, p))
    // and every missing file is one of the two, if and only if inodes tell the missing files apart
    && ((forall p :: Missing(state, disk, p) ==> p in Paths(deleted) || p in Olds(renamed)) <==>
      DistinctInodes(state, disk))
  }

  /** A rename connects a missing file with a new one of the same inode. */
  ghost predicate SameInode(state: State, disk: Disk, r: Rename) {
    && r.oldPath in state && r.newPath in disk.inodes
      && disk.inodes[r.newPath] == state[r.oldPath].inode != MISSING_INODE
  }

  /** A moved file is reported as moved: no file reported as new has the known inode of one reported as
      deleted. */
  ghost predicate MovesSeen(state: State, disk: Disk, newFiles: seq<Change>, deleted: seq<Change>) {
    forall c, d :: c in newFiles && d in deleted && c.path in disk.inodes && disk.inodes[c.path] != MISSING_INODE ==>
      d.path in state && state[d.path].inode != disk.inodes[c.path]
  }

  lemma UnmatchedApart(
      state: State, disk: Disk, withoutInode: seq<string>, byInode: map<nat, string>, left: map<nat, string>,
      newFiles: seq<Change>, deleted: seq<Change>)
    requires Split(state, disk, withoutInode, byInode)
    requires forall i :: i in left ==> i in byInode && left[i] == byInode[i]
    requires forall c :: c in newFiles ==> !CouldMatch(disk, left, c.path)
    requires forall p :: p in Paths(deleted) ==> p in left.Values || p in withoutInode
    ensures MovesSeen(state, disk, newFiles, deleted)
  {
    forall c, d | c in newFiles && d in deleted && c.path in disk.inodes && disk.inodes[c.path] != MISSING_INODE
      ensures d.path in state && state[d.path].inode != disk.inodes[c.path]
    {
      var k :| 0 <= k < |deleted| && deleted[k] == d;
      assert Paths(deleted)[k] == d.path;
      if d.path !in withoutInode {
        var i :| i in left && left[i] == d.path;
        assert i != disk.inodes[c.path];
      }
    }
  }

  /** The result of splitting the missing files. */
  ghost predicate Split(state: State, disk: Disk, withoutInode: seq<string>, byInode: map<nat, string>) {
    && NoDup(withoutInode)
    && (forall p :: p in withoutInode <==> Missing(state, disk, p) && state[p].inode == MISSING_INODE)
    && (forall i :: i in byInode ==>
      i != MISSING_INODE && Missing(state, disk, byInode[i]) && state[byInode[i]].inode == i)
    && (forall p :: Missing(state, disk, p) && state[p].inode != MISSING_INODE ==> state[p].inode in byInode)
  }

  lemma SplitFacts(state: State, disk: Disk, withoutInode: seq<string>, byInode: map<nat, string>)
    requires Split(state, disk, withoutInode, byInode)
    ensures Injective(byInode) && MISSING_INODE !in byInode && forall p :: p in withoutInode ==> p !in byInode.Values
    ensures forall p :: p in byInode.Values || p in withoutInode ==> Missing(state, disk, p)
    ensures (forall p :: Missing(state, disk, p) ==> p in byInode.Values || p in withoutInode) <==>
      DistinctInodes(state, disk)
  {
    if DistinctInodes(state, disk) {
      forall p | Missing(state, disk, p) ensures p in byInode.Values || p in withoutInode {
        if state[p].inode != MISSING_INODE {
          assert byInode[state[p].inode] == p;
        }
      }
    }
    if forall p :: Missing(state, disk, p) ==> p in byInode.Values || p in withoutInode {
      forall p, q | Missing(state, disk, p) && Missing(state, disk, q) && state[p].inode == state[q].inode
        ensures state[p].inode == MISSING_INODE || p == q
      {
        assert p in byInode.Values || p in withoutInode;
        assert q in byInode.Values || q in withoutInode;
      }
    }
  }

  lemma MovedSameInode(state: State, disk: Disk, withoutInode: seq<string>, byInode: map<nat, string>, r: Rename)
    requires Split(state, disk, withoutInode, byInode) && Moved(byInode, disk, r)
    ensures SameInode(state, disk, r)
  {
  }

  /** What is left of the map and the sources of the renames are the whole map. */
  lemma LeftOrRenamed(byInode: map<nat, string>, left: map<nat, string>, renamed: seq<Rename>)
    requires Injective(byInode) && (forall o :: o in Olds(renamed) ==> o in byInode.Values)
    requires (forall i :: i in left <==> i in byInode && byInode[i] !in Olds(renamed))
    requires forall i :: i in left ==> left[i] == byInode[i]
    ensures Injective(left) && forall p :: p in left.Values <==> p in byInode.Values && p !in Olds(renamed)
  {
    forall p | p in byInode.Values && p !in Olds(renamed) ensures p in left.Values {
      var i :| i in byInode && byInode[i] == p;
      assert i in left && left[i] == p;
    }
  }

  lemma Conserved(
      state: State, disk: Disk, newFiles: seq<Change>, modified: seq<Change>, deleted: seq<Change>,
      renamed: seq<Rename>, all: set<string>, left: set<string>, withoutInode: seq<string>)
    requires NoDup(Paths(newFiles) + News(renamed)) && NoDup(Paths(modified))
    requires NoDup(Paths(deleted)) && NoDup(Olds(renamed))
    requires forall p :: p in Paths(newFiles) + News(renamed) <==> p in disk.files && Candidate(state, p)
    requires forall p :: p in Paths(modified) <==> Modified(state, disk, p)
    requires forall p :: p in Paths(deleted) <==> p in left || p in withoutInode
    requires (forall p :: p in left <==> p in all && p !in Olds(renamed))
    requires (forall p :: p in Olds(renamed) ==> p in all)
    requires (forall p :: p in withoutInode ==> p !in all)
    requires (forall p :: p in all || p in withoutInode ==> Missing(state, disk, p))
    requires (forall p :: Missing(state, disk, p) ==> p in all || p in withoutInode) <==> DistinctInodes(state, disk)
    ensures Conserves(state, disk, newFiles, modified, deleted, renamed)
  {
    hide Missing, Modified, Candidate, DistinctInodes, NoDup, Paths, Olds, News;
    assert forall p :: p in Paths(deleted) || p in Olds(renamed) <==> p in all || p in withoutInode;
  }

  /** The counts of a scan: candidates are the new files and the renames, and the missing files are the
      deletions and the renames, if and only if inodes tell the missing files apart. */
  ghost predicate Counted(state: State, disk: Disk, news: nat, deleted: nat, renamed: nat) {
    && news + renamed == |set p | p in disk.files && Candidate(state, p)|
    && deleted + renamed <= |MissingFiles(state, disk)|
    && (deleted + renamed == |MissingFiles(state, disk)| <==> DistinctInodes(state, disk))
  }

  function MissingFiles(state: State, disk: Disk): set<string> {
    set p | p in state && Missing(state, disk, p)
  }

  lemma {:induction false} NoDupSize(s: seq<string>, t: set<string>)
    requires NoDup(s) && forall p :: p in s <==> p in t
    ensures |s| == |t|
  {
    if s != [] {
      var x, r := s[|s| - 1], s[..|s| - 1];
      assert s == r + [x];
      NoDupSize(r, t - {x});
    } else {
      assert t == {};
    }
  }

  lemma NoDupBoth(a: seq<string>, b: seq<string>)
    requires NoDup(a) && NoDup(b) && forall p :: p in a ==> p !in b
    ensures NoDup(a + b)
  {
    forall i, j | 0 <= i < j < |a + b| ensures (a + b)[i] != (a + b)[j] {
      assert i < |a| ==> a[i] in a;
      assert j >= |a| ==> b[j - |a|] in b;
    }
  }

  lemma SubsetSize(a: set<string>, b: set<string>)
    requires a <= b
    ensures |a| <= |b| && (|a| == |b| <==> a == b)
  {
    assert b == a + (b - a);
  }

  lemma Counts(
      state: State, disk: Disk, newFiles: seq<Change>, modified: seq<Change>, deleted: seq<Change>,
      renamed: seq<Rename>)
    requires Conserves(state, disk, newFiles, modified, deleted, renamed)
    ensures Counted(state, disk, |newFiles|, |deleted|, |renamed|)
  {
    hide Missing, Candidate, DistinctInodes, NoDup;
    NoDupSize(Paths(newFiles) + News(renamed), set p | p in disk.files && Candidate(state, p));
    var gone, m := Paths(deleted) + Olds(renamed), MissingFiles(state, disk);
    NoDupBoth(Paths(deleted), Olds(renamed));
    var found := set p | p in gone;
    NoDupSize(gone, found);
    MissingTracked(state, disk);
    assert forall p :: p in gone <==> p in Paths(deleted) || p in Olds(renamed);
    SubsetSize(found, m);
  }

  lemma MissingTracked(state: State, disk: Disk)
    ensures forall p :: p in MissingFiles(state, disk) <==> Missing(state, disk, p)
  {
  }

  method ScanFiles(state: State, disk: Disk, now: Time)
    returns (newFiles: seq<Change>, modifiedFiles: seq<Change>, deletedFiles: seq<Change>, renamedFiles: seq<Rename>)
    requires Keyed(state)
    ensures Conserves(state, disk, newFiles, modifiedFiles, deletedFiles, renamedFiles)
    ensures Counted(state, disk, |newFiles|, |deletedFiles|, |renamedFiles|)
    ensures forall r :: r in renamedFiles ==> SameInode(state, disk, r)
    ensures forall c :: c in newFiles + modifiedFiles ==> c.path in disk.files && c.time == disk.files[c.path]
    ensures MovesSeen(state, disk, newFiles, deletedFiles) && forall c :: c in deletedFiles ==> c.time == now
    ensures forall r :: r in renamedFiles ==> r.newPath in disk.files && r.mtime == disk.files[r.newPath]
  {
    hide CouldMatch, MovesSeen;
    hide Missing, Modified, Candidate, DistinctInodes, Moved, SameInode, Injective, Split, Paths, Olds, News;
    hide NoDup, Conserves, Counted;
    var candidateNew, withoutInode, byInode, left;
    candidateNew, modifiedFiles := FindNewAndModifiedFiles(disk, state);
    withoutInode, byInode := SplitNodesBasedOnINodeExists(state, disk);
    SplitFacts(state, disk, withoutInode, byInode);
    newFiles, renamedFiles, left := MatchRenames(candidateNew, byInode, disk);
    LeftOrRenamed(byInode, left, renamedFiles);
    deletedFiles := Deletions(left, withoutInode, now);
    UnmatchedApart(state, disk, withoutInode, byInode, left, newFiles, deletedFiles);
    Conserved(state, disk, newFiles, modifiedFiles, deletedFiles, renamedFiles, byInode.Values, left.Values,
      withoutInode);
    Counts(state, disk, newFiles, modifiedFiles, deletedFiles, renamedFiles);
    forall r | r in renamedFiles ensures SameInode(state, disk, r) {
      MovedSameInode(state, disk, withoutInode, byInode, r);
    }
  }
}
