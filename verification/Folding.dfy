/** Directory moves, and folding into them the moves they imply; the whole scan. */
module Folding {
  import opened Common
  import opened Scanner

  /** The same move as the directory's, for something inside it. */
  predicate IsDescendantMove(c: Rename, d: Rename) {
    var oldPrefix, newPrefix := d.oldPath + "/", d.newPath + "/";
    oldPrefix <= c.oldPath && newPrefix <= c.newPath && c.oldPath[|oldPrefix|..] == c.newPath[|newPrefix|..]
  }

  predicate IsDescendant(c: Rename, dirs: seq<Rename>) {
    exists k :: 0 <= k < |dirs| && IsDescendantMove(c, dirs[k])
  }

  function Fold(candidates: seq<Rename>, dirs: seq<Rename>): seq<Rename> {
    if candidates == [] then []
    else
      var n := |candidates| - 1;
      Fold(candidates[..n], dirs) + if IsDescendant(candidates[n], dirs) then [] else [candidates[n]]
  }

  method FoldIntoDirRenames(candidates: seq<Rename>, dirs: seq<Rename>) returns (kept: seq<Rename>)
    ensures kept == Fold(candidates, dirs)
  {
    kept := [];
    for i := 0 to |candidates|
      invariant kept == Fold(candidates[..i], dirs)
    {
      assert candidates[..i + 1][..i] == candidates[..i];
      var isDescendant := false;
      for k := 0 to |dirs|
        invariant !isDescendant && !IsDescendant(candidates[i], dirs[..k])
      {
        if IsDescendantMove(candidates[i], dirs[k]) {
          isDescendant := true;
          break;
        }
        assert dirs[..k + 1] == dirs[..k] + [dirs[k]];
      }
      assert dirs[..|dirs|] == dirs;
      assert isDescendant <==> IsDescendant(candidates[i], dirs);
      if !isDescendant {
        kept := kept + [candidates[i]];
      }
    }
    assert candidates[..|candidates|] == candidates;
  }

  lemma {:induction false} FoldKeeps(candidates: seq<Rename>, dirs: seq<Rename>, c: Rename)
    ensures c in Fold(candidates, dirs) <==> c in candidates && !IsDescendant(c, dirs)
  {
    if candidates != [] {
      var n := |candidates| - 1;
      FoldKeeps(candidates[..n], dirs, c);
      assert candidates == candidates[..n] + [candidates[n]];
    }
  }

  /** A path below the old directory, as it reads below the new one. */
  function Rewrite(d: Rename, path: string): string
    requires d.oldPath <= path
  {
    d.newPath + path[|d.oldPath|..]
  }

  lemma DescendantRewrites(c: Rename, d: Rename)
    requires IsDescendantMove(c, d)
    ensures d.oldPath + "/" <= c.oldPath && d.oldPath <= c.oldPath && c.newPath == Rewrite(d, c.oldPath)
  {
    var tail := c.oldPath[|d.oldPath| + 1..];
    assert c.oldPath == d.oldPath + ("/" + tail);
    assert c.newPath == d.newPath + ("/" + tail);
  }

  lemma DescendantTrans(a: Rename, b: Rename, c: Rename)
    requires IsDescendantMove(a, b) && IsDescendantMove(b, c)
    ensures IsDescendantMove(a, c)
  {
    var x, y := a.oldPath[|b.oldPath| + 1..], b.oldPath[|c.oldPath| + 1..];
    assert a.oldPath == (c.oldPath + "/") + (y + "/" + x);
    assert a.newPath == (c.newPath + "/") + (y + "/" + x);
  }

  /** Above every implied move there is a directory move that nothing implies. */
  lemma {:induction false} TopMove(c: Rename, dirs: seq<Rename>) returns (top: Rename)
    requires IsDescendant(c, dirs)
    ensures top in Fold(dirs, dirs) && IsDescendantMove(c, top)
    decreases |c.oldPath|
  {
    var k :| 0 <= k < |dirs| && IsDescendantMove(c, dirs[k]);
    if IsDescendant(dirs[k], dirs) {
      top := TopMove(dirs[k], dirs);
      DescendantTrans(c, dirs[k], top);
    } else {
      top := dirs[k];
      FoldKeeps(dirs, dirs, top);
    }
  }

  /** Folding keeps exactly the top moves: what is kept is implied by no directory move, and what
      is dropped is reproduced by rewriting the prefix of a kept directory move. */
  lemma FoldExact(candidates: seq<Rename>, dirs: seq<Rename>, c: Rename)
    requires c in candidates
    ensures c in Fold(candidates, dirs) <==> forall d :: d in Fold(dirs, dirs) ==> !IsDescendantMove(c, d)
    ensures c in Fold(candidates, dirs) <==> forall d :: d in dirs ==> !IsDescendantMove(c, d)
    ensures c !in Fold(candidates, dirs) <==>
      exists d :: d in Fold(dirs, dirs) && d.oldPath + "/" <= c.oldPath && c.newPath == Rewrite(d, c.oldPath)
  {
    FoldKeeps(candidates, dirs, c);
    assert IsDescendant(c, dirs) <==> exists d :: d in dirs && IsDescendantMove(c, d);
    forall d | d in Fold(dirs, dirs)
      ensures d in dirs
      ensures IsDescendantMove(c, d) <==> d.oldPath + "/" <= c.oldPath && c.newPath == Rewrite(d, c.oldPath)
    {
      FoldKeeps(dirs, dirs, d);
      RewriteDescends(c, d);
    }
    if IsDescendant(c, dirs) {
      var top := TopMove(c, dirs);
    }
  }

  lemma RewriteDescends(c: Rename, d: Rename)
    ensures IsDescendantMove(c, d) <==> d.oldPath + "/" <= c.oldPath && c.newPath == Rewrite(d, c.oldPath)
  {
    if IsDescendantMove(c, d) {
      DescendantRewrites(c, d);
    }
    if d.oldPath + "/" <= c.oldPath && c.newPath == Rewrite(d, c.oldPath) {
      var tail := c.oldPath[|d.oldPath| + 1..];
      assert c.oldPath == d.oldPath + "/" + tail;
      assert c.oldPath[|d.oldPath|..] == "/" + tail;
      assert c.newPath == (d.newPath + "/") + tail;
    }
  }

  // ----- directory moves -----

  /** The vanished directories with a known inode, by inode; of several with the same one is kept. */
  method MissingDirectories(state: State, disk: Disk) returns (byInode: map<nat, string>)
    requires Keyed(state)
    ensures forall i :: i in byInode ==>
      i != MISSING_INODE && MissingDir(state, disk, byInode[i]) && state[byInode[i]].inode == i
    ensures forall p :: MissingDir(state, disk, p) ==> state[p].inode in byInode
  {
    byInode := map[];
    var rest := state.Keys;
    while rest != {}
      invariant rest <= state.Keys
      invariant forall i :: i in byInode ==>
        i != MISSING_INODE && MissingDir(state, disk, byInode[i]) && state[byInode[i]].inode == i
      invariant forall p :: p !in rest && MissingDir(state, disk, p) ==> state[p].inode in byInode
      decreases |rest|
    {
      var key :| key in rest;
      rest := rest - {key};
      var tracked := state[key];
      if !tracked.isDir || tracked.isTombstoned || tracked.filename in disk.dirs || tracked.inode == MISSING_INODE {
        continue;
      }
      byInode := byInode[tracked.inode := tracked.filename];
    }
  }

  /** A directory on disk that the state does not already have at this path. */
  predicate FoundDir(state: State, disk: Disk, p: string) {
    p in disk.dirs && !(p in state && state[p].isDir && !state[p].isTombstoned)
  }

  /** A directory move connects a vanished tracked directory with a found one of the same inode. */
  ghost predicate DirMove(state: State, disk: Disk, r: Rename) {
    MissingDir(state, disk, r.oldPath) && FoundDir(state, disk, r.newPath) && SameInode(state, disk, r)
  }

  /** A vanished directory and a found one with its inode. */
  predicate Pair(state: State, disk: Disk, p: string, q: string) {
    MissingDir(state, disk, p) && FoundDir(state, disk, q) && q in disk.inodes && disk.inodes[q] == state[p].inode
  }

  /** Some move goes by this inode. */
  ghost predicate Matched(state: State, disk: Disk, renamed: seq<Rename>, inode: nat) {
    exists r :: r in renamed && SameInode(state, disk, r) && state[r.oldPath].inode == inode
  }

  lemma OneMoreMove(state: State, disk: Disk, renamed: seq<Rename>, r: Rename)
    requires SameInode(state, disk, r)
    ensures Matched(state, disk, renamed + [r], state[r.oldPath].inode)
    ensures forall i :: Matched(state, disk, renamed, i) ==> Matched(state, disk, renamed + [r], i)
  {
    var more := renamed + [r];
    assert r in more;
    forall i | Matched(state, disk, renamed, i) ensures Matched(state, disk, more, i) {
      var x :| x in renamed && SameInode(state, disk, x) && state[x.oldPath].inode == i;
      assert x in more;
    }
  }

  /** The directory's time on disk, or an unset one where it cannot be read. */
  function DirTime(disk: Disk, p: string): Time {
    if p in disk.dirTimes then disk.dirTimes[p] else UNKNOWN
  }

  /** Every vanished directory whose inode is found again is matched, by that inode. */
  method MatchDirectories(state: State, disk: Disk) returns (renamed: seq<Rename>)
    requires Keyed(state)
    ensures (forall r :: r in renamed ==> DirMove(state, disk, r)) && NoDup(Olds(renamed)) && NoDup(News(renamed))
    ensures forall p, q :: Pair(state, disk, p, q) ==> Matched(state, disk, renamed, state[p].inode)
    ensures forall r :: r in renamed ==> r.mtime == DirTime(disk, r.newPath)
  {
    hide MissingDir, FoundDir, SameInode, NoDup, Matched, Olds, News;
    var byInode := MissingDirectories(state, disk);
    var left, rest := byInode, disk.dirs;
    renamed := [];
    assert Olds(renamed) == [] && News(renamed) == [] && NoDup(Olds(renamed)) && NoDup(News(renamed)) by {
      NoMoves();
    }
    while rest != {}
      invariant rest <= disk.dirs && left.Keys <= byInode.Keys && (forall i :: i in left ==> left[i] == byInode[i])
      invariant (forall r :: r in renamed ==> DirMove(state, disk, r)) && NoDup(Olds(renamed)) && NoDup(News(renamed))
      invariant forall r :: r in renamed ==> r.mtime == DirTime(disk, r.newPath)
      invariant forall p :: p in News(renamed) ==> p !in rest
      invariant forall i :: i in left ==> byInode[i] !in Olds(renamed)
      invariant forall i :: i in byInode && i !in left ==> Matched(state, disk, renamed, i)
      invariant forall q :: q in disk.dirs && q !in rest && FoundDir(state, disk, q) && q in disk.inodes ==>
        disk.inodes[q] !in left
      decreases |rest|
    {
      var dirPath :| dirPath in rest;
      rest := rest - {dirPath};
      if dirPath in state && state[dirPath].isDir && !state[dirPath].isTombstoned {
        AlreadyTracked(state, disk, dirPath);
        continue;
      }
      if dirPath !in disk.inodes || disk.inodes[dirPath] == MISSING_INODE || disk.inodes[dirPath] !in left {
        continue;
      }
      var inode := disk.inodes[dirPath];
      var r := Rename(left[inode], dirPath, if dirPath in disk.dirTimes then disk.dirTimes[dirPath] else UNKNOWN);
      NewDirMove(state, disk, r);
      RenamesIn(renamed, r);
      OneMoreMove(state, disk, renamed, r);
      NoDupSnoc(Olds(renamed), r.oldPath);
      NoDupSnoc(News(renamed), r.newPath);
      renamed := renamed + [r];
      left := left - {inode};
    }
    FoundAreDirs(state, disk);
  }

  lemma NoMoves()
    ensures Olds([]) == [] && News([]) == [] && NoDup<string>([])
  {
  }

  lemma FoundAreDirs(state: State, disk: Disk)
    ensures forall q :: FoundDir(state, disk, q) ==> q in disk.dirs
  {
  }

  lemma AlreadyTracked(state: State, disk: Disk, p: string)
    requires p in state && state[p].isDir && !state[p].isTombstoned
    ensures !FoundDir(state, disk, p)
  {
  }

  lemma NewDirMove(state: State, disk: Disk, r: Rename)
    requires MissingDir(state, disk, r.oldPath) && r.newPath in disk.dirs && r.newPath in disk.inodes
    requires disk.inodes[r.newPath] == state[r.oldPath].inode
    requires !(r.newPath in state && state[r.newPath].isDir && !state[r.newPath].isTombstoned)
    ensures DirMove(state, disk, r)
  {
  }

  // ----- the whole scan -----

  /** The scan reports the changes of the file part, with the renames reduced to the top moves. */
  method ScanFilesystemForChanges(state: State, disk: Disk, now: Time)
    returns (changes: ChangeSet, ghost files: seq<Rename>, ghost dirs: seq<Rename>)
    requires Keyed(state)
    ensures Conserves(state, disk, changes.newFiles, changes.modifiedFiles, changes.deletedFiles, files)
    ensures Counted(state, disk, |changes.newFiles|, |changes.deletedFiles|, |files|)
    ensures forall c :: c in changes.newFiles + changes.modifiedFiles ==>
      c.path in disk.files && c.time == disk.files[c.path]
    ensures MovesSeen(state, disk, changes.newFiles, changes.deletedFiles)
    ensures forall c :: c in changes.deletedFiles ==> c.time == now
    ensures forall r :: r in files ==> r.newPath in disk.files && r.mtime == disk.files[r.newPath]
    ensures forall d :: d in dirs ==> d.mtime == DirTime(disk, d.newPath)
    ensures forall p, q :: Pair(state, disk, p, q) ==> Matched(state, disk, dirs, state[p].inode)
    ensures (forall r :: r in files ==> SameInode(state, disk, r))
    ensures (forall d :: d in dirs ==> DirMove(state, disk, d))
    ensures changes.renamedFiles == Fold(files, dirs) && changes.renamedDirectories == Fold(dirs, dirs)
    ensures forall c, d ::
      c in changes.renamedFiles + changes.renamedDirectories && d in changes.renamedDirectories ==>
        !IsDescendantMove(c, d)
  {
    hide Conserves, Counted, MovesSeen, SameInode, DirMove, Pair, Matched, DirTime;
    var newFiles, modifiedFiles, deletedFiles, renamedFiles := ScanFiles(state, disk, now);
    var renamedDirectories := MatchDirectories(state, disk);
    files, dirs := renamedFiles, renamedDirectories;
    var keptFiles := FoldIntoDirRenames(renamedFiles, renamedDirectories);
    var keptDirs := FoldIntoDirRenames(renamedDirectories, renamedDirectories);
    changes := ChangeSet(newFiles, modifiedFiles, deletedFiles, keptFiles, keptDirs);
    forall c, d | c in changes.renamedFiles + changes.renamedDirectories && d in changes.renamedDirectories
      ensures !IsDescendantMove(c, d)
    {
      FoldKeeps(files, dirs, c);
      FoldKeeps(dirs, dirs, c);
      if c in keptFiles { FoldExact(files, dirs, c); } else { FoldExact(dirs, dirs, c); }
    }
  }
}
