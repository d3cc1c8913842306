/** One side of a synchronisation: its stored files and the database that tracks them. */
module Replicas {
  import opened Common
  import opened Paths
  import opened TreeView
  import opened TreeRuns
  import opened Index

  datatype Replica = Replica(files: map<Path, Bytes>, db: Db)

  function Held(r: Replica, p: Path): Option<Bytes> {
    if p in r.files then Some(r.files[p]) else None
  }

  /** Index and maps agree, and the files are exactly the tracked ones. */
  ghost predicate Tracked(H: Hasher, P: iset<Path>, r: Replica) {
    Agrees(H, P, r.db) && forall p :: p in r.files <==> p in r.db.mtimes
  }

  /** The recorded hash is the one of the contents. */
  predicate Honest(H: Hasher, r: Replica, p: Path) {
    p in r.files && p in r.db.hashes ==> r.db.hashes[p] == H.digest(r.files[p])
  }

  /** Files, maps and tree tell the same: what a scan leaves behind. */
  ghost predicate Scanned(H: Hasher, P: iset<Path>, r: Replica) {
    Tracked(H, P, r) && forall p :: Honest(H, r, p)
  }

  lemma ScannedTracked(H: Hasher, P: iset<Path>, r: Replica)
    requires Scanned(H, P, r)
    ensures Tracked(H, P, r)
  {
  }

  /** A tracked file is live in the tree, with its time and its recorded hash. */
  lemma TrackedFile(H: Hasher, P: iset<Path>, r: Replica, p: Path)
    requires Tracked(H, P, r)
    ensures p in r.files <==> LiveFile(r.db.tree, p)
    ensures p in r.files <==> p in r.db.mtimes
    ensures p in r.files ==> p in P && p in r.db.hashes
    ensures p in r.files ==> r.db.tree[p].mtime == r.db.mtimes[p] && r.db.tree[p].hash == r.db.hashes[p]
    ensures p in r.db.tree && r.db.tree[p].isDeleted ==> p in r.db.tombs && r.db.tree[p].deletedAt == r.db.tombs[p]
    ensures p in r.db.tombs ==> p in P
    ensures p !in r.files ==> p !in r.db.hashes
  {
    assert AgreesAt(r.db, p);
    hide Wf, HashOk;
  }

  /** And once scanned, with the hash of its contents. */
  lemma ScannedFile(H: Hasher, P: iset<Path>, r: Replica, p: Path)
    requires Scanned(H, P, r)
    ensures p in r.files <==> LiveFile(r.db.tree, p)
    ensures p in r.files ==> p in P && p in r.db.mtimes && p in r.db.hashes
    ensures p in r.files ==>
      r.db.tree[p].mtime == r.db.mtimes[p] && r.db.tree[p].hash == r.db.hashes[p] == H.digest(r.files[p])
    ensures p in r.db.tree && r.db.tree[p].isDeleted ==> p in r.db.tombs && r.db.tree[p].deletedAt == r.db.tombs[p]
  {
    hide Tracked;
    TrackedFile(H, P, r, p);
    assert Honest(H, r, p);
  }

  lemma ScannedFits(H: Hasher, P: iset<Path>, r: Replica)
    requires Scanned(H, P, r)
    ensures Fits(r.db.tree, P) && HashOk(H, r.db.tree)
  {
  }

  lemma TrackedWf(H: Hasher, P: iset<Path>, r: Replica)
    requires Tracked(H, P, r)
    ensures Wf(r.db.tree)
  {
  }

  lemma TrackedAddable(H: Hasher, P: iset<Path>, r: Replica, p: Path)
    requires ClashFree(P) && Tracked(H, P, r) && p in P
    ensures p != [] && Wf(r.db.tree) && Addable(r.db.tree, p)
  {
    FitsAddable(r.db.tree, P, p);
  }

  /** New contents and the database entry that goes with them. */
  ghost function Store(H: Hasher, r: Replica, p: Path, contents: Bytes, mtime: Time, hash: Bytes): Replica
    requires Wf(r.db.tree) && Addable(r.db.tree, p)
  {
    Replica(r.files[p := contents], RecordFile(H, r.db, p, mtime, hash))
  }

  ghost function Erase(H: Hasher, r: Replica, p: Path, at: Time): Replica
    requires Wf(r.db.tree) && p != []
  {
    Replica(r.files - {p}, RecordDeletion(H, r.db, p, at))
  }

  /** Whatever contents and hash: the file is tracked, and the others are as honest as before. */
  lemma StoreTracked(H: Hasher, P: iset<Path>, r: Replica, p: Path, contents: Bytes, mtime: Time, hash: Bytes)
    requires ClashFree(P) && Tracked(H, P, r) && p in P
    ensures Wf(r.db.tree) && Addable(r.db.tree, p)
    ensures Tracked(H, P, Store(H, r, p, contents, mtime, hash))
  {
    hide Agrees, Wf, HashOk, Addable, AddView;
    TrackedAddable(H, P, r, p);
    RecordAgrees(H, P, r.db, Put(p, mtime, hash));
  }

  lemma StoreHonest(H: Hasher, r: Replica, p: Path, contents: Bytes, mtime: Time, hash: Bytes, q: Path)
    requires Wf(r.db.tree) && Addable(r.db.tree, p)
    ensures Honest(H, Store(H, r, p, contents, mtime, hash), q) <==>
      if q == p then hash == H.digest(contents) else Honest(H, r, q)
  {
    hide Wf, Addable, AddView;
  }

  /** Storing a file under the hash of its contents leaves a scanned side scanned. */
  lemma StoreScanned(H: Hasher, P: iset<Path>, r: Replica, p: Path, contents: Bytes, mtime: Time, hash: Bytes)
    requires ClashFree(P) && Scanned(H, P, r) && p in P
    ensures Wf(r.db.tree) && Addable(r.db.tree, p)
    ensures Scanned(H, P, Store(H, r, p, contents, mtime, hash)) <==> hash == H.digest(contents)
  {
    hide Tracked, Wf, Addable, Honest;
    StoreTracked(H, P, r, p, contents, mtime, hash);
    var t := Store(H, r, p, contents, mtime, hash);
    forall q ensures Honest(H, t, q) <==> if q == p then hash == H.digest(contents) else Honest(H, r, q) {
      StoreHonest(H, r, p, contents, mtime, hash, q);
    }
    assert Honest(H, t, p) <==> hash == H.digest(contents);
    hide Store;
  }

  lemma EraseTracked(H: Hasher, P: iset<Path>, r: Replica, p: Path, at: Time)
    requires ClashFree(P) && Tracked(H, P, r) && p in P
    ensures p != [] && Wf(r.db.tree) && Tracked(H, P, Erase(H, r, p, at))
  {
    hide Agrees, Wf, HashOk, Addable, DeleteView;
    TrackedAddable(H, P, r, p);
    RecordAgrees(H, P, r.db, Del(p, at));
  }

  lemma EraseHonest(H: Hasher, r: Replica, p: Path, at: Time, q: Path)
    requires Wf(r.db.tree) && p != []
    ensures Honest(H, Erase(H, r, p, at), q) <==> q == p || Honest(H, r, q)
  {
    hide Wf, DeleteView;
  }
}
