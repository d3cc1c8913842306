/** The metadata database: flat maps over all users' keys, and one tree for each user that
    indexes that user's part of the maps. */
module FSMetadata {
  import opened Common
  import opened Paths
  import opened Keys
  import opened TreeView
  import opened TreeRuns
  import opened MerkleTrees
  import opened Index

  /** A database slice whose recorded paths may be used: files and deletions on paths of P. */
  ghost predicate OnPaths(d: Db, P: iset<Path>) {
    && d.hashes.Keys == d.mtimes.Keys
    && (forall p :: p in d.mtimes ==> p in P) && (forall p :: p in d.tombs ==> p in P)
  }

  /** The maps' part of what building records: the tombstones come last and win. */
  function Rebuilt(d: Db): (map<Path, Time>, map<Path, Bytes>) {
    (d.mtimes - d.tombs.Keys, d.hashes - d.tombs.Keys)
  }

  /** What has been taken from d so far: all but what is still to come. */
  ghost predicate Taken<T(!new)>(m: map<Path, T>, d: map<Path, T>, rest: set<string>) {
    && (forall p :: p in m <==> p in d && Join(p) !in rest)
    && (forall p :: p in m ==> m[p] == d[p])
  }

  lemma TakenNext<T(!new)>(m: map<Path, T>, d: map<Path, T>, rest: set<string>, p: Path)
    requires Taken(m, d, rest + {Join(p)}) && p in d && Join(p) !in rest
    requires ValidPath(p) && forall q :: q in d ==> ValidPath(q)
    ensures Taken(m[p := d[p]], d, rest)
  {
    hide Join, ValidPath;
    forall q | q in d && Join(q) == Join(p) ensures q == p {
      JoinInjective(q, p);
    }
  }

  lemma TakenNone<T(!new)>(d: map<Path, T>, rest: set<string>)
    requires forall p :: p in d ==> Join(p) in rest
    ensures Taken(map[], d, rest)
  {
  }

  lemma TakenAll<T(!new)>(m: map<Path, T>, d: map<Path, T>)
    requires Taken(m, d, {})
    ensures m == d
  {
    assert forall p :: p in m <==> p in d;
  }

  /** The files of d added so far. */
  ghost predicate Added(d: Db, rest: set<string>, db: Db) {
    db.tombs == map[] && Taken(db.mtimes, d.mtimes, rest) && Taken(db.hashes, d.hashes, rest)
  }

  /** All files added, and the tombstones so far. */
  ghost predicate Deleted(d: Db, rest: set<string>, db: Db) {
    && Taken(db.tombs, d.tombs, rest)
    && db.mtimes == d.mtimes - db.tombs.Keys && db.hashes == d.hashes - db.tombs.Keys
  }

  lemma NoneAdded(H: Hasher, d: Db, rest: set<string>)
    requires d.hashes.Keys == d.mtimes.Keys && forall p :: p in d.mtimes ==> Join(p) in rest
    ensures Added(d, rest, EmptyDb(H))
  {
    hide Taken;
    assert forall p :: p in d.hashes ==> p in d.mtimes;
    TakenNone(d.mtimes, rest);
    TakenNone(d.hashes, rest);
  }

  lemma AddedNext(H: Hasher, d: Db, rest: set<string>, db: Db, p: Path)
    requires Added(d, rest + {Join(p)}, db) && p in d.mtimes && d.hashes.Keys == d.mtimes.Keys && Join(p) !in rest
    requires ValidPath(p) && forall q :: q in d.mtimes ==> ValidPath(q)
    requires Wf(db.tree) && Addable(db.tree, p)
    ensures Added(d, rest, RecordFile(H, db, p, d.mtimes[p], d.hashes[p]))
  {
    hide AddView, Wf, Addable, Taken, Join, ValidPath;
    assert forall q :: q in d.hashes ==> q in d.mtimes;
    TakenNext(db.mtimes, d.mtimes, rest, p);
    TakenNext(db.hashes, d.hashes, rest, p);
  }

  lemma DeletedNext(H: Hasher, d: Db, rest: set<string>, db: Db, p: Path)
    requires Deleted(d, rest + {Join(p)}, db) && p in d.tombs && Join(p) !in rest
    requires ValidPath(p) && forall q :: q in d.tombs ==> ValidPath(q)
    requires Wf(db.tree) && p != []
    ensures Deleted(d, rest, RecordDeletion(H, db, p, d.tombs[p]))
  {
    hide DeleteView, Wf, Taken, Join, ValidPath;
    TakenNext(db.tombs, d.tombs, rest, p);
    var next := RecordDeletion(H, db, p, d.tombs[p]);
    assert next.tombs.Keys == db.tombs.Keys + {p};
    assert next.mtimes == d.mtimes - next.tombs.Keys;
    assert next.hashes == d.hashes - next.tombs.Keys;
  }

  lemma AllDeleted(d: Db, db: Db)
    requires Deleted(d, {}, db)
    ensures db.tombs == d.tombs && (db.mtimes, db.hashes) == Rebuilt(d)
  {
    TakenAll(db.tombs, d.tombs);
  }

  lemma AddedAll(d: Db, db: Db, rest: set<string>)
    requires Added(d, {}, db) && forall p :: p in d.tombs ==> Join(p) in rest
    ensures Deleted(d, rest, db)
  {
    TakenAll(db.mtimes, d.mtimes);
    TakenAll(db.hashes, d.hashes);
    assert d.mtimes - db.tombs.Keys == d.mtimes && d.hashes - db.tombs.Keys == d.hashes;
  }

  ghost predicate MappedBy(m: map<string, Time>, h: map<string, Bytes>, t: map<string, Time>, user: string, d: Db) {
    Faithful(m, user, d.mtimes) && Faithful(h, user, d.hashes) && Faithful(t, user, d.tombs)
  }

  /** Every key belongs to somebody known. */
  ghost predicate OwnedBy(keys: set<string>, users: set<string>) {
    && (forall k :: k in keys ==> exists u :: u in users && u + "/" <= k)
    && (forall u :: u in users ==> Slashless(u))
  }

  lemma OwnersSlashless(keys: set<string>, users: set<string>)
    requires OwnedBy(keys, users)
    ensures forall u :: u in users ==> Slashless(u)
  {
  }

  lemma OwnedFewer(keys: set<string>, fewer: set<string>, users: set<string>)
    requires OwnedBy(keys, users) && fewer <= keys
    ensures OwnedBy(fewer, users)
  {
  }

  lemma OwnedMore(keys: set<string>, users: set<string>, user: string)
    requires OwnedBy(keys, users) && Slashless(user)
    ensures OwnedBy(keys, users + {user})
  {
    OwnedStill(keys, keys, users, user, "");
  }

  lemma OwnedStill(keys: set<string>, now: set<string>, users: set<string>, user: string, path: string)
    requires OwnedBy(keys, users) && Slashless(user) && now <= keys + {Key(user, path)}
    ensures OwnedBy(now, users + {user})
  {
    forall k | k in now ensures exists u :: u in users + {user} && u + "/" <= k {
      if k == Key(user, path) {
        assert user in users + {user} && user + "/" <= k;
      } else {
        var u :| u in users && u + "/" <= k;
        assert u in users + {user};
      }
    }
  }

  /** A tree built from the maps indexes them exactly if no tracked file has a leftover tombstone. */
  lemma BuiltAgrees(H: Hasher, P: iset<Path>, d: Db, v: View)
    requires Agrees(H, P, Db(Rebuilt(d).0, Rebuilt(d).1, d.tombs, v)) && OnPaths(d, P)
    ensures Agrees(H, P, d.(tree := v)) <==> d.mtimes.Keys !! d.tombs.Keys
  {
    hide Fits, HashOk, Wf;
    var b := Db(Rebuilt(d).0, Rebuilt(d).1, d.tombs, v);
    if d.mtimes.Keys !! d.tombs.Keys {
      assert d.mtimes - d.tombs.Keys == d.mtimes && d.hashes - d.tombs.Keys == d.hashes;
    } else {
      var p :| p in d.mtimes && p in d.tombs;
      assert AgreesAt(b, p);
      assert !AgreesAt(d.(tree := v), p);
    }
  }

  /** Locally right hashes at the root are what the source's check looks at. */
  lemma RootVerified(H: Hasher, P: iset<Path>, db: Db)
    requires Agrees(H, P, db)
    ensures Wf(db.tree) && db.tree[[]].hash == H.Children(KidHashes(db.tree, []))
  {
    assert Exposed(db.tree, []);
    assert LocalHash(H, db.tree, []);
  }

  /** Add one recorded file to the tree that indexes db. */
  method IndexFile(H: Hasher, ghost P: iset<Path>, tree: MerkleTree, p: Path, mtime: Time, hash: Bytes, ghost db: Db)
    returns (ghost next: Db)
    requires tree.Valid() && tree.H == H && ClashFree(P) && p in P && Agrees(H, P, db) && db.tree == tree.View()
    modifies tree`nodes, tree`repr, tree.repr
    ensures tree.Valid() && fresh(tree.repr - old(tree.repr))
    ensures Wf(db.tree) && Addable(db.tree, p) && next == RecordFile(H, db, p, mtime, hash)
    ensures Agrees(H, P, next) && next.tree == tree.View()
  {
    hide Wf, HashOk, Fits, Agrees, AddView, MerkleTree.Shaped, Addable;
    RecordAgrees(H, P, db, Put(p, mtime, hash));
    var res := tree.AddFile(p, mtime, hash);
    assert res;
    next := RecordFile(H, db, p, mtime, hash);
  }

  /** Tombstone one recorded deletion in the tree that indexes db. */
  method IndexDeletion(H: Hasher, ghost P: iset<Path>, tree: MerkleTree, p: Path, at: Time, ghost db: Db)
    returns (ghost next: Db)
    requires tree.Valid() && tree.H == H && ClashFree(P) && p in P && Agrees(H, P, db) && db.tree == tree.View()
    modifies tree.repr`isDeleted, tree.repr`deletedAt, tree.repr`hash
    ensures tree.Valid()
    ensures p != [] && Wf(db.tree) && next == RecordDeletion(H, db, p, at)
    ensures Agrees(H, P, next) && next.tree == tree.View()
  {
    hide Wf, HashOk, Fits, Agrees, DeleteView, MerkleTree.Shaped;
    RecordAgrees(H, P, db, Del(p, at));
    var known, nonEmpty := tree.DeleteFile(p, at);
    next := RecordDeletion(H, db, p, at);
  }

  class FSMetadata {
    const H: Hasher
    ghost const P: string -> iset<Path>  // the paths each user may use
    var fileMtimes: map<string, Time>
    var hashes: map<string, Bytes>
    var tombstones: map<string, Time>
    var userTrees: map<string, MerkleTree>
    ghost var slices: map<string, Db>  // what each user with a tree has recorded

    constructor (H: Hasher, ghost P: string -> iset<Path>)
      ensures Valid() && this.H == H && this.P == P && forall u :: Slice(u) == EmptyDb(H)
    {
      this.H, this.P := H, P;
      fileMtimes, hashes, tombstones, userTrees, slices := map[], map[], map[], map[], map[];
    }

    /** Different users' trees share nothing. */
    ghost predicate Apart()
      reads `userTrees, userTrees.Values
    {
      forall u, v :: u in userTrees && v in userTrees && u != v ==>
        userTrees[u] != userTrees[v] && userTrees[u].repr !! userTrees[v].repr
    }

    ghost function Nodes(): set<FileNode>
      reads `userTrees, userTrees.Values
    {
      set u, n | u in userTrees && n in userTrees[u].nodes.Values :: n
    }

    ghost function Repr(): set<FileNode>
      reads `userTrees, userTrees.Values
    {
      set u, n | u in userTrees && n in userTrees[u].repr :: n
    }

    /** The tree indexes what the user has recorded. */
    ghost predicate Indexes(tree: MerkleTree, u: string, db: Db)
      reads tree, tree.nodes.Values
    {
      Usable(u) && tree.H == H && tree.Valid() && db.tree == tree.View() && Agrees(H, P(u), db)
    }

    ghost predicate TreesOk()
      reads `userTrees, `slices, userTrees.Values, Nodes()
    {
      Apart() && slices.Keys == userTrees.Keys && forall u :: u in userTrees ==> Indexes(userTrees[u], u, slices[u])
    }

    ghost predicate MapsOk()
      reads `fileMtimes, `hashes, `tombstones, `slices
    {
      OwnedBy(Keys(), slices.Keys) && forall u :: u in slices ==> Mapped(u, slices[u])
    }

    /** A user id without slashes, with clash-free paths of proper names. */
    ghost predicate Usable(u: string) {
      Slashless(u) && ClashFree(P(u)) && forall p :: p in P(u) ==> ValidPath(p)
    }

    ghost function Keys(): set<string>
      reads `fileMtimes, `hashes, `tombstones
    {
      fileMtimes.Keys + hashes.Keys + tombstones.Keys
    }

    ghost predicate Valid()
      reads this, userTrees.Values, Nodes()
    {
      TreesOk() && MapsOk()
    }

    /** What one user has recorded. */
    ghost function Slice(u: string): Db
      reads this
    {
      if u in slices then slices[u] else EmptyDb(H)
    }

    /** The maps hold exactly d under the user's keys. */
    ghost predicate Mapped(user: string, d: Db)
      reads `fileMtimes, `hashes, `tombstones
    {
      MappedBy(fileMtimes, hashes, tombstones, user, d)
    }

    /** Add every tracked file of the user to an empty tree. */
    method AddTracked(user: string, tree: MerkleTree, ghost d: Db) returns (ghost db: Db)
      requires Mapped(user, d) && OnPaths(d, P(user)) && ClashFree(P(user))
      requires tree.Valid() && tree.H == H && tree.View() == Empty(H)
      modifies tree`nodes, tree`repr, tree.repr
      ensures tree.Valid() && fresh(tree.repr - old(tree.repr))
      ensures db.tree == tree.View() && Agrees(H, P(user), db) && Added(d, {}, db)
    {
      hide Wf, HashOk, Fits, Agrees, AddView, MerkleTree.Shaped, MerkleTree.View, MerkleTree.Valid, Faithful;
      hide Addable, ClashFree, Index.RecordFile, Added, Reads, Canonical, Join, Split;
      EmptyAgrees(H, P(user));
      db := EmptyDb(H);
      FaithfulPaths(fileMtimes, user, d.mtimes);
      var files := ExtractOwn(fileMtimes, user, d.mtimes);
      var rest := files.Keys;
      NoneAdded(H, d, rest);
      while rest != {}
        invariant rest <= files.Keys && tree.Valid() && fresh(tree.repr - old(tree.repr))
        invariant db.tree == tree.View() && Agrees(H, P(user), db) && Added(d, rest, db)
        decreases |rest|
      {
        var path :| path in rest;
        ghost var p := Split(path);
        ReadsAt(files, d.mtimes, path);
        HashStored(user, d, p);
        var hash := hashes[Key(user, path)];
        ghost var was, before := db, rest;
        rest := rest - {path};
        assert rest + {path} == before;
        db := IndexFile(H, P(user), tree, Split(path), files[path], hash, db);
        AddedNext(H, d, rest, was, p);
      }
    }

    lemma HashStored(user: string, d: Db, p: Path)
      requires Mapped(user, d) && p in d.hashes
      ensures Key(user, Join(p)) in hashes && hashes[Key(user, Join(p))] == d.hashes[p]
    {
      assert MakeKey(user, p) == Key(user, Join(p));
    }

    /** Then the user's tombstones. */
    method AddTombstones(user: string, tree: MerkleTree, ghost d: Db, ghost start: Db) returns (ghost db: Db)
      requires Mapped(user, d) && OnPaths(d, P(user)) && ClashFree(P(user)) && Added(d, {}, start)
      requires tree.Valid() && tree.H == H && tree.View() == start.tree && Agrees(H, P(user), start)
      modifies tree.repr`isDeleted, tree.repr`deletedAt, tree.repr`hash
      ensures tree.Valid()
      ensures db.tree == tree.View() && Agrees(H, P(user), db) && Deleted(d, {}, db)
    {
      hide Wf, HashOk, Fits, Agrees, DeleteView, MerkleTree.Shaped, MerkleTree.View, MerkleTree.Valid;
      hide Faithful, ClashFree, Index.RecordDeletion, Deleted, Added, Reads, Canonical, Join, Split;
      db := start;
      FaithfulPaths(tombstones, user, d.tombs);
      var tombs := ExtractOwn(tombstones, user, d.tombs);
      var rest := tombs.Keys;
      AddedAll(d, db, rest);
      while rest != {}
        invariant rest <= tombs.Keys && tree.Valid() && tree.repr == old(tree.repr)
        invariant db.tree == tree.View() && Agrees(H, P(user), db) && Deleted(d, rest, db)
        decreases |rest|
      {
        var path :| path in rest;
        ReadsAt(tombs, d.tombs, path);
        ghost var was, before := db, rest;
        rest := rest - {path};
        assert rest + {path} == before;
        db := IndexDeletion(H, P(user), tree, Split(path), tombs[path], db);
        DeletedNext(H, d, rest, was, Split(path));
      }
    }

    /** A tree from the user's part of the maps. It indexes them exactly if no tracked file has a
        leftover tombstone, and the final check of the root hash holds in any case. */
    method BuildMerkleTreeFromDb(user: string, ghost d: Db) returns (tree: MerkleTree)
      requires Mapped(user, d) && OnPaths(d, P(user)) && ClashFree(P(user))
      ensures tree.Valid() && fresh(tree) && fresh(tree.repr) && tree.H == H
      ensures Agrees(H, P(user), Db(Rebuilt(d).0, Rebuilt(d).1, d.tombs, tree.View()))
      ensures Agrees(H, P(user), d.(tree := tree.View())) <==> d.mtimes.Keys !! d.tombs.Keys
    {
      hide Wf, HashOk, Fits, Agrees, MerkleTree.Shaped, MerkleTree.View, Faithful, ClashFree, Added, Deleted;
      tree := new MerkleTree(H);
      ghost var added := AddTracked(user, tree, d);
      ghost var db := AddTombstones(user, tree, d, added);
      AllDeleted(d, db);
      assert db == Db(Rebuilt(d).0, Rebuilt(d).1, d.tombs, tree.View());
      BuiltAgrees(H, P(user), d, tree.View());
      RootVerified(H, P(user), db);
      var verified := tree.VerifyHashes();
      assert verified;
    }

    lemma SliceMapped(u: string)
      requires MapsOk() && Slashless(u)
      ensures Mapped(u, Slice(u))
    {
      if u !in slices {
        forall k | k in Keys() ensures !(u + "/" <= k) {
          var v :| v in slices.Keys && v + "/" <= k;
          OwnerUnique(u, v, k);
        }
        FaithfulNone(fileMtimes, u);
        FaithfulNone(hashes, u);
        FaithfulNone(tombstones, u);
      }
    }

    lemma NodesOwned()
      requires TreesOk()
      ensures forall u :: u in userTrees ==> userTrees[u].nodes.Values <= userTrees[u].repr
    {
      hide Wf, HashOk, Fits, Agrees, Faithful, ClashFree, MerkleTree.Shaped, MerkleTree.View;
      forall u | u in userTrees ensures userTrees[u].nodes.Values <= userTrees[u].repr {
        assert Indexes(userTrees[u], u, slices[u]);
        userTrees[u].NodesOwned();
      }
    }

    /** Every user's tree indexes that user's slice, except that the given user's indexes cur. */
    ghost predicate Prepared(user: string, tree: MerkleTree, cur: Db)
      reads `userTrees, `slices, userTrees.Values, Nodes()
    {
      && userTrees.Keys == slices.Keys + {user} && tree == userTrees[user] && Apart() && Indexes(tree, user, cur)
      && (forall u :: u in slices && u != user ==> Indexes(userTrees[u], u, slices[u]))
      && (forall u :: u in userTrees ==> userTrees[u].nodes.Values <= userTrees[u].repr)
    }

    lemma KnownPrepared(user: string)
      requires TreesOk() && user in slices
      ensures Prepared(user, userTrees[user], slices[user])
    {
      hide Indexes, Apart, Nodes;
      NodesOwned();
      assert slices.Keys + {user} == slices.Keys;
    }

    /** The user's tree, built from the maps the first time it is asked for, and what it indexes:
        the recorded slice, or for a new user the maps. */
    method TreeFor(user: string, ghost d: Db) returns (tree: MerkleTree, ghost cur: Db)
      requires TreesOk() && Usable(user) && (user !in slices ==> Mapped(user, d) && OnPaths(d, P(user)))
      modifies `userTrees
      ensures Prepared(user, tree, cur)
      ensures user in slices ==> cur == slices[user] && user in old(userTrees) && tree == old(userTrees[user])
      ensures userTrees == old(userTrees)[user := tree]
      ensures user !in slices ==>
        cur == Db(Rebuilt(d).0, Rebuilt(d).1, d.tombs, cur.tree) && fresh(tree) && fresh(tree.repr)
    {
      hide Wf, HashOk, Fits, Agrees, Faithful, ClashFree, MerkleTree.Shaped, MerkleTree.View;
      hide MerkleTree.Valid, Nodes, Repr, Rebuilt, OnPaths, Mapped;
      if user in userTrees {
        KnownPrepared(user);
        return userTrees[user], slices[user];
      }
      assert ClashFree(P(user));
      NodesOwned();
      tree := BuildMerkleTreeFromDb(user, d);
      cur := Db(Rebuilt(d).0, Rebuilt(d).1, d.tombs, tree.View());
      tree.NodesOwned();
      AddTree(user, tree, cur);
    }

    /** The user's tree, built the first time it is asked for. It indexes what the user has recorded, and
        nobody's records or tree change. */
    method GetUserTree(user: string) returns (tree: MerkleTree)
      requires Valid() && Usable(user)
      modifies `userTrees, `slices
      ensures Valid() && user in userTrees && tree == userTrees[user] && Indexes(tree, user, Slice(user))
      ensures forall u :: SameMaps(Slice(u), old(Slice(u)))
      ensures userTrees.Keys == old(userTrees).Keys + {user}
      ensures forall u :: u in old(userTrees) ==> userTrees[u] == old(userTrees)[u] && Slice(u) == old(Slice(u))
    {
      hide Wf, HashOk, Fits, Agrees, Faithful, ClashFree, Indexes, TreesOk, OwnedBy, Keys, Mapped, Prepared;
      hide Apart, Rebuilt, Nodes;
      ghost var d := Slice(user);
      TreeKeys();
      SliceMapped(user);
      SliceOnPaths(user);
      ghost var cur: Db;
      tree, cur := TreeFor(user, d);
      RebuiltPlain(d);
      MappedSame(user, d, cur);
      Adopt(user, tree, cur);
      TreeIndexes(user);
    }

    /** A tree that indexes what the maps hold of its user becomes part of the database. */
    ghost method Adopt(user: string, tree: MerkleTree, cur: Db)
      requires Prepared(user, tree, cur) && MapsOk() && Slashless(user) && Mapped(user, cur)
      modifies `slices
      ensures TreesOk() && MapsOk() && slices == old(slices)[user := cur]
    {
      hide Prepared, TreesOk, OwnedBy, Keys, Mapped;
      Commit(user, tree, cur);
      OwnedMore(Keys(), old(slices).Keys, user);
      assert slices.Keys == old(slices).Keys + {user};
    }

    /** A new tree beside the others. */
    method AddTree(user: string, tree: MerkleTree, ghost cur: Db)
      requires TreesOk() && user !in slices && Indexes(tree, user, cur)
      requires forall u :: u in userTrees ==>
        userTrees[u] != tree && userTrees[u].repr !! tree.repr && userTrees[u].nodes.Values <= userTrees[u].repr
      requires tree.nodes.Values <= tree.repr
      modifies `userTrees
      ensures userTrees == old(userTrees)[user := tree] && Prepared(user, tree, cur)
    {
      hide Indexes, Nodes;
      userTrees := userTrees[user := tree];
    }

    method SetFile(key: string, mtime: Time, hash: Bytes)
      modifies `hashes, `fileMtimes
      ensures hashes == old(hashes)[key := hash] && fileMtimes == old(fileMtimes)[key := mtime]
      ensures old(TreesOk()) ==> TreesOk()
    {
      hide Indexes, Apart, Nodes;
      hashes := hashes[key := hash];
      fileMtimes := fileMtimes[key := mtime];
    }

    method SetTombstone(key: string, at: Time)
      modifies `fileMtimes, `tombstones
      ensures fileMtimes == old(fileMtimes) - {key} && tombstones == old(tombstones)[key := at]
      ensures old(TreesOk()) ==> TreesOk()
    {
      hide Indexes, Apart, Nodes;
      fileMtimes := fileMtimes - {key};
      tombstones := tombstones[key := at];
    }

    /** The map part of recording a file. */
    method PutMaps(user: string, path: string, mtime: Time, hash: Bytes)
      requires MapsOk() && Slashless(user) && Canonical(path) && ValidPath(Split(path))
      modifies this`hashes, this`fileMtimes
      ensures old(TreesOk()) ==> TreesOk()
      ensures OwnedBy(Keys(), slices.Keys + {user})
      ensures forall u :: u in slices && u != user ==> Mapped(u, slices[u])
      ensures Mapped(user, old(Slice(user)).(mtimes := old(Slice(user)).mtimes[Split(path) := mtime],
                                             hashes := old(Slice(user)).hashes[Split(path) := hash]))
    {
      hide Faithful, TreesOk;
      ghost var p, was := Split(path), Slice(user);
      SliceMapped(user);
      assert MakeKey(user, p) == Key(user, path);
      SetFile(Key(user, path), mtime, hash);
      FaithfulPut(old(hashes), user, was.hashes, p, hash);
      FaithfulPut(old(fileMtimes), user, was.mtimes, p, mtime);
      forall u | u in slices && u != user ensures Mapped(u, slices[u]) {
        FaithfulPutOther(old(hashes), u, slices[u].hashes, user, p, hash);
        FaithfulPutOther(old(fileMtimes), u, slices[u].mtimes, user, p, mtime);
      }
      OwnedStill(old(Keys()), Keys(), slices.Keys, user, path);
    }

    /** One user's tree takes the file, whatever the other trees are. */
    method IndexInto(user: string, tree: MerkleTree, p: Path, mtime: Time, hash: Bytes, ghost cur: Db)
      returns (ghost next: Db)
      requires Indexes(tree, user, cur) && p in P(user)
      modifies tree`nodes, tree`repr, tree.repr
      ensures Indexes(tree, user, next) && fresh(tree.repr - old(tree.repr)) && tree.nodes.Values <= tree.repr
      ensures Wf(cur.tree) && Addable(cur.tree, p) && next == Index.RecordFile(H, cur, p, mtime, hash)
    {
      hide Wf, HashOk, Fits, Agrees, ClashFree, MerkleTree.Shaped, MerkleTree.View, MerkleTree.Valid, Index.RecordFile;
      hide Addable;
      next := IndexFile(H, P(user), tree, p, mtime, hash, cur);
      tree.NodesOwned();
    }

    method UpdateTree(user: string, tree: MerkleTree, p: Path, mtime: Time, hash: Bytes, ghost cur: Db)
      returns (ghost next: Db)
      requires Prepared(user, tree, cur) && p in P(user)
      modifies tree`nodes, tree`repr, tree.repr
      ensures Prepared(user, tree, next)
      ensures Wf(cur.tree) && Addable(cur.tree, p) && next == Index.RecordFile(H, cur, p, mtime, hash)
    {
      hide Wf, Indexes, Index.RecordFile, Nodes, Addable;
      ghost var others := userTrees - {user};
      assert forall u :: u in others ==> others[u] != tree && others[u].repr !! tree.repr;
      next := IndexInto(user, tree, p, mtime, hash, cur);
      forall u | u in slices && u != user ensures Indexes(userTrees[u], u, slices[u]) {
        assert u in others;
        assert old(Indexes(userTrees[u], u, slices[u]));
      }
    }

    /** The tree part: find or build the user's tree, then index the file. */
    method PutTree(user: string, p: Path, mtime: Time, hash: Bytes, ghost d: Db)
      requires TreesOk() && Usable(user) && p in P(user) && Mapped(user, d) && OnPaths(d, P(user))
      requires d == Slice(user).(mtimes := Slice(user).mtimes[p := mtime], hashes := Slice(user).hashes[p := hash])
      modifies `userTrees, `slices, userTrees.Values, Repr()
      ensures TreesOk() && user in slices && slices == old(slices)[user := slices[user]]
      ensures MapsStep(old(Slice(user)), slices[user], Put(p, mtime, hash))
      ensures user in old(slices) ==> Index.OneCall(H, old(slices[user]), slices[user], Put(p, mtime, hash))
    {
      hide Wf, Agrees, Faithful, ClashFree, Index.RecordFile, Indexes, Apart, Usable, Mapped, OnPaths;
      hide Rebuilt, MapsStep, Prepared, TreesOk;
      InRepr(user);
      hide Nodes, Repr;
      ghost var was := Slice(user);
      var tree, cur := TreeFor(user, d);
      ghost var next := UpdateTree(user, tree, p, mtime, hash, cur);
      PutStep(H, was, d, cur, p, mtime, hash);
      Commit(user, tree, next);
    }

    ghost method Commit(user: string, tree: MerkleTree, next: Db)
      requires Prepared(user, tree, next)
      modifies `slices
      ensures TreesOk() && slices == old(slices)[user := next]
    {
      hide Indexes, Apart, Nodes;
      slices := slices[user := next];
    }

    lemma TreeIndexes(u: string)
      requires TreesOk() && u in slices
      ensures u in userTrees && Indexes(userTrees[u], u, slices[u])
    {
    }

    lemma TreeKeys()
      requires TreesOk()
      ensures slices.Keys == userTrees.Keys
    {
    }

    lemma InRepr(u: string)
      ensures u in userTrees ==> userTrees[u].repr <= Repr()
    {
    }

    lemma SliceOnPaths(u: string)
      requires TreesOk()
      ensures OnPaths(Slice(u), P(u))
    {
      if u in slices {
        assert Indexes(userTrees[u], u, slices[u]);
        AgreesOnPaths(H, P(u), slices[u]);
      }
    }

    /** Record a file: both maps, then the tree. Other users' records stay as they are. */
    method RecordFile(user: string, path: string, mtime: Time, hash: Bytes)
      requires Valid() && Usable(user) && Canonical(path) && Split(path) in P(user)
      modifies this, userTrees.Values, Repr()
      ensures Valid()
      ensures MapsStep(old(Slice(user)), Slice(user), Put(Split(path), mtime, hash))
      ensures user in old(slices) ==>
        Index.OneCall(H, old(Slice(user)), Slice(user), Put(Split(path), mtime, hash))
      ensures forall v :: v != user ==> Slice(v) == old(Slice(v))
    {
      hide Wf, HashOk, Fits, Agrees, Faithful, ClashFree, Indexes, TreesOk, Repr, OwnedBy, Keys, Mapped;
      ghost var p := Split(path);
      ghost var d := Slice(user).(mtimes := Slice(user).mtimes[p := mtime], hashes := Slice(user).hashes[p := hash]);
      SliceOnPaths(user);
      PutMaps(user, path, mtime, hash);
      PutTree(user, Split(path), mtime, hash, d);
      assert slices.Keys == old(slices).Keys + {user};
      MappedSame(user, d, slices[user]);
    }

    lemma MappedSame(user: string, d: Db, e: Db)
      requires Mapped(user, d) && e.mtimes == d.mtimes && e.hashes == d.hashes && e.tombs == d.tombs
      ensures Mapped(user, e)
    {
    }

    /** Untrack the file and remember its deletion: for one user, and for no other user. */
    method MarkDeleted(user: string, path: string, at: Time)
      modifies `fileMtimes, `tombstones
      ensures fileMtimes == old(fileMtimes) - {Key(user, path)} && tombstones == old(tombstones)[Key(user, path) := at]
      ensures old(TreesOk()) ==> TreesOk()
      ensures old(MapsOk()) && Placeable(user, path) ==> MarkedDeleted(user, Split(path), at, old(Slice(user)))
    {
      hide Faithful, TreesOk, MarkedDeleted;
      ghost var m, t, was := fileMtimes, tombstones, Slice(user);
      if MapsOk() && Slashless(user) {
        SliceMapped(user);
      }
      SetTombstone(Key(user, path), at);
      if old(MapsOk()) && Placeable(user, path) {
        MarkedOnly(user, path, at, m, t, was);
      }
    }

    ghost predicate MarkedDeleted(user: string, p: Path, at: Time, was: Db)
      reads `fileMtimes, `tombstones, `hashes, `slices
    {
      && OwnedBy(Keys(), slices.Keys + {user}) && (forall u :: u in slices && u != user ==> Mapped(u, slices[u]))
      && Mapped(user, was.(mtimes := was.mtimes - {p}, tombs := was.tombs[p := at]))
    }

    /** From maps m and t that agreed with the records. */
    lemma MarkedOnly(user: string, path: string, at: Time, m: map<string, Time>, t: map<string, Time>, was: Db)
      requires Placeable(user, path) && MappedBy(m, hashes, t, user, was)
      requires OwnedBy(m.Keys + hashes.Keys + t.Keys, slices.Keys) && forall u :: u in slices ==> Slashless(u)
      requires forall u :: u in slices ==> MappedBy(m, hashes, t, u, slices[u])
      requires fileMtimes == m - {Key(user, path)} && tombstones == t[Key(user, path) := at]
      ensures MarkedDeleted(user, Split(path), at, was)
    {
      hide Faithful, OwnedBy;
      var p := Split(path);
      assert MakeKey(user, p) == Key(user, path);
      FaithfulRemove(m, user, was.mtimes, p);
      FaithfulPut(t, user, was.tombs, p, at);
      forall u | u in slices && u != user ensures Mapped(u, slices[u]) {
        assert MappedBy(m, hashes, t, u, slices[u]);
        FaithfulRemoveOther(m, u, slices[u].mtimes, user, p);
        FaithfulPutOther(t, u, slices[u].tombs, user, p, at);
      }
      OwnedStill(m.Keys + hashes.Keys + t.Keys, Keys(), slices.Keys, user, path);
    }

    /** A deleted file needs no hash. */
    method RemoveHash(user: string, path: string, ghost d: Db)
      requires Slashless(user) && Canonical(path) && ValidPath(Split(path)) && Mapped(user, d)
      requires (forall u :: u in slices && u != user ==> Mapped(u, slices[u])) && OwnedBy(Keys(), slices.Keys)
      requires user in slices && slices[user].mtimes == d.mtimes && slices[user].tombs == d.tombs
      requires slices[user].hashes == d.hashes - {Split(path)}
      modifies `hashes
      ensures old(TreesOk()) ==> TreesOk()
      ensures MapsOk()
    {
      hide Faithful, Indexes, Apart, Nodes, OwnedBy;
      ghost var p, keys, users := Split(path), Keys(), slices.Keys;
      assert MakeKey(user, p) == Key(user, path);
      OwnersSlashless(keys, users);
      hashes := hashes - {Key(user, path)};
      FaithfulRemove(old(hashes), user, d.hashes, p);
      forall u | u in slices && u != user ensures Mapped(u, slices[u]) {
        FaithfulRemoveOther(old(hashes), u, slices[u].hashes, user, p);
      }
      OwnedFewer(keys, Keys(), users);
    }

    method ForgetTree(user: string, tree: MerkleTree, p: Path, at: Time, ghost cur: Db) returns (ghost next: Db)
      requires Prepared(user, tree, cur) && p in P(user)
      modifies tree.repr`isDeleted, tree.repr`deletedAt, tree.repr`hash
      ensures Prepared(user, tree, next)
      ensures p != [] && Wf(cur.tree) && next == Index.RecordDeletion(H, cur, p, at)
    {
      hide Wf, HashOk, Fits, Agrees, ClashFree, MerkleTree.Shaped, MerkleTree.View, MerkleTree.Valid;
      hide Index.RecordDeletion, Nodes;
      ghost var others := userTrees - {user};
      assert forall u :: u in others ==> others[u] != tree && others[u].repr !! tree.repr;
      next := IndexDeletion(H, P(user), tree, p, at, cur);
      tree.NodesOwned();
      hide Indexes;
      forall u | u in slices && u != user ensures Indexes(userTrees[u], u, slices[u]) {
        assert u in others;
        assert old(Indexes(userTrees[u], u, slices[u]));
      }
    }

    /** The tree part of a deletion. */
    method DeleteTree(user: string, p: Path, at: Time, ghost d: Db)
      requires TreesOk() && Usable(user) && p in P(user) && Mapped(user, d)
      requires d == Slice(user).(mtimes := Slice(user).mtimes - {p}, tombs := Slice(user).tombs[p := at])
      modifies `userTrees, `slices, userTrees.Values, Repr()
      ensures TreesOk() && user in slices && slices == old(slices)[user := slices[user]]
      ensures MapsStep(old(Slice(user)), slices[user], Del(p, at))
      ensures user in old(slices) ==> Index.OneCall(H, old(slices[user]), slices[user], Del(p, at))
    {
      hide Wf, Agrees, Faithful, ClashFree, Index.RecordDeletion, Indexes, Apart, Mapped, Rebuilt, MapsStep;
      hide Prepared, TreesOk;
      InRepr(user);
      hide Nodes, Repr;
      ghost var was := Slice(user);
      var tree, cur := TreeFor(user, d);
      ghost var next := ForgetTree(user, tree, p, at, cur);
      DeleteStep(H, was, d, cur, p, at);
      Commit(user, tree, next);
    }

    /** Record a deletion: the maps, the tree, and last the hash. Other users' records stay as they are. */
    method RecordDeletion(user: string, path: string, at: Time)
      requires Valid() && Usable(user) && Canonical(path) && Split(path) in P(user)
      modifies this, userTrees.Values, Repr()
      ensures Valid()
      ensures MapsStep(old(Slice(user)), Slice(user), Del(Split(path), at))
      ensures user in old(slices) ==> Index.OneCall(H, old(Slice(user)), Slice(user), Del(Split(path), at))
      ensures forall v :: v != user ==> Slice(v) == old(Slice(v))
    {
      hide Wf, HashOk, Fits, Agrees, Faithful, ClashFree, Indexes, TreesOk, Repr, OwnedBy, Keys, Mapped;
      ghost var p, was := Split(path), Slice(user);
      ghost var d := was.(mtimes := was.mtimes - {p}, tombs := was.tombs[p := at]);
      MarkDeleted(user, path, at);
      DeleteTree(user, Split(path), at, d);
      assert slices.Keys == old(slices).Keys + {user};
      hide MapsOk;
      RemoveHash(user, path, d);
    }

    /** The agreement, key by key: what is live in the user's tree is exactly what is tracked under
        the user's keys, with the same time and hash, and a tombstone carries the recorded time. */
    lemma TreeAgreesWithMaps(u: string, p: Path)
      requires Valid() && u in userTrees && ValidPath(p)
      ensures LiveFile(userTrees[u].View(), p) <==> MakeKey(u, p) in fileMtimes
      ensures MakeKey(u, p) in hashes <==> MakeKey(u, p) in fileMtimes
      ensures MakeKey(u, p) in fileMtimes && MakeKey(u, p) in hashes ==>
        var n := userTrees[u].View()[p]; n.mtime == fileMtimes[MakeKey(u, p)] && n.hash == hashes[MakeKey(u, p)]
      ensures p in userTrees[u].View() && userTrees[u].View()[p].isDeleted ==>
        MakeKey(u, p) in tombstones && userTrees[u].View()[p].deletedAt == tombstones[MakeKey(u, p)]
    {
      hide MakeKey, Wf, HashOk, Fits, MerkleTree.Shaped, MerkleTree.View, Nodes, Apart, OwnedBy;
      assert Indexes(userTrees[u], u, slices[u]) && Mapped(u, slices[u]);
      AgreesHere(H, P(u), slices[u], p);
    }

    /** The time recorded for the path, if there is one; a string no key is made of has none. */
    method ReadMtime(user: string, path: string) returns (mtime: Option<Time>)
      ensures Valid() && Slashless(user) ==>
        mtime ==
          if Canonical(path) && Split(path) in Slice(user).mtimes then Some(Slice(user).mtimes[Split(path)]) else None
    {
      if MapsOk() && Slashless(user) {
        SliceMapped(user);
        KeyRead(fileMtimes, user, Slice(user).mtimes, path);
      }
      return if Key(user, path) in fileMtimes then Some(fileMtimes[Key(user, path)]) else None;
    }

    /** The path strings of the user's tracked files, with their times. */
    method AllTrackedFiles(user: string) returns (result: map<string, Time>)
      ensures forall x :: x in result <==> Key(user, x) in fileMtimes
      ensures forall x :: x in result && Key(user, x) in fileMtimes ==> result[x] == fileMtimes[Key(user, x)]
      ensures Valid() && Slashless(user) ==> Reads(result, Slice(user).mtimes)
    {
      result := Extract(fileMtimes, user);
      if MapsOk() && Slashless(user) {
        SliceMapped(user);
        ExtractReads(fileMtimes, user, Slice(user).mtimes, result);
      }
    }

    method AllTombstones(user: string) returns (result: map<string, Time>)
      ensures forall x :: x in result <==> Key(user, x) in tombstones
      ensures forall x :: x in result && Key(user, x) in tombstones ==> result[x] == tombstones[Key(user, x)]
      ensures Valid() && Slashless(user) ==> Reads(result, Slice(user).tombs)
    {
      result := Extract(tombstones, user);
      if MapsOk() && Slashless(user) {
        SliceMapped(user);
        ExtractReads(tombstones, user, Slice(user).tombs, result);
      }
    }
  }

  predicate SameMaps(d: Db, e: Db) {
    d.mtimes == e.mtimes && d.hashes == e.hashes && d.tombs == e.tombs
  }

  lemma AgreesHere(H: Hasher, P: iset<Path>, db: Db, p: Path)
    requires Agrees(H, P, db)
    ensures AgreesAt(db, p)
  {
  }

  lemma AgreesOnPaths(H: Hasher, P: iset<Path>, db: Db)
    requires Agrees(H, P, db)
    ensures OnPaths(db, P)
  {
    forall p ensures (p in db.hashes <==> p in db.mtimes) && (p in db.mtimes ==> p in P) {
      assert AgreesAt(db, p);
    }
    assert db.hashes.Keys == db.mtimes.Keys;
  }

  lemma RebuiltPlain(d: Db)
    ensures d.tombs == map[] ==> Rebuilt(d) == (d.mtimes, d.hashes)
  {
    if d.tombs == map[] {
      assert d.mtimes - d.tombs.Keys == d.mtimes && d.hashes - d.tombs.Keys == d.hashes;
    }
  }

  /** Whether the tree was there or has just been built with the file in it, the maps end the same. */
  lemma PutStep(H: Hasher, was: Db, d: Db, cur: Db, p: Path, mtime: Time, hash: Bytes)
    requires Wf(cur.tree) && Addable(cur.tree, p)
    requires d == was.(mtimes := was.mtimes[p := mtime], hashes := was.hashes[p := hash])
    requires cur == was || (was.tombs == map[] && cur == Db(Rebuilt(d).0, Rebuilt(d).1, d.tombs, cur.tree))
    ensures MapsStep(was, RecordFile(H, cur, p, mtime, hash), Put(p, mtime, hash))
  {
    hide Wf, Addable, AddView;
    RebuiltPlain(d);
  }

  lemma DeleteStep(H: Hasher, was: Db, d: Db, cur: Db, p: Path, at: Time)
    requires p != [] && Wf(cur.tree) && d == was.(mtimes := was.mtimes - {p}, tombs := was.tombs[p := at])
    requires cur == was || (SameMaps(was, Db(map[], map[], map[], was.tree))
                            && cur == Db(Rebuilt(d).0, Rebuilt(d).1, d.tombs, cur.tree))
    ensures MapsStep(was, RecordDeletion(H, cur, p, at), Del(p, at))
  {
    hide Wf, DeleteView;
  }

  lemma OwnerUnique(u: string, v: string, k: string)
    requires Slashless(u) && Slashless(v) && v + "/" <= k
    ensures u + "/" <= k <==> u == v
  {
    assert k == (v + "/") + k[|v| + 1..];
    assert k[|v|] == '/' && k[..|v|] == v;
    if u + "/" <= k {
      assert k[|u|] == '/' && k[..|u|] == u;
      assert forall i :: 0 <= i < |u| ==> k[i] == u[i] && u[i] in u;
      assert forall i :: 0 <= i < |v| ==> k[i] == v[i] && v[i] in v;
      assert |u| == |v|;
    }
  }

  lemma FaithfulPaths<T(!new)>(m: map<string, T>, user: string, s: map<Path, T>)
    requires Faithful(m, user, s)
    ensures forall p :: p in s ==> ValidPath(p)
  {
  }
}
