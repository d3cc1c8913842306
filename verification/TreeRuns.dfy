/** Whole histories of one tree, and what equal root hashes tell about two trees. */
module TreeRuns {
  import opened Common
  import opened Paths
  import opened TreeView

  /** The two calls the index makes on a tree. */
  datatype Op =
    | Put(path: Path, mtime: Time, hash: Bytes)
    | Del(path: Path, at: Time)

  /** No path of the set is the root or a directory of another. */
  ghost predicate ClashFree(P: iset<Path>) {
    [] !in P && forall p, q :: p in P && q in P ==> !(p < q)
  }

  /** Files sit on paths of P, directories strictly above some; only files are tombstoned. */
  ghost predicate Fits(v: View, P: iset<Path>) {
    && Wf(v)
    && (forall p :: p in v && v[p].kind.File? ==> p in P)
    && (forall p :: p in v && v[p].kind.Directory? ==> !v[p].isDeleted && p !in P)
  }

  lemma EmptyOk(H: Hasher, P: iset<Path>)
    requires ClashFree(P)
    ensures Fits(Empty(H), P) && HashOk(H, Empty(H))
  {
    EmptyWf(H);
  }

  lemma FitsAddable(v: View, P: iset<Path>, p: Path)
    requires ClashFree(P) && Fits(v, P) && p in P
    ensures Addable(v, p) && (p in v ==> v[p].kind.File?) && Exposed(v, p)
  {
  }

  ghost function Step(H: Hasher, v: View, op: Op): (w: View)
    requires Wf(v) && op.path != []
    requires op.Put? ==> Addable(v, op.path)
    ensures Wf(w)
  {
    match op
    case Put(p, mtime, hash) => AddView(H, v, p, mtime, hash)
    case Del(p, at) => DeleteView(H, v, p, at)
  }

  /** What a call makes of the node it names. */
  ghost function Target(H: Hasher, v: View, op: Op): Node
    requires op.Put? || op.path in v
  {
    match op
    case Put(p, mtime, hash) => if p in v then Revived(v[p], mtime, hash) else NewNode(File, hash, mtime)
    case Del(p, at) => v[p].(isDeleted := true, deletedAt := at, hash := H.Tombstone(p))
  }

  /** One call on a fitting tree: what the touched path becomes, and that the rest stays. */
  lemma StepEffect(H: Hasher, P: iset<Path>, v: View, op: Op, q: Path)
    requires ClashFree(P) && Fits(v, P) && HashOk(H, v) && op.path in P
    ensures op.Put? ==> Addable(v, op.path)
    ensures var w := Step(H, v, op);
      && (q in v && q != op.path ==> q in w && w[q] == v[q].(hash := w[q].hash, kids := w[q].kids))
      && (q in v && !(q <= op.path) ==> w[q] == v[q])
      && (q in w && q !in v && q != op.path ==> q < op.path && w[q].kind.Directory? && !w[q].isDeleted)
      && (op.Del? && op.path !in v ==> w == v)
      && (op.Put? || op.path in v ==> op.path in w && w[op.path] == Target(H, v, op))
  {
    FitsAddable(v, P, op.path);
    match op
    case Put(p, mtime, hash) =>
      AddHere(H, v, p, mtime, hash);
      if q != p { AddElsewhere(H, v, p, mtime, hash, q); }
    case Del(p, at) =>
      if p in v {
        DeleteHere(H, v, p, at, p);
        DeleteKeys(H, v, p, at);
        if q != p && q in v {
          FileAbove(v, p, q);
          DeleteElsewhere(H, v, p, at, q);
        }
      }
  }

  lemma DeleteKeys(H: Hasher, v: View, p: Path, at: Time)
    requires Wf(v) && p != []
    ensures DeleteView(H, v, p, at).Keys == v.Keys
  {
    if p in v { DeleteFrame(H, v, p, at); }
  }

  lemma StepOk(H: Hasher, P: iset<Path>, v: View, op: Op)
    requires ClashFree(P) && Fits(v, P) && HashOk(H, v) && op.path in P
    ensures op.Put? ==> Addable(v, op.path)
    ensures Fits(Step(H, v, op), P) && HashOk(H, Step(H, v, op))
  {
    FitsAddable(v, P, op.path);
    var w := Step(H, v, op);
    match op {
      case Put(p, mtime, hash) => AddKeepsHashes(H, v, p, mtime, hash);
      case Del(p, at) => DeleteKeepsHashes(H, v, p, at);
    }
    forall q | q in w
      ensures w[q].kind.File? ==> q in P
      ensures w[q].kind.Directory? ==> !w[q].isDeleted && q !in P
    {
      StepEffect(H, P, v, op, q);
    }
  }

  /** The tree after a whole history, oldest call first. */
  ghost function Run(H: Hasher, P: iset<Path>, ops: seq<Op>): (v: View)
    requires ClashFree(P) && forall op :: op in ops ==> op.path in P
    ensures Fits(v, P) && HashOk(H, v)
  {
    if ops == [] then EmptyOk(H, P); Empty(H)
    else
      var v := Run(H, P, ops[..|ops| - 1]);
      StepOk(H, P, v, ops[|ops| - 1]);
      Step(H, v, ops[|ops| - 1])
  }

  /** Incremental hashing refines full rehashing: after any history of additions, updates and
      file deletions every stored hash, the root's included, is the from-scratch hash of what
      lies there, and a tombstone's is the hash of its path. */
  lemma IncrementalIsFull(H: Hasher, P: iset<Path>, ops: seq<Op>, p: Path)
    requires ClashFree(P) && (forall op :: op in ops ==> op.path in P) && p in Run(H, P, ops)
    ensures var v := Run(H, P, ops);
      && v[p].hash == Rehash(H, v, p)
      && (v[p].isDeleted ==> v[p].kind.File? && v[p].hash == H.Tombstone(p))
      && v[[]].hash == Rehash(H, v, [])
  {
    var v := Run(H, P, ops);
    assert Exposed(v, p) by {
      forall q | q in v && q < p ensures !v[q].isDeleted {
        PrefixIn(v, q, p);
      }
    }
    StoredIsRehash(H, v, p);
    StoredIsRehash(H, v, []);
  }

  // ----- what equal hashes tell -----

  /** Below d the two trees have the same names in the same order, kinds and flags. */
  ghost predicate SameShape(v: View, w: View, d: Path) {
    forall p :: d <= p ==> (p in v <==> p in w) && (p in v ==>
      v[p].kind == w[p].kind && v[p].isDeleted == w[p].isDeleted && v[p].kids == w[p].kids)
  }

  /** The digest tells the two directories' inputs apart at every path below d. */
  ghost predicate NoCollision(H: Hasher, v: View, w: View, d: Path)
    requires Wf(v) && Wf(w)
  {
    forall p :: p in v && p in w && d <= p ==>
      (H.Children(KidHashes(v, p)) == H.Children(KidHashes(w, p)) ==>
        Concat(KidHashes(v, p)) == Concat(KidHashes(w, p)))
  }

  ghost predicate FixedLength(v: View, size: nat) {
    size > 0 && forall p :: p in v ==> |v[p].hash| == size
  }

  lemma KidHashesLength(v: View, p: Path, size: nat)
    requires Wf(v) && FixedLength(v, size) && p in v
    ensures forall c :: c in KidHashes(v, p) ==> |c| == size
  {
    forall i | 0 <= i < |v[p].kids| ensures |KidHashes(v, p)[i]| == size {
      assert Child(p, v[p].kids[i]) in v;
    }
  }

  /** Merkle soundness, downward: with equal names and no collision at hand, equal hashes at
      a directory mean equal hashes everywhere below it. */
  lemma {:induction false} EqualHashEqualBelow(H: Hasher, v: View, w: View, d: Path, p: Path, size: nat)
    requires Wf(v) && Wf(w) && HashOk(H, v) && HashOk(H, w)
    requires FixedLength(v, size) && FixedLength(w, size) && SameShape(v, w, d) && NoCollision(H, v, w, d)
    requires d <= p && p in v && Exposed(v, p) && Exposed(w, p)
    requires d in v && v[d].hash == w[d].hash
    ensures p in w && v[p].hash == w[p].hash
    decreases |p|
  {
    assert p in w;
    if d < p {
      var q, n := Parent(p), Leaf(p);
      PrefixOfParent(d, p);
      ChildFacts(q, n);
      assert Exposed(v, q) && Exposed(w, q);
      PrefixIn(v, q, p);
      assert !v[q].isDeleted && !w[q].isDeleted;
      EqualHashEqualBelow(H, v, w, d, q, size);
      assert LocalHash(H, v, q) && LocalHash(H, w, q);
      KidHashesLength(v, q, size);
      KidHashesLength(w, q, size);
      ConcatFixedInjective(KidHashes(v, q), KidHashes(w, q), size);
      var i :| 0 <= i < |v[q].kids| && v[q].kids[i] == n;
      assert KidHashes(v, q)[i] == KidHashes(w, q)[i];
    } else {
      assert p == d;
    }
  }

  /** Merkle soundness: the root hashes agree exactly when the hashes agree at every path. */
  lemma RootHashDecides(H: Hasher, P: iset<Path>, v: View, w: View, size: nat)
    requires Fits(v, P) && Fits(w, P) && HashOk(H, v) && HashOk(H, w)
    requires FixedLength(v, size) && FixedLength(w, size) && SameShape(v, w, []) && NoCollision(H, v, w, [])
    ensures v[[]].hash == w[[]].hash <==> forall p :: p in v && p in w ==> v[p].hash == w[p].hash
  {
    if v[[]].hash == w[[]].hash {
      forall p | p in v && p in w ensures v[p].hash == w[p].hash {
        FitsExposed(v, P, p);
        FitsExposed(w, P, p);
        EqualHashEqualBelow(H, v, w, [], p, size);
      }
    }
  }

  lemma FitsExposed(v: View, P: iset<Path>, p: Path)
    requires Fits(v, P) && p in v
    ensures Exposed(v, p)
  {
    forall q | q in v && q < p ensures !v[q].isDeleted {
      PrefixIn(v, q, p);
    }
  }

  /** The shortcut is unsound without equal names: a directory hash does not cover them, so
      renaming a file inside it goes unseen, whatever digest is used. */
  lemma RenameKeepsRootHash(H: Hasher, a: Name, b: Name, mtime: Time, hash: Bytes)
    requires a != b
    ensures Addable(Empty(H), [a]) && Addable(Empty(H), [b])
    ensures Wf(Empty(H))
    ensures var v, w := AddView(H, Empty(H), [a], mtime, hash), AddView(H, Empty(H), [b], mtime, hash);
      v[[]].hash == w[[]].hash && [a] in v && [a] !in w && v[[a]].kind.File? && !v[[a]].isDeleted
  {
    RenameSide(H, a, mtime, hash);
    RenameSide(H, b, mtime, hash);
  }

  lemma RenameSide(H: Hasher, a: Name, mtime: Time, hash: Bytes)
    ensures Wf(Empty(H)) && Addable(Empty(H), [a])
    ensures var v := AddView(H, Empty(H), [a], mtime, hash);
      v.Keys == {[], [a]} && v[[]].hash == H.Children([hash]) && v[[a]] == NewNode(File, hash, mtime)
  {
    var e := Empty(H);
    var P := iset{[a]};
    assert ClashFree(P);
    EmptyOk(H, P);
    FitsAddable(e, P, [a]);
    assert Parent([a]) == [] && Leaf([a]) == a;
    var n := NewNode(File, hash, mtime);
    InsertFacts(e, [a], n);
    var i := Insert(e, [a], n);
    assert i[[]].kids == [a];
    assert Child([], a) == [a];
    assert KidHashes(i, []) == [hash];
    RefreshFrame(H, i, [a]);
    assert Refresh(H, i, [a]) == SetHash(i, [], H.Children([hash]));
  }
}
