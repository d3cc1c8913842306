/** The Merkle tree as a value: which node lies at which path. The heap tree of
    MerkleTree.dfy is specified by these functions, the negotiation reads them. */
module TreeView {
  import opened Common
  import opened Paths

  datatype FileType = File | Directory

  /** The digest in use and the text encoding in front of it; nothing is assumed of either. */
  datatype Hasher = Hasher(digest: Bytes -> Bytes, utf8: string -> Bytes) {
    function Children(hashes: seq<Bytes>): Bytes {
      digest(Concat(hashes))
    }

    function Tombstone(p: Path): Bytes {
      digest(utf8("tombstone" + Join(p)))
    }
  }

  /** What an unset date compares as. */
  const UNSET: Time := 0

  datatype Node = Node(kind: FileType, hash: Bytes, isDeleted: bool, deletedAt: Time, mtime: Time, kids: seq<Name>)

  /** Nodes by path; `kids` keeps the insertion order of the children. */
  type View = map<Path, Node>

  /** A tree: rooted, every node listed once by its parent, files without children. */
  ghost predicate Wf(v: View) {
    && [] in v && v[[]].kind.Directory? && !v[[]].isDeleted
    && (forall p {:trigger Parent(p)} :: p in v && p != [] ==> Parent(p) in v && Leaf(p) in v[Parent(p)].kids)
    && (forall p, n {:trigger Child(p, n)} :: p in v && n in v[p].kids ==> Child(p, n) in v)
    && (forall p :: p in v ==> NoDup(v[p].kids))
    && (forall p :: p in v && v[p].kind.File? ==> v[p].kids == [])
  }

  lemma {:induction false} PrefixIn(v: View, q: Path, p: Path)
    requires Wf(v) && p in v && q <= p
    ensures q in v
    ensures q < p ==> v[q].kind.Directory?
    decreases |p|
  {
    if q < p {
      PrefixOfParent(q, p);
      PrefixIn(v, q, Parent(p));
      assert q == Parent(p) || q < Parent(p);
    } else {
      assert q == p;
    }
  }

  /** Below a node means below exactly one of its children. */
  lemma BelowKid(v: View, p: Path, q: Path)
    requires Wf(v) && q in v && p < q
    ensures p in v && q[|p|] in v[p].kids && Child(p, q[|p|]) == Towards(p, q) && Towards(p, q) in v
  {
    BelowChild(p, q[|p|], q);
    PrefixIn(v, Towards(p, q), q);
    ChildFacts(p, q[|p|]);
  }

  // ----- hashes -----

  ghost function KidHashes(v: View, p: Path): seq<Bytes>
    requires Wf(v) && p in v
  {
    var kids := v[p].kids;
    seq(|kids|, i requires 0 <= i < |kids| => v[Child(p, kids[i])].hash)
  }

  lemma SameView(a: View, b: View)
    requires a.Keys == b.Keys && forall q :: q in a ==> a[q] == b[q]
    ensures a == b
  {
  }

  /** The listing of one directory: child paths with their stored hashes, in insertion order. */
  ghost function ChildHashes(v: View, p: Path): seq<(Path, Bytes)>
    requires Wf(v)
  {
    if p !in v then []
    else
      var kids := v[p].kids;
      seq(|kids|, i requires 0 <= i < |kids| => (Child(p, kids[i]), v[Child(p, kids[i])].hash))
  }

  /** No directory above p is tombstoned. */
  ghost predicate Exposed(v: View, p: Path) {
    forall q :: q in v && q < p ==> !v[q].isDeleted
  }

  /** The stored hash is what the node's flag and its children's stored hashes say. */
  ghost predicate LocalHash(H: Hasher, v: View, p: Path)
    requires Wf(v) && p in v
  {
    if v[p].isDeleted then v[p].hash == H.Tombstone(p)
    else v[p].kind.Directory? ==> v[p].hash == H.Children(KidHashes(v, p))
  }

  ghost predicate HashOk(H: Hasher, v: View)
    requires Wf(v)
  {
    forall p :: p in v && Exposed(v, p) ==> LocalHash(H, v, p)
  }

  /** A node's own hash rule reads its flag, its kind and its children's hashes only. */
  lemma LocalSame(H: Hasher, v: View, w: View, p: Path)
    requires Wf(v) && Wf(w) && p in v && p in w
    requires w[p].kind == v[p].kind && w[p].isDeleted == v[p].isDeleted && w[p].hash == v[p].hash
    requires w[p].kids == v[p].kids
    requires forall n :: n in v[p].kids ==> w[Child(p, n)].hash == v[Child(p, n)].hash
    ensures LocalHash(H, v, p) <==> LocalHash(H, w, p)
  {
    assert KidHashes(v, p) == KidHashes(w, p);
  }

  lemma ExposedSame(v: View, w: View, p: Path)
    requires forall q :: q in v && q < p ==> q in w && w[q].isDeleted == v[q].isDeleted
    requires Exposed(w, p)
    ensures Exposed(v, p)
  {
  }

  ghost function Below(v: View, p: Path): set<Path> {
    set q | q in v && p <= q
  }

  lemma BelowShrinks(v: View, p: Path, n: Name)
    requires p in v
    ensures Below(v, Child(p, n)) < Below(v, p)
  {
    ChildFacts(p, n);
    assert p in Below(v, p) && p !in Below(v, Child(p, n));
  }

  /** Hashing the subtree at p from scratch: only flags, shapes and live file hashes are read. */
  ghost function Rehash(H: Hasher, v: View, p: Path): Bytes
    requires Wf(v) && p in v
    decreases Below(v, p)
  {
    if v[p].isDeleted then H.Tombstone(p)
    else if v[p].kind.File? then v[p].hash
    else H.Children(RehashKids(H, v, p))
  }

  ghost function RehashKids(H: Hasher, v: View, p: Path): (r: seq<Bytes>)
    requires Wf(v) && p in v
    decreases Below(v, p), 0
    ensures |r| == |v[p].kids|
    ensures forall i :: 0 <= i < |r| ==> Below(v, Child(p, v[p].kids[i])) < Below(v, p)
    ensures forall i :: 0 <= i < |r| ==> r[i] == Rehash(H, v, Child(p, v[p].kids[i]))
  {
    var kids := v[p].kids;
    assert forall i :: 0 <= i < |kids| ==> Below(v, Child(p, kids[i])) < Below(v, p) by {
      forall i | 0 <= i < |kids| ensures Below(v, Child(p, kids[i])) < Below(v, p) {
        BelowShrinks(v, p, kids[i]);
      }
    }
    seq(|kids|, i requires 0 <= i < |kids| => Rehash(H, v, Child(p, kids[i])))
  }

  lemma EmptyWf(H: Hasher)
    ensures Wf(Empty(H)) && KidHashes(Empty(H), []) == []
  {
  }

  /** A tree just created: the root alone. */
  ghost function Empty(H: Hasher): View {
    map[[] := Node(Directory, H.Children([]), false, UNSET, UNSET, [])]
  }

  // ----- updates -----

  /** Only stored hashes differ. */
  ghost predicate SameButHash(v: View, w: View) {
    && v.Keys == w.Keys
    && (forall p :: p in v ==> w[p] == v[p].(hash := w[p].hash))
  }

  lemma SameButHashWf(v: View, w: View)
    requires Wf(v) && SameButHash(v, w)
    ensures Wf(w)
    ensures forall p :: Exposed(v, p) <==> Exposed(w, p)
  {
  }

  ghost function SetHash(v: View, p: Path, h: Bytes): View
    requires p in v
  {
    v[p := v[p].(hash := h)]
  }

  /** Recompute the directories above p, deepest first. */
  ghost function Refresh(H: Hasher, v: View, p: Path): (w: View)
    requires Wf(v) && p in v
    ensures Wf(w)
    decreases |p|
  {
    if p == [] then v
    else
      var u := SetHash(v, Parent(p), H.Children(KidHashes(v, Parent(p))));
      SameButHashWf(v, u);
      Refresh(H, u, Parent(p))
  }

  lemma {:induction false} RefreshFrame(H: Hasher, v: View, p: Path)
    requires Wf(v) && p in v
    ensures SameButHash(v, Refresh(H, v, p))
    ensures forall q :: q in v && !(q < p) ==> Refresh(H, v, p)[q] == v[q]
    decreases |p|
  {
    if p != [] {
      var u := SetHash(v, Parent(p), H.Children(KidHashes(v, Parent(p))));
      SameButHashWf(v, u);
      RefreshFrame(H, u, Parent(p));
    }
  }

  /** Hashes are right except possibly on the directories above p. */
  ghost predicate HashOkOff(H: Hasher, v: View, p: Path)
    requires Wf(v)
  {
    forall q :: q in v && Exposed(v, q) && !(q < p) ==> LocalHash(H, v, q)
  }

  /** Setting one hash disturbs only the node itself and its parent. */
  lemma SetHashLocal(H: Hasher, v: View, p: Path, h: Bytes, q: Path)
    requires Wf(v) && p in v && q in v && q != p && LocalHash(H, v, q)
    requires p == [] || q != Parent(p)
    ensures Wf(SetHash(v, p, h)) && LocalHash(H, SetHash(v, p, h), q)
  {
    var w := SetHash(v, p, h);
    SameButHashWf(v, w);
    forall i | 0 <= i < |v[q].kids| ensures Child(q, v[q].kids[i]) != p {
      ChildFacts(q, v[q].kids[i]);
    }
    assert KidHashes(w, q) == KidHashes(v, q);
  }

  /** Repairing the parent leaves the directories above the parent to be repaired. */
  lemma RepairedParent(H: Hasher, v: View, p: Path)
    requires Wf(v) && p in v && p != [] && Exposed(v, p) && HashOkOff(H, v, p)
    ensures Parent(p) in v
    ensures var u := SetHash(v, Parent(p), H.Children(KidHashes(v, Parent(p))));
      Wf(u) && Exposed(u, Parent(p)) && HashOkOff(H, u, Parent(p))
  {
    var d := Parent(p);
    PrefixIn(v, d, p);
    var u := SetHash(v, d, H.Children(KidHashes(v, d)));
    SameButHashWf(v, u);
    OwnHashSet(H, v, d);
    hide Wf, LocalHash, KidHashes;
    forall q | q in u && Exposed(u, q) && !(q < d) ensures LocalHash(H, u, q) {
      if q != d {
        PrefixOfParent(q, p);
        SetHashLocal(H, v, d, u[d].hash, q);
      }
    }
  }

  lemma {:induction false} RefreshOk(H: Hasher, v: View, p: Path)
    requires Wf(v) && p in v && Exposed(v, p) && HashOkOff(H, v, p)
    ensures HashOk(H, Refresh(H, v, p))
    decreases |p|
  {
    hide Wf, LocalHash, KidHashes, Exposed;
    if p != [] {
      hide HashOkOff, HashOk;
      RepairedParent(H, v, p);
      RefreshOk(H, SetHash(v, Parent(p), H.Children(KidHashes(v, Parent(p)))), Parent(p));
    } else {
      forall q | q in v && Exposed(v, q) ensures LocalHash(H, v, q) {
        assert !(q < p);
      }
    }
  }

  lemma OwnHashSet(H: Hasher, v: View, d: Path)
    requires Wf(v) && d in v && v[d].kind.Directory? && !v[d].isDeleted
    ensures var u := SetHash(v, d, H.Children(KidHashes(v, d))); Wf(u) && LocalHash(H, u, d)
  {
    var u := SetHash(v, d, H.Children(KidHashes(v, d)));
    SameButHashWf(v, u);
    forall i | 0 <= i < |v[d].kids| ensures Child(d, v[d].kids[i]) != d {
      ChildFacts(d, v[d].kids[i]);
    }
    assert KidHashes(u, d) == KidHashes(v, d);
  }

  // ----- adding a file -----

  function NewNode(kind: FileType, hash: Bytes, mtime: Time): Node {
    Node(kind, hash, false, UNSET, mtime, [])
  }

  ghost predicate Room(v: View, p: Path) {
    p != [] && p !in v && Parent(p) in v && v[Parent(p)].kind.Directory?
  }

  ghost function Insert(v: View, p: Path, n: Node): View
    requires Room(v, p)
  {
    var d := v[Parent(p)];
    v[Parent(p) := d.(kids := d.kids + [Leaf(p)])][p := n]
  }

  lemma InsertFacts(v: View, p: Path, n: Node)
    requires Wf(v) && Room(v, p) && n.kids == []
    ensures Wf(Insert(v, p, n))
    ensures Insert(v, p, n).Keys == v.Keys + {p} && Insert(v, p, n)[p] == n
    ensures forall q :: q in v ==> Insert(v, p, n)[q] == v[q].(kids := Insert(v, p, n)[q].kids)
    ensures forall q :: q in v && q != Parent(p) ==> Insert(v, p, n)[q] == v[q]
  {
    var w := Insert(v, p, n);
    var d := Parent(p);
    assert Child(d, Leaf(p)) == p;
    forall q, k | q in w && k in w[q].kids ensures Child(q, k) in w {
      if q == d && k == Leaf(p) {
        assert Child(q, k) == p;
      } else {
        assert k in v[q].kids;
      }
    }
  }

  lemma InsertLocal(H: Hasher, v: View, p: Path, n: Node, q: Path)
    requires Wf(v) && Room(v, p) && n.kids == [] && q in v && q != Parent(p) && LocalHash(H, v, q)
    ensures Wf(Insert(v, p, n)) && LocalHash(H, Insert(v, p, n), q)
  {
    InsertFacts(v, p, n);
    var w := Insert(v, p, n);
    forall k | k in v[q].kids ensures w[Child(q, k)].hash == v[Child(q, k)].hash {
      assert Child(q, k) in v;
    }
    hide Wf, LocalHash, Insert, Room;
    LocalSame(H, v, w, q);
  }

  /** What the insertion code expects on the way: live directories down to the name,
      and no tombstoned directory under that name. */
  ghost predicate Addable(v: View, p: Path) {
    && p != []
    && (forall q :: q in v && q < p ==> v[q].kind.Directory? && !v[q].isDeleted)
    && (p in v && v[p].isDeleted ==> v[p].kind.File?)
  }

  /** Walking through a directory name, creating the directory if it is missing. */
  ghost function DirStep(v: View, q: Path, mtime: Time): (w: View)
    requires Wf(v) && (q in v || Room(v, q))
    ensures Wf(w) && q in w
  {
    if q in v then v
    else
      InsertFacts(v, q, NewNode(Directory, [], mtime));
      Insert(v, q, NewNode(Directory, [], mtime))
  }

  /** What walking towards p may have done to v: new empty directories above p. */
  ghost predicate Walked(v: View, w: View, p: Path, n: nat)
    requires n <= |p|
  {
    && Addable(w, p)
    && (forall q :: q in v ==> q in w && w[q] == v[q].(kids := w[q].kids))
    && (forall q :: q in v && !(q < p) ==> w[q] == v[q])
    && (forall q :: q in w && q !in v ==>
      q < p && q != [] && w[q] == NewNode(Directory, [], w[q].mtime).(kids := w[q].kids))
    && (forall q :: q in w && q !in v ==> q <= p[..n])
  }

  /** The tree after the first n names of p were walked. */
  ghost function MakeDirs(v: View, p: Path, n: nat, mtime: Time): (w: View)
    requires Wf(v) && Addable(v, p) && n < |p|
    ensures Wf(w) && p[..n] in w && w[p[..n]].kind.Directory? && Walked(v, w, p, n)
  {
    if n == 0 then assert p[..0] == [] < p; v
    else
      var u := MakeDirs(v, p, n - 1, mtime);
      assert Parent(p[..n]) == p[..n - 1];
      DirStepWalks(v, u, p, n, mtime);
      DirStep(u, p[..n], mtime)
  }

  lemma DirStepWalks(v: View, u: View, p: Path, n: nat, mtime: Time)
    requires Wf(v) && Wf(u) && 0 < n < |p| && Walked(v, u, p, n - 1)
    requires p[..n - 1] in u && u[p[..n - 1]].kind.Directory?
    ensures p[..n] in u || Room(u, p[..n])
    ensures DirStep(u, p[..n], mtime)[p[..n]].kind.Directory? && Walked(v, DirStep(u, p[..n], mtime), p, n)
  {
    var q := p[..n];
    assert Parent(q) == p[..n - 1] && q < p && Parent(q) < p && p[..n - 1] <= q;
    if q !in u {
      InsertFacts(u, q, NewNode(Directory, [], mtime));
      InsertWalks(v, u, p, n, mtime);
    }
    hide Wf, Insert;
  }

  lemma InsertWalks(v: View, u: View, p: Path, n: nat, mtime: Time)
    requires Wf(u) && 0 < n < |p| && Walked(v, u, p, n - 1) && Room(u, p[..n])
    ensures Walked(v, Insert(u, p[..n], NewNode(Directory, [], mtime)), p, n)
  {
    hide Wf, Insert, Room, NewNode;
    var q, m := p[..n], NewNode(Directory, [], mtime);
    var w := Insert(u, q, m);
    NewDirectory(mtime);
    assert Parent(q) == p[..n - 1] && q < p && Parent(q) < p && Parent(q) <= q && q <= q;
    forall x
      ensures x in w <==> x in u || x == q
      ensures x in w && x in u ==> w[x] == u[x].(kids := w[x].kids) && (x != Parent(q) ==> w[x] == u[x])
      ensures x <= p[..n - 1] ==> x <= q
      ensures q in w && w[q] == m && q !in u
    {
      InsertAt(u, q, m, x);
    }
  }

  lemma NewDirectory(mtime: Time)
    ensures var m := NewNode(Directory, [], mtime);
      m.kids == [] && m.mtime == mtime && m.kind.Directory? && !m.isDeleted && m.(kids := m.kids) == m
  {
  }

  lemma InsertAt(v: View, p: Path, n: Node, q: Path)
    requires Wf(v) && Room(v, p)
    ensures var w := Insert(v, p, n);
      && p !in v && p in w && w[p] == n && (q in w <==> q in v || q == p)
      && (q in v ==> q in w && w[q] == v[q].(kids := w[q].kids) && (q != Parent(p) ==> w[q] == v[q]))
  {
    hide Wf;
  }

  lemma InsertExposed(v: View, p: Path, n: Node, q: Path)
    requires Wf(v) && Room(v, p) && !n.isDeleted
    ensures Exposed(Insert(v, p, n), q) <==> Exposed(v, q)
  {
    hide Wf, Insert, Room;
    InsertAt(v, p, n, p);
    forall x | x in v || x == p
      ensures x in Insert(v, p, n) && Insert(v, p, n)[x].isDeleted == if x == p then false else v[x].isDeleted
    {
      InsertAt(v, p, n, x);
    }
    if Exposed(v, q) {
      forall x | x in Insert(v, p, n) && x < q ensures !Insert(v, p, n)[x].isDeleted {
        InsertAt(v, p, n, x);
      }
    }
  }

  lemma MakeNoDirs(v: View, p: Path, mtime: Time)
    requires Wf(v) && Addable(v, p)
    ensures p != [] && MakeDirs(v, p, 0, mtime) == v
  {
  }

  lemma MakeDirsNext(v: View, p: Path, n: nat, mtime: Time)
    requires Wf(v) && Addable(v, p) && n + 1 < |p|
    ensures var w := MakeDirs(v, p, n, mtime);
      (p[..n + 1] in w || Room(w, p[..n + 1])) && MakeDirs(v, p, n + 1, mtime) == DirStep(w, p[..n + 1], mtime)
  {
    DirStepWalks(v, MakeDirs(v, p, n, mtime), p, n + 1, mtime);
  }

  lemma AddableRoom(v: View, p: Path)
    requires Wf(v) && Addable(v, p) && Parent(p) in v && p !in v
    ensures Room(v, p)
  {
    assert Parent(p) < p;
  }

  /** An existing file takes the new version; a tombstone comes back to life. */
  function Revived(n: Node, mtime: Time, hash: Bytes): Node {
    n.(mtime := mtime, isDeleted := false, deletedAt := if n.isDeleted then UNSET else n.deletedAt, hash := hash)
  }

  /** The last name: a new file, a new version, or a live directory that only gets the time. */
  ghost function LeafStep(H: Hasher, v: View, p: Path, mtime: Time, hash: Bytes): (w: View)
    requires Wf(v) && Addable(v, p) && Parent(p) in v
    ensures Wf(w)
  {
    if p !in v then
      InsertFacts(v, p, NewNode(File, hash, mtime));
      Refresh(H, Insert(v, p, NewNode(File, hash, mtime)), p)
    else if v[p].kind.Directory? then v[p := v[p].(mtime := mtime)]
    else Refresh(H, v[p := Revived(v[p], mtime, hash)], p)
  }

  /** The whole effect of adding or updating a file. */
  ghost function AddView(H: Hasher, v: View, p: Path, mtime: Time, hash: Bytes): (w: View)
    requires Wf(v) && Addable(v, p)
    ensures Wf(w)
  {
    assert Parent(p) == p[..|p| - 1];
    LeafStep(H, MakeDirs(v, p, |p| - 1, mtime), p, mtime, hash)
  }

  /** A node may change anything but its kind and its children. */
  lemma ReplaceWf(v: View, p: Path, n: Node)
    requires Wf(v) && p in v && n.kind == v[p].kind && n.kids == v[p].kids && (p == [] ==> !n.isDeleted)
    ensures Wf(v[p := n])
  {
  }

  lemma WalkedKeeps(v: View, w: View, p: Path, n: nat, q: Path)
    requires n <= |p| && Walked(v, w, p, n) && q in v
    ensures q in w
  {
  }

  lemma {:induction false} MakeDirsLocal(H: Hasher, v: View, p: Path, n: nat, mtime: Time, q: Path)
    requires Wf(v) && Addable(v, p) && n < |p| && q in v && !(q < p) && LocalHash(H, v, q)
    ensures LocalHash(H, MakeDirs(v, p, n, mtime), q)
  {
    hide Wf, LocalHash, KidHashes, Addable, Walked;
    if n == 0 {
      MakeNoDirs(v, p, mtime);
    } else {
      MakeDirsLocal(H, v, p, n - 1, mtime, q);
      MakeDirsNext(v, p, n - 1, mtime);
      WalkedKeeps(v, MakeDirs(v, p, n - 1, mtime), p, n - 1, q);
      hide MakeDirs, Insert;
      var u := MakeDirs(v, p, n - 1, mtime);
      var d := p[..n];
      if d !in u {
        assert Parent(d) == p[..n - 1] && Parent(d) < p;
        InsertLocal(H, u, d, NewNode(Directory, [], mtime), q);
      }
    }
  }

  lemma {:induction false} MakeDirsNoop(v: View, p: Path, n: nat, mtime: Time)
    requires Wf(v) && Addable(v, p) && n < |p| && p in v
    ensures MakeDirs(v, p, n, mtime) == v
  {
    hide Wf, Addable, Walked;
    if n == 0 {
      MakeNoDirs(v, p, mtime);
    } else {
      MakeDirsNoop(v, p, n - 1, mtime);
      PrefixIn(v, p[..n], p);
      MakeDirsNext(v, p, n - 1, mtime);
      hide MakeDirs;
    }
  }

  lemma MakeDirsHashes(H: Hasher, v: View, p: Path, mtime: Time)
    requires Wf(v) && Addable(v, p) && HashOk(H, v)
    ensures HashOkOff(H, MakeDirs(v, p, |p| - 1, mtime), p)
    ensures Exposed(MakeDirs(v, p, |p| - 1, mtime), p)
  {
    hide LocalHash, KidHashes, MakeDirs;
    var u := MakeDirs(v, p, |p| - 1, mtime);
    forall q | q in u && Exposed(u, q) && !(q < p) ensures LocalHash(H, u, q) {
      ExposedSame(v, u, q);
      MakeDirsLocal(H, v, p, |p| - 1, mtime, q);
    }
  }

  lemma InsertHashes(H: Hasher, u: View, p: Path, n: Node)
    requires Wf(u) && Room(u, p) && n.kids == [] && n.kind.File? && !n.isDeleted && HashOkOff(H, u, p)
    requires Exposed(u, p)
    ensures Wf(Insert(u, p, n)) && HashOkOff(H, Insert(u, p, n), p) && Exposed(Insert(u, p, n), p)
  {
    InsertFacts(u, p, n);
    var w := Insert(u, p, n);
    LocalFile(H, w, p);
    hide Wf, LocalHash, Insert, Room, Exposed;
    InsertExposed(u, p, n, p);
    forall q | q in w && Exposed(w, q) && !(q < p) ensures LocalHash(H, w, q) {
      if q != p {
        InsertAt(u, p, n, q);
        InsertExposed(u, p, n, q);
        InsertLocal(H, u, p, n, q);
      }
    }
  }

  lemma LocalFile(H: Hasher, v: View, p: Path)
    requires Wf(v) && p in v && v[p].kind.File? && !v[p].isDeleted
    ensures LocalHash(H, v, p)
  {
  }

  lemma ReviveHashes(H: Hasher, u: View, p: Path, n: Node)
    requires Wf(u) && p in u && u[p].kind.File? && n.kind.File? && n.kids == [] && HashOkOff(H, u, p)
    requires !n.isDeleted && Exposed(u, p)
    ensures Wf(u[p := n]) && HashOkOff(H, u[p := n], p) && Exposed(u[p := n], p)
  {
    var w := u[p := n];
    var a := SetHash(u, p, n.hash);
    ReplaceWf(u, p, n);
    LocalFile(H, w, p);
    hide Wf, LocalHash;
    forall q | q in w && Exposed(w, q) && !(q < p) ensures LocalHash(H, w, q) {
      if q != p {
        FileAbove(u, p, q);
        ExposedSame(u, w, q);
        SetHashLocal(H, u, p, n.hash, q);
        LocalSame(H, a, w, q);
      }
    }
  }

  lemma TouchHashes(H: Hasher, v: View, p: Path, mtime: Time)
    requires Wf(v) && p in v && HashOk(H, v)
    ensures Wf(v[p := v[p].(mtime := mtime)]) && HashOk(H, v[p := v[p].(mtime := mtime)])
  {
    var w := v[p := v[p].(mtime := mtime)];
    ReplaceWf(v, p, w[p]);
    hide Wf, LocalHash;
    forall q | q in w && Exposed(w, q) ensures LocalHash(H, w, q) {
      ExposedSame(v, w, q);
      LocalSame(H, v, w, q);
    }
  }

  lemma FileKids(v: View, p: Path)
    requires Wf(v) && p in v && v[p].kind.File?
    ensures v[p].kids == []
  {
  }

  /** The last name of an addition repairs the hashes the way down has left to be repaired. */
  lemma LeafKeepsHashes(H: Hasher, u: View, p: Path, mtime: Time, hash: Bytes)
    requires Wf(u) && Addable(u, p) && Parent(p) in u && HashOkOff(H, u, p) && Exposed(u, p)
    requires p in u && u[p].kind.Directory? ==> HashOk(H, u)
    ensures HashOk(H, LeafStep(H, u, p, mtime, hash))
  {
    hide Wf, HashOk, HashOkOff, Exposed, Addable, Insert, Refresh, Room;
    if p !in u {
      var n := NewNode(File, hash, mtime);
      AddableRoom(u, p);
      InsertHashes(H, u, p, n);
      InsertFacts(u, p, n);
      RefreshOk(H, Insert(u, p, n), p);
    } else if u[p].kind.Directory? {
      TouchHashes(H, u, p, mtime);
    } else {
      var n := Revived(u[p], mtime, hash);
      FileKids(u, p);
      ReviveHashes(H, u, p, n);
      RefreshOk(H, u[p := n], p);
    }
  }

  /** Adding or updating a file keeps every stored hash right. */
  lemma AddKeepsHashes(H: Hasher, v: View, p: Path, mtime: Time, hash: Bytes)
    requires Wf(v) && Addable(v, p) && HashOk(H, v)
    ensures HashOk(H, AddView(H, v, p, mtime, hash))
  {
    hide Wf, HashOk, HashOkOff, Exposed, LeafStep, MakeDirs;
    var u := MakeDirs(v, p, |p| - 1, mtime);
    assert Parent(p) == p[..|p| - 1];
    MakeDirsHashes(H, v, p, mtime);
    if p in u && u[p].kind.Directory? {
      DirKnown(v, u, p);
      MakeDirsNoop(v, p, |p| - 1, mtime);
    }
    hide Walked, Addable;
    LeafKeepsHashes(H, u, p, mtime, hash) by { WalkedAddable(v, u, p); }
  }

  lemma WalkedAddable(v: View, u: View, p: Path)
    requires p != [] && Walked(v, u, p, |p| - 1)
    ensures Addable(u, p)
  {
  }

  lemma DirKnown(v: View, u: View, p: Path)
    requires p != [] && Walked(v, u, p, |p| - 1) && p in u
    ensures p in v
  {
  }

  /** Nothing lies below a file. */
  lemma FileAbove(v: View, p: Path, q: Path)
    requires Wf(v) && p in v && v[p].kind.File? && q in v
    ensures !(p < q)
  {
    if p < q {
      BelowKid(v, p, q);
    }
  }

  // ----- from-scratch hashing -----

  /** Locally right hashes are globally right: what is stored is the from-scratch hash. */
  lemma {:induction false} StoredIsRehash(H: Hasher, v: View, p: Path)
    requires Wf(v) && HashOk(H, v) && p in v && Exposed(v, p)
    ensures v[p].hash == Rehash(H, v, p)
    decreases Below(v, p)
  {
    if !v[p].isDeleted && v[p].kind.Directory? {
      var kids := v[p].kids;
      var r := RehashKids(H, v, p);
      forall i | 0 <= i < |kids| ensures r[i] == KidHashes(v, p)[i] {
        ChildExposed(v, p, kids[i]);
        StoredIsRehash(H, v, Child(p, kids[i]));
      }
      assert r == KidHashes(v, p);
    }
  }

  lemma ChildExposed(v: View, p: Path, n: Name)
    requires p in v && Exposed(v, p) && !v[p].isDeleted
    ensures Exposed(v, Child(p, n))
  {
    forall q | q in v && q < Child(p, n) ensures !v[q].isDeleted {
      ChildFacts(p, n);
      PrefixOfParent(q, Child(p, n));
      assert q == p || q < p;
    }
  }

  /** Conversely, only locally right hashes can equal the from-scratch ones everywhere. */
  lemma RehashIsStored(H: Hasher, v: View)
    requires Wf(v)
    requires forall p :: p in v && Exposed(v, p) ==> v[p].hash == Rehash(H, v, p)
    ensures HashOk(H, v)
  {
    forall p | p in v && Exposed(v, p) ensures LocalHash(H, v, p) {
      if !v[p].isDeleted && v[p].kind.Directory? {
        var kids := v[p].kids;
        var r := RehashKids(H, v, p);
        forall i | 0 <= i < |kids| ensures r[i] == KidHashes(v, p)[i] {
          ChildExposed(v, p, kids[i]);
        }
        assert r == KidHashes(v, p);
      }
    }
  }

  /** Two trees that agree on everything hashing reads below p. */
  ghost predicate SameBelow(v: View, w: View, p: Path) {
    forall q :: p <= q ==> (q in v <==> q in w) && (q in v ==>
      w[q].kind == v[q].kind && w[q].isDeleted == v[q].isDeleted && w[q].kids == v[q].kids
      && (v[q].kind.File? && !v[q].isDeleted ==> w[q].hash == v[q].hash))
  }

  lemma {:induction false} RehashAgrees(H: Hasher, v: View, w: View, p: Path)
    requires Wf(v) && Wf(w) && p in v && SameBelow(v, w, p)
    ensures p in w && Rehash(H, v, p) == Rehash(H, w, p)
    decreases Below(v, p)
  {
    assert p in w;
    if !v[p].isDeleted && v[p].kind.Directory? {
      var kids := v[p].kids;
      var a, b := RehashKids(H, v, p), RehashKids(H, w, p);
      forall i | 0 <= i < |kids| ensures a[i] == b[i] {
        ChildFacts(p, kids[i]);
        RehashAgrees(H, v, w, Child(p, kids[i]));
      }
      assert a == b;
    }
  }

  // ----- deleting -----

  /** Every node at or below p becomes a tombstone. */
  ghost function Mark(v: View, p: Path, at: Time): (m: View)
    requires Wf(v) && p != []
    ensures Wf(m)
  {
    var m := map q | q in v :: if p <= q then v[q].(isDeleted := true, deletedAt := at) else v[q];
    assert m.Keys == v.Keys;
    m
  }

  /** The marking of p half done: p itself and its first n subtrees. */
  ghost function MarkSome(v: View, p: Path, at: Time, n: nat): (m: View)
    requires Wf(v) && p in v && p != [] && n <= |v[p].kids|
  {
    map q | q in v :: if q == p || (p < q && q[|p|] in v[p].kids[..n]) then v[q].(isDeleted := true, deletedAt := at)
      else v[q]
  }

  lemma MarkNone(v: View, p: Path, at: Time)
    requires Wf(v) && p in v && p != []
    ensures MarkSome(v, p, at, 0) == v[p := v[p].(isDeleted := true, deletedAt := at)]
  {
  }

  lemma MarkOneMore(v: View, p: Path, at: Time, n: nat)
    requires Wf(v) && p in v && p != [] && n < |v[p].kids| && Wf(MarkSome(v, p, at, n))
    ensures Mark(MarkSome(v, p, at, n), Child(p, v[p].kids[n]), at) == MarkSome(v, p, at, n + 1)
  {
    var c := Child(p, v[p].kids[n]);
    assert v[p].kids[..n + 1] == v[p].kids[..n] + [v[p].kids[n]];
    forall q | q in v ensures c <= q <==> p < q && q[|p|] == v[p].kids[n] {
      BelowChild(p, v[p].kids[n], q);
    }
  }

  lemma MarkAll(v: View, p: Path, at: Time)
    requires Wf(v) && p in v && p != []
    ensures MarkSome(v, p, at, |v[p].kids|) == Mark(v, p, at)
  {
    assert v[p].kids[..|v[p].kids|] == v[p].kids;
    forall q | q in v && p < q ensures q[|p|] in v[p].kids {
      BelowKid(v, p, q);
    }
  }

  /** No tombstone from d down to, but excluding, q. */
  ghost predicate ExposedFrom(v: View, d: Path, q: Path) {
    forall r :: r in v && d <= r && r < q ==> !v[r].isDeleted
  }

  /** Fresh hashes from d downward, not going below a tombstone. */
  ghost function Rehashed(H: Hasher, v: View, d: Path): (r: View)
    requires Wf(v)
    ensures SameButHash(v, r) && Wf(r)
    ensures forall q :: q in v && !(d <= q) ==> r[q] == v[q]
  {
    var r := map q | q in v :: if d <= q && ExposedFrom(v, d, q) then v[q].(hash := Rehash(H, v, q)) else v[q];
    SameButHashWf(v, r);
    r
  }

  /** The rehashing of directory d half done: its first n subtrees. */
  ghost function RehashSome(H: Hasher, v: View, d: Path, n: nat): (r: View)
    requires Wf(v) && d in v && n <= |v[d].kids|
    ensures SameButHash(v, r) && Wf(r)
  {
    var r := map q | q in v ::
      if d < q && q[|d|] in v[d].kids[..n] && ExposedFrom(v, d, q) then v[q].(hash := Rehash(H, v, q)) else v[q];
    SameButHashWf(v, r);
    r
  }

  lemma RehashNone(H: Hasher, v: View, d: Path)
    requires Wf(v) && d in v
    ensures RehashSome(H, v, d, 0) == v
  {
  }

  /** Stored hashes of directories and tombstones do not matter to the from-scratch hash. */
  lemma RehashIgnoresStored(H: Hasher, v: View, w: View, q: Path)
    requires Wf(v) && Wf(w) && SameButHash(v, w) && q in v
    requires forall x :: x in v && v[x].kind.File? && !v[x].isDeleted ==> w[x].hash == v[x].hash
    ensures Rehash(H, w, q) == Rehash(H, v, q)
  {
    RehashAgrees(H, v, w, q);
  }

  /** Rehashing touches no live file's hash. */
  lemma RehashSomeFiles(H: Hasher, v: View, d: Path, n: nat)
    requires Wf(v) && d in v && n <= |v[d].kids|
    ensures forall x :: x in v && v[x].kind.File? && !v[x].isDeleted ==> RehashSome(H, v, d, n)[x].hash == v[x].hash
  {
    hide Wf, ExposedFrom;
  }

  /** q lies in one of the first n subtrees of d. */
  ghost predicate InFirst(v: View, d: Path, n: nat, q: Path)
    requires d in v && n <= |v[d].kids|
  {
    d < q && q[|d|] in v[d].kids[..n]
  }

  lemma InFirstNext(v: View, d: Path, n: nat, q: Path)
    requires d in v && n < |v[d].kids|
    ensures InFirst(v, d, n + 1, q) <==> InFirst(v, d, n, q) || Child(d, v[d].kids[n]) <= q
  {
    assert v[d].kids[..n + 1] == v[d].kids[..n] + [v[d].kids[n]];
    BelowChild(d, v[d].kids[n], q);
  }

  lemma RehashSomeAt(H: Hasher, v: View, d: Path, n: nat, q: Path)
    requires Wf(v) && d in v && n <= |v[d].kids| && q in v
    ensures q in RehashSome(H, v, d, n) && RehashSome(H, v, d, n)[q] ==
      if InFirst(v, d, n, q) && ExposedFrom(v, d, q) then v[q].(hash := Rehash(H, v, q)) else v[q]
  {
    hide Wf, Rehash, ExposedFrom;
  }

  lemma RehashedAt(H: Hasher, w: View, c: Path, q: Path)
    requires Wf(w) && q in w
    ensures Rehashed(H, w, c)[q] == if c <= q && ExposedFrom(w, c, q) then w[q].(hash := Rehash(H, w, q)) else w[q]
  {
    hide Wf, Rehash, ExposedFrom;
  }

  lemma RehashOneMoreAt(H: Hasher, v: View, d: Path, n: nat, q: Path)
    requires Wf(v) && d in v && !v[d].isDeleted && n < |v[d].kids| && q in v
    ensures Rehashed(H, RehashSome(H, v, d, n), Child(d, v[d].kids[n]))[q] == RehashSome(H, v, d, n + 1)[q]
  {
    hide Wf, Rehash, ExposedFrom, Rehashed, RehashSome, InFirst, Child;
    var k := v[d].kids[n];
    var w := RehashSome(H, v, d, n);
    RehashSomeFiles(H, v, d, n);
    RehashIgnoresStored(H, v, w, q);
    RehashSomeAt(H, v, d, n, q);
    RehashSomeAt(H, v, d, n + 1, q);
    RehashedAt(H, w, Child(d, k), q);
    InFirstNext(v, d, n, q);
    if Child(d, k) <= q {
      ExposedBelowChild(v, w, d, k, q);
    }
  }

  lemma RehashOneMore(H: Hasher, v: View, d: Path, n: nat)
    requires Wf(v) && d in v && !v[d].isDeleted && n < |v[d].kids|
    ensures Rehashed(H, RehashSome(H, v, d, n), Child(d, v[d].kids[n])) == RehashSome(H, v, d, n + 1)
  {
    var a, b := Rehashed(H, RehashSome(H, v, d, n), Child(d, v[d].kids[n])), RehashSome(H, v, d, n + 1);
    hide Wf, Rehashed, RehashSome;
    assert a.Keys == v.Keys == b.Keys;
    forall q | q in a ensures a[q] == b[q] {
      RehashOneMoreAt(H, v, d, n, q);
    }
    SameView(a, b);
  }

  lemma ExposedBelowChild(v: View, w: View, d: Path, n: Name, q: Path)
    requires d in v && !v[d].isDeleted && SameButHash(v, w) && Child(d, n) <= q
    ensures ExposedFrom(w, Child(d, n), q) <==> ExposedFrom(v, d, q)
  {
    var c := Child(d, n);
    ChildFacts(d, n);
    forall r | r in v && d <= r && r < q ensures r == d || c <= r {
      assert q[..|c|] == c;
    }
    if ExposedFrom(w, c, q) {
      forall r | r in v && d <= r && r < q ensures !v[r].isDeleted {
        assert r in w;
      }
    }
    if ExposedFrom(v, d, q) {
      forall r | r in w && c <= r && r < q ensures !w[r].isDeleted {
        assert r in v && d <= r;
      }
    }
  }

  lemma RehashedKid(H: Hasher, v: View, d: Path, i: nat)
    requires Wf(v) && d in v && !v[d].isDeleted && i < |v[d].kids|
    ensures var c := Child(d, v[d].kids[i]);
      c in v && RehashSome(H, v, d, |v[d].kids|)[c].hash == Rehash(H, v, c)
  {
    var c := Child(d, v[d].kids[i]);
    ChildFacts(d, v[d].kids[i]);
    assert v[d].kids[..|v[d].kids|] == v[d].kids;
    assert c in v;
    hide Wf, Rehash;
    forall r | r in v && d <= r && r < c ensures !v[r].isDeleted {
      PrefixOfParent(r, c);
      assert r == d;
    }
    RehashSomeAt(H, v, d, |v[d].kids|, c);
    assert InFirst(v, d, |v[d].kids|, c);
  }

  lemma RehashedKids(H: Hasher, v: View, d: Path)
    requires Wf(v) && d in v && !v[d].isDeleted && v[d].kind.Directory?
    ensures H.Children(KidHashes(RehashSome(H, v, d, |v[d].kids|), d)) == Rehash(H, v, d)
  {
    hide Wf, RehashSome;
    var kids := v[d].kids;
    var w := RehashSome(H, v, d, |kids|);
    var anew := RehashKids(H, v, d);
    forall i | 0 <= i < |kids| ensures KidHashes(w, d)[i] == anew[i] {
      RehashedKid(H, v, d, i);
    }
    assert KidHashes(w, d) == anew;
  }

  lemma RehashedHere(H: Hasher, v: View, d: Path)
    requires Wf(v) && d in v
    ensures Rehashed(H, v, d)[d].hash == Rehash(H, v, d)
  {
    hide Wf, Rehash;
    assert ExposedFrom(v, d, d);
  }

  // ----- whether an empty hash was given -----

  /** No hash that rehashing from d gives is empty. */
  ghost predicate NonEmptyFrom(H: Hasher, v: View, d: Path)
    requires Wf(v)
  {
    forall q :: q in v && d <= q && ExposedFrom(v, d, q) ==> Rehash(H, v, q) != []
  }

  /** None in the first n subtrees of d. */
  ghost predicate NonEmptySome(H: Hasher, v: View, d: Path, n: nat)
    requires Wf(v) && d in v && n <= |v[d].kids|
  {
    forall q :: q in v && InFirst(v, d, n, q) && ExposedFrom(v, d, q) ==> Rehash(H, v, q) != []
  }

  lemma NonEmptyNone(H: Hasher, v: View, d: Path)
    requires Wf(v) && d in v
    ensures NonEmptySome(H, v, d, 0)
  {
    hide Wf, Rehash, ExposedFrom;
  }

  lemma NonEmptyOneMore(H: Hasher, v: View, d: Path, n: nat)
    requires Wf(v) && d in v && !v[d].isDeleted && n < |v[d].kids|
    ensures NonEmptySome(H, v, d, n + 1) <==>
      NonEmptySome(H, v, d, n) && NonEmptyFrom(H, RehashSome(H, v, d, n), Child(d, v[d].kids[n]))
  {
    hide Wf, Rehash, ExposedFrom, InFirst, RehashSome;
    var w, c := RehashSome(H, v, d, n), Child(d, v[d].kids[n]);
    RehashSomeFiles(H, v, d, n);
    forall q | q in v
      ensures InFirst(v, d, n + 1, q) <==> InFirst(v, d, n, q) || c <= q
      ensures Rehash(H, w, q) == Rehash(H, v, q)
      ensures c <= q ==> (ExposedFrom(w, c, q) <==> ExposedFrom(v, d, q))
    {
      InFirstNext(v, d, n, q);
      RehashIgnoresStored(H, v, w, q);
      if c <= q { ExposedBelowChild(v, w, d, v[d].kids[n], q); }
    }
  }

  lemma NonEmptyAll(H: Hasher, v: View, d: Path)
    requires Wf(v) && d in v && !v[d].isDeleted && v[d].kind.Directory?
    ensures NonEmptyFrom(H, v, d) <==> NonEmptySome(H, v, d, |v[d].kids|) && Rehash(H, v, d) != []
  {
    forall q | q in v ensures d <= q <==> q == d || InFirst(v, d, |v[d].kids|, q) {
      assert v[d].kids[..|v[d].kids|] == v[d].kids;
      if d < q { BelowKid(v, d, q); }
    }
    assert ExposedFrom(v, d, d);
    hide Wf, Rehash, ExposedFrom, InFirst;
  }

  /** A tombstone or a live file gets one hash and no more. */
  lemma NonEmptyLeaf(H: Hasher, v: View, d: Path)
    requires Wf(v) && d in v && (v[d].isDeleted || v[d].kind.File?)
    ensures NonEmptyFrom(H, v, d) <==> Rehash(H, v, d) != []
  {
    assert ExposedFrom(v, d, d);
    forall q | q in v && d <= q && ExposedFrom(v, d, q) ensures q == d {
      if d < q { BelowKid(v, d, q); }
    }
    hide Wf, Rehash, ExposedFrom;
  }

  /** Where no digest is empty only a live file can have an empty hash: one that was recorded with it. */
  lemma EmptyOnlyRecorded(H: Hasher, v: View, d: Path)
    requires Wf(v) && forall x :: H.digest(x) != []
    ensures NonEmptyFrom(H, v, d) <==> forall q ::
      q in v && d <= q && ExposedFrom(v, d, q) && v[q].kind.File? && !v[q].isDeleted ==> v[q].hash != []
  {
    hide Wf, ExposedFrom;
    forall q | q in v
      ensures Rehash(H, v, q) != [] <==> (v[q].kind.File? && !v[q].isDeleted ==> v[q].hash != [])
    {
    }
    hide Rehash;
  }

  lemma RehashAllAt(H: Hasher, v: View, d: Path, q: Path)
    requires Wf(v) && d in v && !v[d].isDeleted && v[d].kind.Directory? && q in v
    ensures SetHash(RehashSome(H, v, d, |v[d].kids|), d, Rehash(H, v, d))[q] == Rehashed(H, v, d)[q]
  {
    var kids := v[d].kids;
    assert kids[..|kids|] == kids;
    if d < q {
      BelowKid(v, d, q);
    }
    hide Wf, Rehash;
    assert d <= q ==> d == q || d < q;
    assert ExposedFrom(v, d, d);
  }

  lemma RehashAll(H: Hasher, v: View, d: Path)
    requires Wf(v) && d in v && !v[d].isDeleted && v[d].kind.Directory?
    ensures var w := RehashSome(H, v, d, |v[d].kids|);
      SetHash(w, d, H.Children(KidHashes(w, d))) == Rehashed(H, v, d)
  {
    hide Wf, Rehash, KidHashes, RehashSome, Rehashed;
    RehashedKids(H, v, d);
    var a := SetHash(RehashSome(H, v, d, |v[d].kids|), d, Rehash(H, v, d));
    var b := Rehashed(H, v, d);
    assert a.Keys == v.Keys == b.Keys;
    forall q | q in a ensures a[q] == b[q] {
      RehashAllAt(H, v, d, q);
    }
    SameView(a, b);
  }

  lemma RehashTombstone(H: Hasher, v: View, d: Path)
    requires Wf(v) && d in v && v[d].isDeleted
    ensures Rehashed(H, v, d) == SetHash(v, d, H.Tombstone(d))
  {
    assert Rehash(H, v, d) == H.Tombstone(d);
    hide Wf, Rehash;
    forall q | q in v ensures Rehashed(H, v, d)[q] == SetHash(v, d, H.Tombstone(d))[q] {
      assert d < q ==> !ExposedFrom(v, d, q);
      assert d <= q ==> d == q || d < q;
      assert ExposedFrom(v, d, d);
    }
  }

  lemma RehashFile(H: Hasher, v: View, d: Path)
    requires Wf(v) && d in v && !v[d].isDeleted && v[d].kind.File?
    ensures Rehashed(H, v, d) == v
  {
    forall q | q in v && d <= q ensures q == d {
      FileAbove(v, d, q);
    }
  }

  /** The whole effect of a deletion; an unknown path changes nothing. */
  ghost function DeleteView(H: Hasher, v: View, p: Path, at: Time): (w: View)
    requires Wf(v) && p != []
    ensures Wf(w)
  {
    if p !in v then v else Refresh(H, Rehashed(H, Mark(v, p, at), Parent(p)), Parent(p))
  }

  lemma DeleteUnknown(H: Hasher, v: View, p: Path, at: Time)
    requires Wf(v) && p != []
    ensures p !in v ==> DeleteView(H, v, p, at) == v
  {
  }

  lemma RehashedLocal(H: Hasher, m: View, d: Path, q: Path)
    requires Wf(m) && d in m && q in m && d <= q && ExposedFrom(m, d, q)
    ensures LocalHash(H, Rehashed(H, m, d), q)
  {
    var r := Rehashed(H, m, d);
    if !m[q].isDeleted && m[q].kind.Directory? {
      var kids := m[q].kids;
      var anew := RehashKids(H, m, q);
      forall i | 0 <= i < |kids| ensures r[Child(q, kids[i])].hash == anew[i] {
        var c := Child(q, kids[i]);
        ChildFacts(q, kids[i]);
        forall x | x in m && d <= x && x < c ensures !m[x].isDeleted {
          PrefixOfParent(x, c);
          assert x == q || x < q;
        }
      }
      assert KidHashes(r, q) == anew;
    }
  }

  /** Away from p and its ancestors nothing the hash rule reads has changed. */
  lemma RehashedElsewhere(H: Hasher, v: View, p: Path, at: Time, q: Path)
    requires Wf(v) && p in v && p != [] && q in v && !(q < Parent(p)) && !(Parent(p) <= q)
    requires LocalHash(H, v, q)
    ensures LocalHash(H, Rehashed(H, Mark(v, p, at), Parent(p)), q)
  {
    var d := Parent(p);
    var r := Rehashed(H, Mark(v, p, at), d);
    assert !(p <= q) by { PrefixOfParent(d, p); }
    forall n | n in v[q].kids ensures r[Child(q, n)].hash == v[Child(q, n)].hash {
      ChildFacts(q, n);
      PrefixOfParent(d, Child(q, n));
      PrefixOfParent(q, d);
      assert d <= Child(q, n) ==> d == Child(q, n) || d < Child(q, n);
    }
    LocalSame(H, v, r, q);
  }

  lemma RehashedOff(H: Hasher, v: View, p: Path, at: Time)
    requires Wf(v) && p in v && p != [] && HashOk(H, v) && Exposed(v, p)
    ensures var r := Rehashed(H, Mark(v, p, at), Parent(p)); HashOkOff(H, r, Parent(p)) && Exposed(r, Parent(p))
  {
    var d := Parent(p);
    var m := Mark(v, p, at);
    var r := Rehashed(H, m, d);
    PrefixOfParent(d, p);
    forall q | q in r && Exposed(r, q) && !(q < d) ensures LocalHash(H, r, q) {
      ExposedSame(m, r, q);
      if d <= q {
        RehashedLocal(H, m, d, q);
      } else {
        ExposedMark(v, p, at, q);
        RehashedElsewhere(H, v, p, at, q);
      }
    }
    forall x | x in r && x < d ensures !r[x].isDeleted {
      assert !(p <= x) && x < p;
    }
  }

  lemma ExposedMark(v: View, p: Path, at: Time, q: Path)
    requires Wf(v) && p != [] && Exposed(Mark(v, p, at), q)
    ensures Exposed(v, q)
  {
    var m := Mark(v, p, at);
    forall x | x in v && x < q ensures !v[x].isDeleted {
      assert x in m && !m[x].isDeleted;
    }
  }

  /** Deleting below live directories keeps every exposed hash right. */
  lemma DeleteKeepsHashes(H: Hasher, v: View, p: Path, at: Time)
    requires Wf(v) && p != [] && HashOk(H, v) && Exposed(v, p)
    ensures HashOk(H, DeleteView(H, v, p, at))
  {
    if p in v {
      RehashedOff(H, v, p, at);
      RefreshOk(H, Rehashed(H, Mark(v, p, at), Parent(p)), Parent(p));
    }
  }

  /** A live file's tombstoning leaves what the other exposed nodes hash to. */
  lemma MarkRehash(H: Hasher, v: View, p: Path, at: Time, q: Path)
    requires Wf(v) && p in v && p != [] && HashOk(H, v) && Exposed(v, q) && q in v && !(q <= p) && !(p <= q)
    ensures Rehash(H, Mark(v, p, at), q) == v[q].hash
  {
    var m := Mark(v, p, at);
    assert forall x :: x in v && q <= x ==> !(p <= x);
    assert SameBelow(v, m, q);
    RehashAgrees(H, v, m, q);
    StoredIsRehash(H, v, q);
  }

  lemma DeleteFrame(H: Hasher, v: View, p: Path, at: Time)
    requires Wf(v) && p in v && p != []
    ensures var r := Rehashed(H, Mark(v, p, at), Parent(p));
      SameButHash(r, DeleteView(H, v, p, at)) && forall q :: q in v && !(q < Parent(p)) ==>
        DeleteView(H, v, p, at)[q] == r[q]
  {
    RefreshFrame(H, Rehashed(H, Mark(v, p, at), Parent(p)), Parent(p));
  }

  /** Deleting changes what lies at and below the path and the hashes above it, nothing else. */
  lemma DeleteElsewhere(H: Hasher, v: View, p: Path, at: Time, q: Path)
    requires Wf(v) && p in v && p != [] && HashOk(H, v) && Exposed(v, p)
    requires q in v && !(p <= q)
    ensures var w := DeleteView(H, v, p, at);
      w.Keys == v.Keys && w[q] == v[q].(hash := w[q].hash) && (!(q < p) ==> w[q] == v[q])
  {
    hide Rehash, Refresh, Wf, KidHashes, Rehashed;
    DeleteFrame(H, v, p, at);
    PrefixOfParent(q, p);
    var m := Mark(v, p, at);
    assert m[q] == v[q];
    if !(q < p) {
      RehashedSame(H, v, p, at, q);
    }
  }

  lemma RehashedSame(H: Hasher, v: View, p: Path, at: Time, q: Path)
    requires Wf(v) && p in v && p != [] && HashOk(H, v) && Exposed(v, p)
    requires q in v && !(q <= p) && !(p <= q)
    ensures Rehashed(H, Mark(v, p, at), Parent(p))[q] == v[q]
  {
    var d := Parent(p);
    var m := Mark(v, p, at);
    assert m[q] == v[q];
    if d <= q && ExposedFrom(m, d, q) {
      forall x | x in v && x < q ensures !v[x].isDeleted {
        assert x in m;
        if d <= x {
          assert !m[x].isDeleted;
        } else {
          assert x < d && x < p;
        }
      }
      MarkRehash(H, v, p, at, q);
    }
  }

  /** A deleted node and all below it are tombstones that carry the time; the node itself has the hash of its
      path, those below it keep the hash they had. */
  lemma DeleteHere(H: Hasher, v: View, p: Path, at: Time, q: Path)
    requires Wf(v) && p in v && p != [] && Exposed(v, p) && q in v && p <= q
    ensures q in DeleteView(H, v, p, at)
    ensures DeleteView(H, v, p, at)[q] == v[q].(isDeleted := true, deletedAt := at,
              hash := if q == p then H.digest(H.utf8("tombstone" + Join(p))) else v[q].hash)
  {
    hide Refresh, KidHashes, Wf;
    DeleteFrame(H, v, p, at);
    var d := Parent(p);
    var m := Mark(v, p, at);
    PrefixOfParent(d, p);
    assert d < p && !(q < p) && d <= q && !(q <= d);
    if q == p {
      forall x | x in m && d <= x && x < p ensures !m[x].isDeleted {
        assert !v[x].isDeleted;
      }
    } else {
      assert m[p].isDeleted && !ExposedFrom(m, d, q);
    }
  }

  // ----- what adding leaves alone and what it sets -----

  lemma AddHere(H: Hasher, v: View, p: Path, mtime: Time, hash: Bytes)
    requires Wf(v) && Addable(v, p) && (p in v ==> v[p].kind.File?)
    ensures p in AddView(H, v, p, mtime, hash)
    ensures AddView(H, v, p, mtime, hash)[p] ==
      (if p in v then Revived(v[p], mtime, hash) else NewNode(File, hash, mtime))
    ensures AddView(H, v, p, mtime, hash)[p] ==
      Node(File, hash, false, if p in v && !v[p].isDeleted then v[p].deletedAt else UNSET, mtime, [])
  {
    if p in v {
      MakeDirsNoop(v, p, |p| - 1, mtime);
      RefreshFrame(H, v[p := Revived(v[p], mtime, hash)], p);
    } else {
      assert Parent(p) == p[..|p| - 1];
      var u := MakeDirs(v, p, |p| - 1, mtime);
      InsertFacts(u, p, NewNode(File, hash, mtime));
      RefreshFrame(H, Insert(u, p, NewNode(File, hash, mtime)), p);
    }
  }

  lemma AddElsewhere(H: Hasher, v: View, p: Path, mtime: Time, hash: Bytes, q: Path)
    requires Wf(v) && Addable(v, p) && (p in v ==> v[p].kind.File?) && q != p
    ensures var w := AddView(H, v, p, mtime, hash);
      && (q in v ==> q in w && w[q] == v[q].(hash := w[q].hash, kids := w[q].kids))
      && (q in v && !(q < p) ==> w[q] == v[q])
      && (q in w && q !in v ==> q < p && w[q].kind.Directory? && !w[q].isDeleted)
  {
    if p in v {
      MakeDirsNoop(v, p, |p| - 1, mtime);
      RefreshFrame(H, v[p := Revived(v[p], mtime, hash)], p);
    } else {
      assert Parent(p) == p[..|p| - 1] && Parent(p) < p;
      var u := MakeDirs(v, p, |p| - 1, mtime);
      LeafElsewhere(H, u, p, mtime, hash, q);
    }
  }

  ghost function Known(v: View, q: Path): seq<Name> {
    if q in v then v[q].kids else []
  }

  /** The children of a directory after one of that name was looked for and created if it was missing. */
  ghost function With(kids: seq<Name>, n: Name): seq<Name> {
    if n in kids then kids else kids + [n]
  }

  lemma DirStepAt(v: View, d: Path, mtime: Time, q: Path)
    requires Wf(v) && d != [] && (d in v || Room(v, d))
    ensures var w := DirStep(v, d, mtime);
      && (q in w <==> q in v || q == d)
      && (d !in v ==> Parent(d) in v && w[d] == NewNode(Directory, [], mtime))
      && (q in v ==> w[q] == v[q].(kids := w[q].kids))
      && (q in v ==> w[q].kids == if d !in v && q == Parent(d) then v[q].kids + [Leaf(d)] else v[q].kids)
  {
    hide Wf;
    if d !in v { InsertAt(v, d, NewNode(Directory, [], mtime), q); }
  }

  /** One directory further: the node before it lists it if it did not. */
  lemma MakeDirsAboveNext(v: View, p: Path, n: nat, mtime: Time, q: Path)
    requires Wf(v) && Addable(v, p) && 0 < n < |p| && q < p
    requires var u := MakeDirs(v, p, n - 1, mtime);
      && (p[..n] in u <==> p[..n] in v)
      && (q in u <==> q in v || |q| <= n - 1)
      && (q in u ==> u[q].kids == if |q| < n - 1 then With(Known(v, q), p[|q|]) else Known(v, q))
      && (q in u && q !in v ==> u[q] == NewNode(Directory, [], mtime).(kids := u[q].kids))
    ensures var w := MakeDirs(v, p, n, mtime);
      && (q in w <==> q in v || |q| <= n)
      && (q in w ==> w[q].kids == if |q| < n then With(Known(v, q), p[|q|]) else Known(v, q))
      && (q in w && q !in v ==> w[q] == NewNode(Directory, [], mtime).(kids := w[q].kids))
  {
    hide Wf, Room, MakeDirs, Addable, DirStep;
    var d := p[..n];
    MakeDirsNext(v, p, n - 1, mtime);
    assert Parent(d) == p[..n - 1] && Leaf(d) == p[n - 1];
    ListedIn(v, d);
    DirStepAt(MakeDirs(v, p, n - 1, mtime), d, mtime, q);
    assert |q| == n ==> q == d;
    assert |q| == n - 1 ==> q == Parent(d);
  }

  lemma {:induction false} MakeDirsAbove(v: View, p: Path, n: nat, mtime: Time, q: Path)
    requires Wf(v) && Addable(v, p) && n < |p| && q < p
    ensures var u := MakeDirs(v, p, n, mtime);
      && (q in u <==> q in v || |q| <= n)
      && (q in u ==> u[q].kids == if |q| < n then With(Known(v, q), p[|q|]) else Known(v, q))
      && (q in u && q !in v ==> u[q] == NewNode(Directory, [], mtime).(kids := u[q].kids))
  {
    hide Wf, MakeDirs, Addable, Walked, With;
    if n == 0 {
      MakeNoDirs(v, p, mtime);
      RootThere(v);
    } else {
      MakeDirsAbove(v, p, n - 1, mtime, p[..n]);
      MakeDirsAbove(v, p, n - 1, mtime, q);
      MakeDirsAboveNext(v, p, n, mtime, q);
    }
  }

  lemma RootThere(v: View)
    requires Wf(v)
    ensures [] in v
  {
  }

  lemma ListedIn(v: View, d: Path)
    requires Wf(v) && d != []
    ensures d in v <==> Parent(d) in v && Leaf(d) in v[Parent(d)].kids
  {
    assert Child(Parent(d), Leaf(d)) == d;
  }

  lemma AddedNew(H: Hasher, v: View, p: Path, mtime: Time, hash: Bytes)
    requires Wf(v) && Addable(v, p) && p !in v
    ensures var u := MakeDirs(v, p, |p| - 1, mtime);
      && Room(u, p) && Wf(Insert(u, p, NewNode(File, hash, mtime))) && p in Insert(u, p, NewNode(File, hash, mtime))
      && AddView(H, v, p, mtime, hash) == Refresh(H, Insert(u, p, NewNode(File, hash, mtime)), p)
  {
    hide Wf, MakeDirs, Refresh, Insert;
    var u := MakeDirs(v, p, |p| - 1, mtime);
    assert Parent(p) == p[..|p| - 1];
    AddableRoom(u, p);
    InsertFacts(u, p, NewNode(File, hash, mtime));
  }

  lemma KnownOnWay(v: View, p: Path, q: Path)
    requires Wf(v) && p in v && q < p
    ensures q in v && p[|q|] in v[q].kids
  {
    BelowKid(v, q, p);
  }

  /** Above an added file every directory lists the next name on the way, as its last child where it is new;
      the directories created for it carry its time. */
  lemma AddAbove(H: Hasher, v: View, p: Path, mtime: Time, hash: Bytes, q: Path)
    requires Wf(v) && Addable(v, p) && (p in v ==> v[p].kind.File?) && q < p
    ensures var w := AddView(H, v, p, mtime, hash);
      && q in w && w[q].kids == With(Known(v, q), p[|q|])
      && (q !in v ==> w[q] == Node(Directory, w[q].hash, false, UNSET, mtime, [p[|q|]]))
  {
    hide Wf, MakeDirs, Refresh, Room, Walked;
    var d := Parent(p);
    assert d == p[..|p| - 1];
    PrefixOfParent(q, p);
    MakeDirsAbove(v, p, |p| - 1, mtime, q);
    ListedIn(v, p);
    if p in v {
      MakeDirsNoop(v, p, |p| - 1, mtime);
      ReplaceWf(v, p, Revived(v[p], mtime, hash));
      RefreshFrame(H, v[p := Revived(v[p], mtime, hash)], p);
      KnownOnWay(v, p, q);
    } else {
      var u, n := MakeDirs(v, p, |p| - 1, mtime), NewNode(File, hash, mtime);
      AddedNew(H, v, p, mtime, hash);
      InsertFacts(u, p, n);
      InsertAt(u, p, n, q);
      RefreshFrame(H, Insert(u, p, n), p);
      assert q != d ==> |q| < |p| - 1;
    }
  }

  lemma LeafElsewhere(H: Hasher, u: View, p: Path, mtime: Time, hash: Bytes, q: Path)
    requires Wf(u) && Addable(u, p) && p !in u && Parent(p) in u && q != p
    ensures var w := LeafStep(H, u, p, mtime, hash);
      && (q in w <==> q in u)
      && (q in u ==> w[q] == u[q].(hash := w[q].hash, kids := w[q].kids))
      && (q in u && !(q < p) ==> w[q] == u[q])
  {
    var n := NewNode(File, hash, mtime);
    assert Parent(p) < p;
    InsertFacts(u, p, n);
    var i := Insert(u, p, n);
    RefreshFrame(H, i, p);
    if q in u {
      assert i[q] == u[q].(kids := i[q].kids);
    }
  }
}
