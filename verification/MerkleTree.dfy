/** The mutable tree: nodes with parent pointers whose hashes are repaired in place.
    Every method's effect is stated on the value the tree stands for. */
module MerkleTrees {
  import opened Common
  import opened Paths
  import opened TreeView

  class FileNode {
    var kind: FileType
    var path: Name
    var hash: Bytes
    var isDeleted: bool
    var deletedAt: Time
    var mtime: Time
    var parent: FileNode?
    var children: seq<FileNode>
    ghost var kids: seq<Name>  // the children's names
    ghost var loc: Path        // where the node lies

    constructor (path: Name, kind: FileType, hash: Bytes, mtime: Time, parent: FileNode?, ghost loc: Path)
      ensures this.path == path && this.parent == parent && children == [] && this.loc == loc
      ensures Abs() == NewNode(kind, hash, mtime)
    {
      this.loc := loc;
      this.path, this.kind, this.hash, this.mtime, this.parent := path, kind, hash, mtime, parent;
      isDeleted, deletedAt, children, kids := false, UNSET, [], [];
    }

    ghost function Abs(): Node
      reads this
    {
      Node(kind, hash, isDeleted, deletedAt, mtime, kids)
    }
  }

  class MerkleTree {
    const H: Hasher
    var root: FileNode
    ghost var nodes: map<Path, FileNode>  // what lies where
    ghost var repr: set<FileNode>         // the tree's own objects

    /** Parent and child pointers agree with the paths the nodes lie at. */
    ghost predicate Shaped()
      reads this, nodes.Values
    {
      && [] in nodes && nodes[[]] == root && root.parent == null
      && (forall p :: p in nodes ==> nodes[p].loc == p && nodes[p] in repr)
      && (forall p {:trigger Parent(p)} :: p in nodes && p != [] ==>
            Parent(p) in nodes && nodes[p].parent == nodes[Parent(p)])
      && (forall p {:trigger nodes[p].path} :: p in nodes && p != [] ==> nodes[p].path == Leaf(p))
      && (forall p :: p in nodes ==> |nodes[p].children| == |nodes[p].kids|)
      && (forall p, i :: p in nodes && 0 <= i < |nodes[p].children| ==>
            Child(p, nodes[p].kids[i]) in nodes && nodes[p].children[i] == nodes[Child(p, nodes[p].kids[i])])
    }

    ghost predicate Has(n: FileNode)
      reads this, n
    {
      n.loc in nodes && nodes[n.loc] == n
    }

    ghost function View(): View
      reads this, nodes.Values
    {
      map p | p in nodes :: nodes[p].Abs()
    }

    ghost predicate Valid()
      reads this, nodes.Values
    {
      Shaped() && Wf(View())
    }

    lemma NodesOwned()
      requires Valid()
      ensures nodes.Values <= repr
    {
    }

    constructor (H: Hasher)
      ensures Valid() && fresh(repr) && this.H == H
      ensures View() == Empty(H)
    {
      this.H := H;
      var n := new FileNode("", Directory, H.Children([]), UNSET, null, []);
      root := n;
      nodes, repr := map[[] := n], {n};
      new;
      assert View() == Empty(H);
      EmptyWf(H);
    }

    lemma NodeAbs(node: FileNode)
      requires Valid() && Has(node)
      ensures node.loc in View() && View()[node.loc] == node.Abs() && |node.kids| == |node.children| && node in repr
    {
    }

    method FindChild(node: FileNode, name: Name) returns (found: FileNode?)
      requires Valid() && Has(node)
      ensures found == null ==> Child(node.loc, name) !in nodes
      ensures found != null ==> Has(found) && found.loc == Child(node.loc, name)
    {
      ghost var p := node.loc;
      for i := 0 to |node.children|
        invariant forall j :: 0 <= j < i ==> node.kids[j] != name
      {
        ChildFacts(p, node.kids[i]);
        if node.children[i].path == name {
          return node.children[i];
        }
      }
      ChildFacts(p, name);
      assert Child(p, name) in nodes ==> Child(p, name) in View();
      return null;
    }

    method HashChildren(node: FileNode) returns (h: Bytes)
      requires Valid() && Has(node)
      ensures h == H.Children(KidHashes(View(), node.loc)) == H.digest(Concat(KidHashes(View(), node.loc)))
      ensures |KidHashes(View(), node.loc)| == |node.children|
      ensures forall i :: 0 <= i < |node.children| ==> KidHashes(View(), node.loc)[i] == node.children[i].hash
    {
      ghost var p := node.loc;
      var data := [];
      ghost var hashes := KidHashes(View(), p);
      for i := 0 to |node.children|
        invariant data == Concat(hashes[..i])
        invariant forall j :: 0 <= j < i ==> hashes[j] == node.children[j].hash
      {
        assert nodes[Child(p, node.kids[i])] == node.children[i];
        assert hashes[..i + 1] == hashes[..i] + [hashes[i]];
        ConcatSnoc(hashes[..i], hashes[i]);
        data := data + node.children[i].hash;
      }
      assert hashes[..|hashes|] == hashes;
      h := H.digest(data);
    }

    /** Writing one node's data leaves the pointers in shape and changes one entry of the view. */
    twostate lemma OneChanged(node: FileNode)
      requires old(Shaped()) && old(Has(node)) && unchanged(this) && unchanged(repr - {node})
      requires node.loc == old(node.loc) && node.path == old(node.path) && node.parent == old(node.parent)
      requires node.children == old(node.children) && node.kids == old(node.kids)
      ensures Shaped() && View() == old(View())[node.loc := node.Abs()]
    {
    }

    /** The check made after building: one level, at the root. */
    method VerifyHashes() returns (ok: bool)
      requires Valid()
      ensures ok <==> View()[[]].hash == H.Children(KidHashes(View(), []))
    {
      var expected := HashChildren(root);
      assert View()[[]] == root.Abs();
      ok := root.hash == expected;
    }

    method StoreHash(node: FileNode, h: Bytes)
      requires Valid() && Has(node)
      modifies node`hash
      ensures Valid() && nodes == old(nodes) && repr == old(repr) && View() == SetHash(old(View()), node.loc, h)
    {
      node.hash := h;
      OneChanged(node);
      SameButHashWf(old(View()), View());
    }

    method RecomputeDirHash(node: FileNode)
      requires Valid() && Has(node) && node.kind.Directory?
      modifies node`hash
      ensures Valid() && nodes == old(nodes) && repr == old(repr)
      ensures View() == SetHash(old(View()), node.loc, H.Children(KidHashes(old(View()), node.loc)))
    {
      hide Wf, Shaped, KidHashes, SetHash;
      var h := HashChildren(node);
      StoreHash(node, h);
    }

    method PropagateHashUpward(node: FileNode)
      requires Valid() && Has(node)
      modifies repr`hash
      ensures Valid() && nodes == old(nodes) && repr == old(repr) && View() == Refresh(H, old(View()), node.loc)
    {
      var current: FileNode := node;
      ghost var goal := Refresh(H, View(), node.loc);
      while current.parent != null
        invariant Valid() && nodes == old(nodes) && repr == old(repr) && Has(current)
        invariant Refresh(H, View(), current.loc) == goal
        decreases |current.loc|
      {
        ghost var v, q := View(), current.loc;
        ParentIsDirectory(current);
        RecomputeDirHash(current.parent);
        assert goal == Refresh(H, View(), Parent(q));
        current := current.parent;
      }
      OnlyRootIsOrphan(current);
    }

    lemma OnlyRootIsOrphan(n: FileNode)
      requires Valid() && Has(n)
      ensures n.parent == null <==> n.loc == []
    {
      if n.loc != [] {
        assert nodes[n.loc].parent == nodes[Parent(n.loc)];
      }
    }

    lemma ParentIsDirectory(n: FileNode)
      requires Valid() && Has(n) && n.parent != null
      ensures n.loc != [] && Has(n.parent) && n.parent.loc == Parent(n.loc) && n.parent.kind.Directory?
    {
      var p := n.loc;
      assert Parent(p) in nodes;
      PrefixIn(View(), Parent(p), p);
      assert View()[Parent(p)] == nodes[Parent(p)].Abs();
    }

    /** The node at a path, tombstoned or not. */
    method Find(parts: Path) returns (node: FileNode?)
      requires Valid()
      ensures node == null <==> parts !in nodes
      ensures node != null ==> Has(node) && node.loc == parts && node == nodes[parts]
    {
      var current: FileNode := root;
      assert parts[..0] == [];
      for i := 0 to |parts|
        invariant Has(current) && current.loc == parts[..i]
      {
        assert Child(parts[..i], parts[i]) == parts[..i + 1];
        var next := FindChild(current, parts[i]);
        if next == null {
          if parts in nodes {
            PrefixIn(View(), parts[..i + 1], parts);
          }
          return null;
        }
        current := next;
      }
      assert parts[..|parts|] == parts;
      node := current;
    }

    lemma NotListed(parts: Path)
      requires Valid() && parts !in nodes
      ensures ChildHashes(View(), parts) == []
    {
    }

    lemma ListedCount(node: FileNode)
      requires Valid() && Has(node)
      ensures |ChildHashes(View(), node.loc)| == |node.children|
    {
    }

    lemma ListedAt(node: FileNode, i: nat)
      requires Valid() && Has(node) && i < |node.children|
      ensures |ChildHashes(View(), node.loc)| == |node.children|
      ensures ChildHashes(View(), node.loc)[i] == (Child(node.loc, node.children[i].path), node.children[i].hash)
    {
      assert nodes[Child(node.loc, node.kids[i])] == node.children[i];
      ChildFacts(node.loc, node.kids[i]);
    }

    /** Paths and stored hashes of the children, in insertion order. */
    method GetChildHashes(parts: Path) returns (r: seq<(Path, Bytes)>)
      requires Valid()
      ensures r == ChildHashes(View(), parts)
      ensures parts !in nodes ==> r == []
      ensures parts in nodes ==> |r| == |nodes[parts].children| && forall i :: 0 <= i < |r| ==>
        r[i] == (Child(parts, nodes[parts].children[i].path), nodes[parts].children[i].hash)
    {
      hide Wf, Shaped, View;
      var node := Find(parts);
      if node == null {
        NotListed(parts);
        return [];
      }
      r := [];
      ListedCount(node);
      for i := 0 to |node.children|
        invariant i <= |ChildHashes(View(), parts)| == |node.children| && r == ChildHashes(View(), parts)[..i]
        invariant forall j :: 0 <= j < i ==> r[j] == (Child(parts, node.children[j].path), node.children[j].hash)
      {
        ListedAt(node, i);
        r := r + [(Child(parts, node.children[i].path), node.children[i].hash)];
      }
    }

    /** A prepared node takes its place in the tree; its parent does not list it yet. */
    ghost method PlaceChild(n: FileNode)
      requires Shaped() && n !in repr && n.loc !in nodes && n.loc != [] && n.children == [] && n.kids == []
      requires Parent(n.loc) in nodes && n.parent == nodes[Parent(n.loc)] && n.path == Leaf(n.loc)
      modifies this`nodes, this`repr
      ensures Shaped() && nodes == old(nodes)[n.loc := n] && repr == old(repr) + {n}
    {
      nodes, repr := nodes[n.loc := n], repr + {n};
    }

    /** Hang a prepared node below its parent, last. */
    method LinkChild(current: FileNode, n: FileNode)
      requires Shaped() && Has(current) && n.parent == current && n.children == [] && n.kids == []
      requires n !in repr && n.loc !in nodes && n.loc == Child(current.loc, n.path)
      modifies this`nodes, this`repr, current`children, current`kids
      ensures Shaped() && nodes == old(nodes)[n.loc := n] && repr == old(repr) + {n}
      ensures current.Abs() == old(current.Abs()).(kids := old(current.kids) + [n.path])
    {
      ChildFacts(current.loc, n.path);
      PlaceChild(n);
      current.children := current.children + [n];
      current.kids := current.kids + [n.path];
    }

    method LinkChildView(current: FileNode, n: FileNode)
      requires Shaped() && Has(current) && n.parent == current && n.children == [] && n.kids == []
      requires n !in repr && n.loc !in nodes && n.loc == Child(current.loc, n.path)
      modifies this`nodes, this`repr, current`children, current`kids
      ensures Shaped() && nodes == old(nodes)[n.loc := n] && repr == old(repr) + {n}
      ensures View() ==
        old(View())[current.loc := old(current.Abs()).(kids := old(current.kids) + [n.path])][n.loc := old(n.Abs())]
    {
      LinkChild(current, n);
    }

    /** A new last child. */
    method Attach(current: FileNode, name: Name, kind: FileType, hash: Bytes, mtime: Time) returns (n: FileNode)
      requires Valid() && Has(current) && Room(View(), Child(current.loc, name))
      modifies this`nodes, this`repr, current`children, current`kids
      ensures Valid() && fresh(n) && Has(n) && n.loc == Child(old(current.loc), name)
      ensures nodes == old(nodes)[n.loc := n] && repr == old(repr) + {n}
      ensures View() == Insert(old(View()), n.loc, NewNode(kind, hash, mtime))
    {
      ghost var p := Child(current.loc, name);
      ghost var v := View();
      ChildFacts(current.loc, name);
      n := new FileNode(name, kind, hash, mtime, current, p);
      assert View() == v;
      LinkChildView(current, n);
      InsertFacts(v, p, NewNode(kind, hash, mtime));
    }

    lemma RootStays(node: FileNode)
      requires Valid() && Has(node)
      ensures node.loc == [] ==> !node.isDeleted
    {
      assert node.loc == [] ==> View()[[]] == node.Abs();
    }

    /** An existing node takes the new version; a tombstone comes back as a file. */
    method Overwrite(node: FileNode, mtime: Time, hash: Bytes)
      requires Valid() && Has(node) && (node.isDeleted ==> node.kind.File?)
      modifies node
      ensures Valid() && nodes == old(nodes) && repr == old(repr)
      ensures View() == old(View())[node.loc := old(if node.kind.File? then Revived(node.Abs(), mtime, hash)
                                                   else node.Abs().(mtime := mtime))]
      ensures node.kind == old(node.kind) && node.loc == old(node.loc)
    {
      hide Shaped, Wf;
      NodeAbs(node);
      RootStays(node);
      node.mtime := mtime;
      if node.isDeleted {
        node.isDeleted, node.deletedAt, node.kind := false, UNSET, File;
      }
      if node.kind.File? {
        node.hash := hash;
      }
      OneChanged(node);
      ReplaceWf(old(View()), node.loc, node.Abs());
    }

    method EnsureDir(current: FileNode, name: Name, mtime: Time) returns (next: FileNode)
      requires Valid() && Has(current)
      requires Child(current.loc, name) in View() || Room(View(), Child(current.loc, name))
      modifies this`nodes, this`repr, repr
      ensures Valid() && Has(next) && next.loc == Child(old(current.loc), name)
      ensures fresh(repr - old(repr))
      ensures View() == DirStep(old(View()), next.loc, mtime)
    {
      hide Wf, Shaped;
      NodeAbs(current);
      var found := FindChild(current, name);
      if found != null {
        return found;
      }
      next := Attach(current, name, Directory, [], mtime);
    }

    method PutNew(current: FileNode, name: Name, mtime: Time, hash: Bytes)
      requires Valid() && Has(current) && Room(View(), Child(current.loc, name))
      requires Addable(View(), Child(current.loc, name))
      modifies this`nodes, this`repr, repr
      ensures Valid() && fresh(repr - old(repr))
      ensures View() == LeafStep(H, old(View()), old(Child(current.loc, name)), mtime, hash)
    {
      hide Shaped, Wf, Refresh, Insert;
      NodeAbs(current);
      var n := Attach(current, name, File, hash, mtime);
      PropagateHashUpward(n);
    }

    method PutOld(found: FileNode, mtime: Time, hash: Bytes, ghost p: Path)
      requires Valid() && Has(found) && found.loc == p && Addable(View(), p) && Parent(p) in View()
      modifies repr
      ensures Valid() && repr == old(repr)
      ensures View() == LeafStep(H, old(View()), p, mtime, hash)
    {
      ghost var v := View();
      assert v[p] == found.Abs();
      Overwrite(found, mtime, hash);
      if found.kind.File? {
        PropagateHashUpward(found);
      }
    }

    method PutLeaf(current: FileNode, name: Name, mtime: Time, hash: Bytes)
      requires Valid() && Has(current) && Addable(View(), Child(current.loc, name)) && current.loc in View()
      modifies this`nodes, this`repr, repr
      ensures Valid() && fresh(repr - old(repr))
      ensures View() == LeafStep(H, old(View()), old(Child(current.loc, name)), mtime, hash)
    {
      hide LeafStep, Wf;
      ghost var p := Child(current.loc, name);
      ChildFacts(current.loc, name);
      var found := FindChild(current, name);
      if found == null {
        AddableRoom(View(), p);
        PutNew(current, name, mtime, hash);
      } else {
        PutOld(found, mtime, hash, p);
      }
    }

    /** The directory the last name of the path belongs in, with what was missing created. */
    method WalkToParent(parts: Path, mtime: Time) returns (current: FileNode)
      requires Valid() && Addable(View(), parts)
      modifies this`nodes, this`repr, repr
      ensures Valid() && fresh(repr - old(repr)) && Has(current) && current.loc == Parent(parts)
      ensures View() == MakeDirs(old(View()), parts, |parts| - 1, mtime)
    {
      hide Wf, DirStep, MakeDirs, Addable, Walked, Room, View;
      ghost var v := View();
      current := root;
      MakeNoDirs(v, parts, mtime);
      assert parts[..0] == [];
      for i := 0 to |parts| - 1
        invariant Valid() && Has(current) && current.loc == parts[..i] && fresh(repr - old(repr))
        invariant View() == MakeDirs(v, parts, i, mtime)
      {
        assert Child(parts[..i], parts[i]) == parts[..i + 1];
        MakeDirsNext(v, parts, i, mtime);
        current := EnsureDir(current, parts[i], mtime);
      }
    }

    /** Add or update the file at a path, creating missing directories on the way, and repair
        the hashes above it. */
    method AddFile(parts: Path, mtime: Time, hash: Bytes) returns (ok: bool)
      requires Valid() && Addable(View(), parts)
      modifies this`nodes, this`repr, repr
      ensures ok && Valid() && fresh(repr - old(repr))
      ensures View() == AddView(H, old(View()), parts, mtime, hash)
    {
      hide Wf, DirStep, LeafStep, Shaped, MakeDirs, View;
      var current := WalkToParent(parts, mtime);
      PutLeaf(current, Leaf(parts), mtime, hash);
      return true;
    }

    // ----- deletion -----

    ghost function Under(p: Path): set<Path>
      reads this
    {
      set q | q in nodes && p <= q
    }

    lemma UnderShrinks(p: Path, n: Name)
      requires p in nodes
      ensures Under(Child(p, n)) < Under(p)
    {
      ChildFacts(p, n);
      assert p in Under(p) && p !in Under(Child(p, n));
    }

    method SetTombstone(node: FileNode, at: Time)
      requires Valid() && Has(node) && node.loc != []
      modifies node`isDeleted, node`deletedAt
      ensures Valid() && nodes == old(nodes) && repr == old(repr)
      ensures View() == old(View())[node.loc := old(node.Abs()).(isDeleted := true, deletedAt := at)]
    {
      node.isDeleted, node.deletedAt := true, at;
      OneChanged(node);
      ReplaceWf(old(View()), node.loc, node.Abs());
    }

    /** The whole subtree becomes tombstones. */
    method MarkTombstoneRecursively(node: FileNode, at: Time)
      requires Valid() && Has(node) && node.loc != []
      modifies repr`isDeleted, repr`deletedAt
      ensures Valid() && nodes == old(nodes) && repr == old(repr) && View() == Mark(old(View()), node.loc, at)
      decreases Under(node.loc)
    {
      hide Wf;
      ghost var v, p := View(), node.loc;
      SetTombstone(node, at);
      MarkNone(v, p, at);
      for i := 0 to |node.children|
        invariant Valid() && nodes == old(nodes) && repr == old(repr) && View() == MarkSome(v, p, at, i)
      {
        ghost var c := Child(p, node.kids[i]);
        assert nodes[c] == node.children[i];
        UnderShrinks(p, node.kids[i]);
        ChildFacts(p, node.kids[i]);
        MarkTombstoneRecursively(node.children[i], at);
        MarkOneMore(v, p, at, i);
      }
      MarkAll(v, p, at);
    }

    /** The slash-joined path, read off the parent pointers. */
    method GetRelativePath(node: FileNode) returns (s: string)
      requires Valid() && Has(node)
      ensures s == Join(node.loc)
    {
      var parts: Path := [];
      var current: FileNode := node;
      while current.parent != null
        invariant Has(current) && current.loc + parts == node.loc
        decreases |current.loc|
      {
        ParentIsDirectory(current);
        assert nodes[current.loc].path == Leaf(current.loc);
        assert Parent(current.loc) + [current.path] == current.loc;
        parts := [current.path] + parts;
        current := current.parent;
      }
      OnlyRootIsOrphan(current);
      assert parts == node.loc;
      s := Join(parts);
    }

    lemma ChildAt(node: FileNode, i: nat)
      requires Valid() && Has(node) && i < |node.children|
      ensures |node.kids| == |node.children| && Has(node.children[i])
      ensures node.children[i].loc == Child(node.loc, node.kids[i])
      ensures View()[node.loc] == node.Abs()
      ensures Under(Child(node.loc, node.kids[i])) < Under(node.loc)
    {
      UnderShrinks(node.loc, node.kids[i]);
    }

    method RehashChildren(node: FileNode) returns (nonEmpty: bool)
      requires Valid() && Has(node) && !node.isDeleted
      modifies repr`hash
      ensures Valid() && nodes == old(nodes) && repr == old(repr)
      ensures |node.children| == |old(View())[node.loc].kids|
      ensures View() == RehashSome(H, old(View()), node.loc, |node.children|)
      ensures nonEmpty <==> NonEmptySome(H, old(View()), node.loc, |node.children|)
      decreases Under(node.loc), 0
    {
      hide Wf, Rehashed, RehashSome, KidHashes, Shaped, NonEmptyFrom, NonEmptySome;
      ghost var v, d := View(), node.loc;
      NodeAbs(node);
      RehashNone(H, v, d);
      NonEmptyNone(H, v, d);
      nonEmpty := true;
      for i := 0 to |node.children|
        invariant Valid() && nodes == old(nodes) && repr == old(repr) && View() == RehashSome(H, v, d, i)
        invariant nonEmpty <==> NonEmptySome(H, v, d, i)
      {
        ChildAt(node, i);
        var below := PropagateHashDownward(node.children[i]);
        nonEmpty := nonEmpty && below;
        RehashOneMore(H, v, d, i);
        NonEmptyOneMore(H, v, d, i);
      }
    }

    /** Fresh hashes from a node downward, not below a tombstone; and whether every one of them passes the
        check that it is not empty. */
    method PropagateHashDownward(node: FileNode) returns (nonEmpty: bool)
      requires Valid() && Has(node)
      modifies repr`hash
      ensures Valid() && nodes == old(nodes) && repr == old(repr)
      ensures View() == Rehashed(H, old(View()), node.loc)
      ensures nonEmpty <==> NonEmptyFrom(H, old(View()), node.loc)
      decreases Under(node.loc), 1
    {
      hide Wf, Rehashed, Rehash, RehashSome, KidHashes, SetHash, Shaped, View, NonEmptyFrom, NonEmptySome;
      ghost var v, d := View(), node.loc;
      NodeAbs(node);
      nonEmpty := true;
      if node.isDeleted {
        var path := GetRelativePath(node);
        StoreHash(node, H.digest(H.utf8("tombstone" + path)));
        RehashTombstone(H, v, d);
      } else if node.kind.Directory? {
        nonEmpty := RehashChildren(node);
        var h := HashChildren(node);
        StoreHash(node, h);
        RehashAll(H, v, d);
        NonEmptyAll(H, v, d);
      } else {
        RehashFile(H, v, d);
      }
      if v[d].isDeleted || v[d].kind.File? { NonEmptyLeaf(H, v, d); }
      RehashedHere(H, v, d);
      NodeAbs(node);
      nonEmpty := nonEmpty && node.hash != [];
    }

    lemma ParentKnown(p: Path)
      requires Valid() && p != []
      ensures p in nodes ==> Parent(p) in nodes
    {
    }

    method DeleteNode(parent: FileNode, node: FileNode, at: Time) returns (nonEmpty: bool)
      requires Valid() && Has(parent) && Has(node) && node.loc != [] && parent.loc == Parent(node.loc)
      modifies repr`isDeleted, repr`deletedAt, repr`hash
      ensures Valid() && nodes == old(nodes) && repr == old(repr)
      ensures View() == DeleteView(H, old(View()), node.loc, at)
      ensures nonEmpty <==> NonEmptyFrom(H, Mark(old(View()), node.loc, at), parent.loc)
    {
      hide Wf, Rehashed, Mark, Refresh, NonEmptyFrom, Shaped;
      MarkTombstoneRecursively(node, at);
      nonEmpty := PropagateHashDownward(parent);
      PropagateHashUpward(parent);
    }

    /** Tombstone the node at a path with everything below it, then repair the hashes; a path the tree does
        not know is reported and changes nothing. The second result tells whether the check of the repaired
        hashes passed. */
    method DeleteFile(parts: Path, at: Time) returns (ok: bool, nonEmpty: bool)
      requires Valid() && parts != []
      modifies repr`isDeleted, repr`deletedAt, repr`hash
      ensures Valid() && nodes == old(nodes) && repr == old(repr)
      ensures ok <==> parts in old(View())
      ensures View() == DeleteView(H, old(View()), parts, at)
      ensures nonEmpty <==> !ok || NonEmptyFrom(H, Mark(old(View()), parts, at), Parent(parts))
    {
      hide Wf, DeleteView, Shaped, NonEmptyFrom, Mark;
      ParentKnown(parts);
      DeleteUnknown(H, View(), parts, at);
      var parent := Find(Parent(parts));
      if parent == null {
        return false, true;
      }
      var node := FindChild(parent, Leaf(parts));
      if node == null {
        return false, true;
      }
      nonEmpty := DeleteNode(parent, node, at);
      ok := true;
    }
  }
}
