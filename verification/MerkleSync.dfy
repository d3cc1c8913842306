/** The handlers of the tree negotiation over real trees, proved against the protocol steps. */
module MerkleSync {
  import opened Common
  import opened Paths
  import opened TreeView
  import opened MerkleTrees
  import opened SyncCommon
  import opened HashDiff
  import opened Negotiation
  import opened NegotiationRun
  import opened TreePlan

  /** A message on the wire: the root hash in phase 0, directories with their entries in phase 1,
      nothing in phase 2. */
  datatype Protocol = Protocol(phase: nat, depth: nat, rootHash: Bytes, entries: seq<(Path, seq<Entry>)>)

  /** The message stands for the abstract one. */
  ghost predicate Encodes(m: Protocol, w: Wire)
    requires w.Listing? ==> Wf(w.seen)
  {
    match w
    case Hello(rootHash) => m.phase == 0 && m.rootHash == rootHash
    case Request(depth, dirs) => m.phase == 1 && m.depth == depth && Dirs(m.entries) == dirs
    case Listing(depth, dirs, seen) =>
      m.phase == 1 && m.depth == depth && dirs != [] && Dirs(m.entries) == dirs
      && forall i :: 0 <= i < |dirs| ==> m.entries[i].1 == Entries(seen, dirs[i])
    case Agreed => m.phase == 2
    case Idle => true
  }

  function Dirs(entries: seq<(Path, seq<Entry>)>): seq<Path> {
    seq(|entries|, i requires 0 <= i < |entries| => entries[i].0)
  }

  /** Looking a path up in a tree is looking it up in the tree's value. */
  method FindNode(tree: MerkleTree, path: Path) returns (node: FileNode?)
    requires tree.Valid()
    ensures node == null <==> path !in tree.View()
    ensures node != null ==> tree.View()[path] == node.Abs()
  {
    node := tree.Find(path);
  }

  class MerkleSyncServer {
    constructor () {
    }

    /** The entry of every listed child, in the order of the listing. */
    method ToEntries(tree: MerkleTree, dir: Path, pathHashes: seq<(Path, Bytes)>) returns (entries: seq<Entry>)
      requires tree.Valid() && pathHashes == ChildHashes(tree.View(), dir)
      ensures entries == Entries(tree.View(), dir)
    {
      ghost var v := tree.View();
      entries := [];
      for i := 0 to |pathHashes|
        invariant entries == Entries(v, dir)[..i]
      {
        var (path, hash) := pathHashes[i];
        assert dir in v && path == Child(dir, v[dir].kids[i]) && path in v && hash == v[path].hash;
        var found := FindNode(tree, path);
        if found == null {
          continue;
        }
        entries := entries + [Entry.Entry(path, hash, found.mtime, found.kind, found.isDeleted, found.deletedAt)];
      }
    }

    /** The listings of the directories asked for; each of them is found and is a directory. */
    method ListDirectories(tree: MerkleTree, asked: seq<(Path, seq<Entry>)>) returns (entries: seq<(Path, seq<Entry>)>)
      requires tree.Valid() && forall d :: d in Dirs(asked) ==> d in tree.View() && tree.View()[d].kind.Directory?
      ensures Dirs(entries) == Dirs(asked)
      ensures forall i :: 0 <= i < |entries| ==> entries[i].1 == Entries(tree.View(), entries[i].0)
    {
      hide Wf, Entries, ChildHashes, MerkleTree.Shaped, MerkleTree.View;
      ghost var v := tree.View();
      entries := [];
      for i := 0 to |asked|
        invariant |entries| == i && Dirs(entries) == Dirs(asked)[..i]
        invariant forall j :: 0 <= j < i ==> entries[j].1 == Entries(v, entries[j].0)
      {
        var parentPath := asked[i].0;
        assert Dirs(asked)[i] == parentPath && parentPath in Dirs(asked);
        var found := FindNode(tree, parentPath);
        assert found != null && found.kind == Directory;
        var hashes := tree.GetChildHashes(parentPath);
        var es := ToEntries(tree, parentPath, hashes);
        assert Dirs(entries + [(parentPath, es)]) == Dirs(entries) + [parentPath];
        entries := entries + [(parentPath, es)];
      }
    }

    method OnMessage(msg: Protocol, tree: MerkleTree, ghost n: Net) returns (response: Protocol)
      requires tree.Valid() && n.server == tree.View() && (n.wire.Hello? || n.wire.Request?)
      requires Encodes(msg, n.wire) && AssertionsHold(n)
      ensures Encodes(response, ServerReceives(n).wire)
    {
      hide Wf, Entries, ChildHashes;
      if msg.phase == 0 {
        assert tree.View()[[]] == tree.root.Abs();
        if tree.root.hash == msg.rootHash {
          return Protocol(2, 0, [], []);
        }
        var hashes := tree.GetChildHashes([]);
        var es := ToEntries(tree, [], hashes);
        response := Protocol(1, 1, [], [([], es)]);
        return;
      }
      var entries := ListDirectories(tree, msg.entries);
      response := Protocol(if entries == [] then 2 else 1, msg.depth, [], entries);
      forall i | 0 <= i < |entries| ensures entries[i].0 == Dirs(entries)[i] {
      }
    }
  }

  class MerkleSyncClient {
    var negotiationState: Plan
    var inProgress: bool

    constructor ()
      ensures negotiationState == NO_PLAN && !inProgress
    {
      negotiationState, inProgress := NO_PLAN, false;
    }

    method StartNegotiation(tree: MerkleTree) returns (msg: Protocol)
      requires tree.Valid()
      modifies this
      ensures negotiationState == NO_PLAN && inProgress && Encodes(msg, Hello(tree.View()[[]].hash))
    {
      assert tree.View()[[]] == tree.root.Abs();
      negotiationState, inProgress := NO_PLAN, true;
      msg := Protocol(0, 0, tree.root.hash, []);
    }

    static method ClientState(tree: MerkleTree, path: Path) returns (s: SideState)
      requires tree.Valid()
      ensures s == NodeState(tree.View(), path)
    {
      var node := FindNode(tree, path);
      if node == null {
        return ABSENT;
      }
      if node.isDeleted {
        return Tombstone(node.deletedAt);
      }
      return Live(node.mtime, node.kind.Directory?, []);
    }

    static method ServerState(serverByPath: map<Path, Entry>, path: Path) returns (s: SideState)
      ensures s == if path in serverByPath then StateOfEntry(serverByPath[path]) else ABSENT
    {
      if path !in serverByPath {
        return ABSENT;
      }
      var e := serverByPath[path];
      if e.isTombstone {
        return Tombstone(e.deletedAt);
      }
      return Live(e.mtime, e.filetype.Directory?, []);
    }

    /** The last entry of every listed path, and the listing's hashes. */
    static method ReadListing(es: seq<Entry>) returns (serverByPath: map<Path, Entry>, serverHashes: seq<PathHash>)
      ensures serverHashes == Hashes(es)
      ensures forall p :: EntryState(es, p) == if p in serverByPath then StateOfEntry(serverByPath[p]) else ABSENT
    {
      serverByPath, serverHashes := map[], [];
      for i := 0 to |es|
        invariant serverHashes == Hashes(es[..i])
        invariant forall p ::
          EntryState(es[..i], p) == if p in serverByPath then StateOfEntry(serverByPath[p]) else ABSENT
      {
        assert es[..i + 1][..i] == es[..i];
        serverHashes := serverHashes + [(es[i].path, es[i].hash)];
        serverByPath := serverByPath[es[i].path := es[i]];
      }
      assert es[..|es|] == es;
    }

    method ClassifyAndAppend(tree: MerkleTree, paths: seq<Path>, es: seq<Entry>, serverByPath: map<Path, Entry>)
      requires tree.Valid()
      requires forall p :: EntryState(es, p) == if p in serverByPath then StateOfEntry(serverByPath[p]) else ABSENT
      modifies this`negotiationState
      ensures negotiationState == Collect(ListingVerdict(tree.View(), es), paths, old(negotiationState))
    {
      hide Append, Classified, Wf, EntryState, NodeState, MerkleTree.Shaped, MerkleTree.View;
      for i := 0 to |paths|
        invariant negotiationState == Collect(ListingVerdict(tree.View(), es), paths[..i], old(negotiationState))
      {
        assert paths[..i + 1][..i] == paths[..i];
        var left := ClientState(tree, paths[i]);
        var right := ServerState(serverByPath, paths[i]);
        negotiationState := Append(negotiationState, Classified(paths[i], left, right));
      }
      assert paths[..|paths|] == paths;
    }

    method ProcessDirectory(tree: MerkleTree, dir: Path, es: seq<Entry>)
      requires tree.Valid() && dir in tree.View()
      modifies this`negotiationState
      ensures negotiationState == ProcessDir(tree.View(), dir, es, old(negotiationState))
    {
      hide Append, Classified, Wf, Collect, ChildHashes, EntryState, Diff, MerkleTree.Shaped, MerkleTree.View;
      var parent := FindNode(tree, dir);
      assert parent != null;
      var clientHashes := tree.GetChildHashes(dir);
      var serverByPath, serverHashes := ReadListing(es);
      var diff := SymmetricHashDiff(clientHashes, serverHashes);
      ghost var verdict := ListingVerdict(tree.View(), es);
      ClassifyAndAppend(tree, diff.onlyInLeft, es, serverByPath);
      ClassifyAndAppend(tree, diff.onlyInRight, es, serverByPath);
      ClassifyAndAppend(tree, diff.modified, es, serverByPath);
      CollectThree(verdict, diff, old(negotiationState));
    }

    /** One reply, directory by directory; then either the next request or the finished plan. */
    method OnMessage(msg: Protocol, tree: MerkleTree, ghost n: Net) returns (next: Option<Protocol>)
      requires tree.Valid() && n.client == tree.View() && n.plan == negotiationState
      requires (n.wire.Listing? && Wf(n.wire.seen)) || n.wire.Agreed?
      requires Encodes(msg, n.wire) && AssertionsHold(n) && n.plan.directoriesToCheck == []
      modifies this
      ensures var m := ClientReceives(n);
        && negotiationState == m.plan && (next.None? <==> m.wire == Idle) && (next.None? ==> !inProgress)
        && (next.Some? ==> m.wire.Request? && Encodes(next.value, m.wire))
    {
      hide ProcessDir, Wf, Entries, MerkleTree.Shaped, MerkleTree.View;
      if msg.phase == 2 {
        inProgress := false;
        return None;
      }
      ghost var dirs := Dirs(msg.entries);
      for i := 0 to |msg.entries|
        invariant negotiationState == Round(n.client, n.wire.seen, dirs[..i], n.plan)
        invariant inProgress == old(inProgress)
      {
        assert dirs[i] == msg.entries[i].0 && dirs[i] in dirs;
        assert dirs[..i + 1][..i] == dirs[..i];
        ProcessDirectory(tree, msg.entries[i].0, msg.entries[i].1);
      }
      assert dirs[..|dirs|] == dirs;
      if negotiationState.directoriesToCheck != [] {
        var asked := negotiationState.directoriesToCheck;
        var request := seq(|asked|, i requires 0 <= i < |asked| => (asked[i], []));
        assert Dirs(request) == asked;
        negotiationState := negotiationState.(directoriesToCheck := []);
        return Some(Protocol(1, msg.depth + 1, [], request));
      }
      inProgress := false;
      return None;
    }
  }

  lemma CollectThree(verdict: Path -> Finding, d: TreeDiff, plan: Plan)
    ensures Collect(verdict, d.modified, Collect(verdict, d.onlyInRight, Collect(verdict, d.onlyInLeft, plan))) ==
      Collect(verdict, AllPaths(d), plan)
  {
    CollectAppend(verdict, d.onlyInLeft, d.onlyInRight, plan);
    CollectAppend(verdict, d.onlyInLeft + d.onlyInRight, d.modified, plan);
  }

  // ----- both handlers together -----

  lemma Delivered(n: Net)
    requires NegotiationRun.Inv(n) && !n.wire.Idle?
    ensures Deliver(n).client == n.client && Deliver(n).server == n.server && NegotiationRun.Inv(Deliver(n))
    ensures AssertionsHold(n) && Wf(n.client) && Wf(n.server)
    ensures n.wire.Hello? || n.wire.Request? ==>
      Deliver(n) == ServerReceives(n)
        && ((Deliver(n).wire.Listing? && Wf(Deliver(n).wire.seen)) || Deliver(n).wire.Agreed?)
    ensures n.wire.Listing? || n.wire.Agreed? ==>
      (n.wire.Listing? ==> Wf(n.wire.seen)) && Deliver(n) == ClientReceives(n) && n.plan.directoriesToCheck == []
  {
    hide Round, Mentions;
  }

  lemma LastPlan(n: Net, vc: View, vs: View, left: nat)
    requires NegotiationRun.Inv(n) && Wf(vc) && Wf(vs) && After(n, left) == Net(vc, vs, Idle, MerklePlan(vc, vs))
    ensures n.wire == Idle ==> n.plan == MerklePlan(vc, vs)
    ensures n.wire != Idle ==> left > 0 && After(Deliver(n), left - 1) == Net(vc, vs, Idle, MerklePlan(vc, vs))
  {
    hide NegotiationRun.Inv, Deliver, MerklePlan;
    if n.wire.Idle? {
      AfterIdle(n, left);
    } else if left > 0 {
      AfterNext(n, left - 1);
    }
  }

  lemma BeginFacts(vc: View, vs: View)
    requires Wf(vc)
    ensures var n := Begin(vc, vs);
      n.client == vc && n.server == vs && n.wire == Hello(vc[[]].hash) && n.plan == NO_PLAN
  {
  }

  /** The exchange of the two handlers over two real trees ends, and the client then holds the plan. */
  method Negotiate(client: MerkleSyncClient, server: MerkleSyncServer, clientTree: MerkleTree, serverTree: MerkleTree)
    requires clientTree.Valid() && serverTree.Valid()
    modifies client
    ensures !client.inProgress && client.negotiationState == MerklePlan(clientTree.View(), serverTree.View())
  {
    hide Wf, MerkleTree.Shaped, MerkleTree.View, Encodes, NegotiationRun.Inv, Deliver, After, ServerReceives;
    hide ClientReceives, MerklePlan, AssertionsHold, Begin;
    ghost var vc, vs := clientTree.View(), serverTree.View();
    ghost var h := HeightExists(vc);
    ghost var n := Begin(vc, vs);
    ghost var left := 2 * h + 2;
    NegotiationCompletes(vc, vs, h);
    BeginFacts(vc, vs);
    var msg := client.StartNegotiation(clientTree);
    while true
      invariant NegotiationRun.Inv(n) && (n.wire.Hello? || n.wire.Request?) && n.client == vc && n.server == vs
      invariant Encodes(msg, n.wire) && n.plan == client.negotiationState
      invariant After(n, left) == Net(vc, vs, Idle, MerklePlan(vc, vs))
      decreases left
    {
      Delivered(n);
      LastPlan(n, vc, vs, left);
      var response := server.OnMessage(msg, serverTree, n);
      ghost var m := Deliver(n);
      Delivered(m);
      LastPlan(m, vc, vs, left - 1);
      assert m.plan == n.plan by { ServerKeepsPlan(n); }
      var next := client.OnMessage(response, clientTree, m);
      n, left := Deliver(m), left - 2;
      LastPlan(n, vc, vs, left);
      if next.None? {
        return;
      }
      msg := next.value;
    }
  }

  lemma ServerKeepsPlan(n: Net)
    requires (n.wire.Hello? || n.wire.Request?) && Wf(n.server) && AssertionsHold(n)
    ensures ServerReceives(n).plan == n.plan
  {
  }
}
