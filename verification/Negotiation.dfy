/** The tree negotiation: what one round adds to the plan, and the protocol as steps of a
    client, a server and the message between them. */
module Negotiation {
  import opened Common
  import opened Paths
  import opened TreeView
  import opened SyncCommon
  import opened HashDiff

  /** One child in a server listing. */
  datatype Entry = Entry(path: Path, hash: Bytes, mtime: Time, filetype: FileType, isTombstone: bool, deletedAt: Time)

  function EntryOf(p: Path, n: Node): Entry {
    Entry(p, n.hash, n.mtime, n.kind, n.isDeleted, n.deletedAt)
  }

  /** The server's listing of a directory. */
  ghost function Entries(v: View, d: Path): seq<Entry>
    requires Wf(v)
  {
    if d !in v then []
    else
      var kids := v[d].kids;
      seq(|kids|, i requires 0 <= i < |kids| => EntryOf(Child(d, kids[i]), v[Child(d, kids[i])]))
  }

  function Hashes(es: seq<Entry>): seq<PathHash> {
    seq(|es|, i requires 0 <= i < |es| => (es[i].path, es[i].hash))
  }

  function StateOf(n: Node): SideState {
    if n.isDeleted then Tombstone(n.deletedAt) else Live(n.mtime, n.kind.Directory?, [])
  }

  /** A path's state in a tree. */
  function NodeState(v: View, p: Path): (s: SideState)
    ensures Proper(s)
  {
    if p in v then StateOf(v[p]) else ABSENT
  }

  function StateOfEntry(e: Entry): SideState {
    if e.isTombstone then Tombstone(e.deletedAt) else Live(e.mtime, e.filetype.Directory?, [])
  }

  /** A path's state in a listing; a later entry replaces an earlier one. */
  function EntryState(es: seq<Entry>, p: Path): (s: SideState)
    ensures Proper(s)
  {
    if es == [] then ABSENT
    else if es[|es| - 1].path == p then StateOfEntry(es[|es| - 1])
    else EntryState(es[..|es| - 1], p)
  }

  // ----- one round at the client -----

  /** The client's verdicts, the server side read from a listing. */
  function ListingVerdict(vc: View, es: seq<Entry>): Path -> Finding {
    p => Classified(p, NodeState(vc, p), EntryState(es, p))
  }

  ghost function ProcessDir(vc: View, d: Path, es: seq<Entry>, plan: Plan): Plan
    requires Wf(vc)
  {
    Collect(ListingVerdict(vc, es), AllPaths(Diff(ChildHashes(vc, d), Hashes(es))), plan)
  }

  /** A whole reply, directory by directory, listed from the server tree vs. */
  ghost function Round(vc: View, vs: View, dirs: seq<Path>, plan: Plan): Plan
    requires Wf(vc) && Wf(vs)
  {
    if dirs == [] then plan
    else
      var d := dirs[|dirs| - 1];
      ProcessDir(vc, d, Entries(vs, d), Round(vc, vs, dirs[..|dirs| - 1], plan))
  }

  // ----- what a round adds -----

  /** The two trees tell different hashes for p, or only one knows it. */
  ghost predicate Found(vc: View, vs: View, p: Path) {
    (p in vc || p in vs) && !(p in vc && p in vs && vc[p].hash == vs[p].hash)
  }

  ghost function Verdict(vc: View, vs: View, p: Path): Finding {
    Classified(p, NodeState(vc, p), NodeState(vs, p))
  }

  /** p is a differing child of one of the directories, and something is to be done about it. */
  ghost predicate Reported(vc: View, vs: View, dirs: seq<Path>, p: Path) {
    p != [] && Parent(p) in dirs && Found(vc, vs, p) && !Verdict(vc, vs, p).bucket.InSync?
  }

  lemma ChildHashesFacts(v: View, d: Path, p: Path)
    requires Wf(v) && d in v
    ensures DistinctPaths(ChildHashes(v, d))
    ensures Lists(ChildHashes(v, d), p) <==> p != [] && Parent(p) == d && p in v
    ensures Lists(ChildHashes(v, d), p) ==> HashIn(ChildHashes(v, d), p) == v[p].hash
  {
    var l, kids := ChildHashes(v, d), v[d].kids;
    forall i, j | 0 <= i < j < |l| ensures l[i].0 != l[j].0 {
      ChildFacts(d, kids[i]);
      ChildFacts(d, kids[j]);
    }
    if Lists(l, p) {
      var i :| 0 <= i < |l| && l[i].0 == p;
      ChildFacts(d, kids[i]);
      HashInAt(l, i);
    }
    if p != [] && Parent(p) == d && p in v {
      var i :| 0 <= i < |kids| && kids[i] == Leaf(p);
      assert l[i].0 == p;
    }
  }

  lemma {:induction false} HashInAt(l: seq<PathHash>, i: nat)
    requires DistinctPaths(l) && i < |l|
    ensures Lists(l, l[i].0) && HashIn(l, l[i].0) == l[i].1
  {
    if i != |l| - 1 {
      HashInAt(l[..|l| - 1], i);
    }
  }

  lemma {:induction false} EntryStateAt(es: seq<Entry>, p: Path)
    requires DistinctPaths(Hashes(es))
    ensures forall i :: 0 <= i < |es| && es[i].path == p ==> EntryState(es, p) == StateOfEntry(es[i])
    ensures !Lists(Hashes(es), p) ==> EntryState(es, p) == ABSENT
  {
    if es != [] {
      var t := es[..|es| - 1];
      assert Hashes(t) == Hashes(es)[..|es| - 1];
      EntryStateAt(t, p);
      assert Hashes(es)[|es| - 1].0 == es[|es| - 1].path;
      if Lists(Hashes(t), p) {
        var i :| 0 <= i < |t| && Hashes(t)[i].0 == p;
        assert Hashes(es)[i].0 == p;
      }
      forall i | 0 <= i < |es| && es[i].path == p ensures EntryState(es, p) == StateOfEntry(es[i]) {
        assert Hashes(es)[i].0 == p;
        if i < |t| { assert t[i] == es[i]; }
      }
    }
  }

  /** A listing tells the client exactly what a look into the server tree would. */
  lemma EntriesFaithful(v: View, d: Path, p: Path)
    requires Wf(v) && d in v
    ensures Hashes(Entries(v, d)) == ChildHashes(v, d)
    ensures p != [] && Parent(p) == d ==> EntryState(Entries(v, d), p) == NodeState(v, p)
  {
    var es := Entries(v, d);
    assert Hashes(es) == ChildHashes(v, d);
    ChildHashesFacts(v, d, p);
    EntryStateAt(es, p);
    if p != [] && Parent(p) == d && p in v {
      var i :| 0 <= i < |v[d].kids| && v[d].kids[i] == Leaf(p);
      assert es[i].path == p;
    }
  }

  lemma ListingJudges(vc: View, es: seq<Entry>)
    ensures Judges(ListingVerdict(vc, es))
  {
    forall p ensures exists l, r :: Proper(l) && Proper(r) && ListingVerdict(vc, es)(p) == Classified(p, l, r) {
      var l, r := NodeState(vc, p), EntryState(es, p);
      assert ListingVerdict(vc, es)(p) == Classified(p, l, r);
    }
  }

  /** Processing one directory reports its differing children and nothing else, once each. */
  lemma DirExact(vc: View, vs: View, d: Path, plan: Plan, g: Finding)
    requires Wf(vc) && Wf(vs) && d in vc && d in vs
    ensures Has(ProcessDir(vc, d, Entries(vs, d), plan), g) <==>
      Has(plan, g) || (Reported(vc, vs, [d], g.path) && g == Verdict(vc, vs, g.path))
    ensures Mentions(ProcessDir(vc, d, Entries(vs, d), plan), g.path) ==
      Mentions(plan, g.path) + if Reported(vc, vs, [d], g.path) then 1 else 0
  {
    hide Collect, Has, Mentions, PathCount, Diff, AllPaths, Entries, ChildHashes, EntryState, Wf, Classified;
    hide NodeState, HashIn, Lists, Hashes, Judges;
    var es, p := Entries(vs, d), g.path;
    var l, r := ChildHashes(vc, d), Hashes(es);
    EntriesFaithful(vs, d, p);
    ChildHashesFacts(vc, d, p);
    ChildHashesFacts(vs, d, p);
    DiffExact(l, r, p);
    PathCountIn(AllPaths(Diff(l, r)), p);
    ListingJudges(vc, es);
    CollectHas(ListingVerdict(vc, es), AllPaths(Diff(l, r)), plan, g);
    CollectMentions(ListingVerdict(vc, es), AllPaths(Diff(l, r)), plan, p);
  }

  /** A round reports the differing children of its directories and nothing else, once each. */
  lemma {:induction false} RoundExact(vc: View, vs: View, dirs: seq<Path>, plan: Plan, g: Finding)
    requires Wf(vc) && Wf(vs) && NoDup(dirs) && forall d :: d in dirs ==> d in vc && d in vs
    ensures Has(Round(vc, vs, dirs, plan), g) <==>
      Has(plan, g) || (Reported(vc, vs, dirs, g.path) && g == Verdict(vc, vs, g.path))
    ensures Mentions(Round(vc, vs, dirs, plan), g.path) ==
      Mentions(plan, g.path) + if Reported(vc, vs, dirs, g.path) then 1 else 0
  {
    if dirs != [] {
      var d, t := dirs[|dirs| - 1], dirs[..|dirs| - 1];
      assert dirs == t + [d];
      assert d !in t;
      RoundExact(vc, vs, t, plan, g);
      DirExact(vc, vs, d, Round(vc, vs, t, plan), g);
    }
  }
}
