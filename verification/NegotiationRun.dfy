/** Runs of the tree negotiation in which both databases may be edited between the messages:
    no assertion of either handler fails and no path is planned twice. */
module NegotiationRun {
  import opened Common
  import opened Paths
  import opened TreeView
  import opened TreeRuns
  import opened SyncCommon
  import opened Negotiation

  /** The one message in flight. A listing remembers the server tree it was read from. */
  datatype Wire =
    | Hello(rootHash: Bytes)
    | Request(depth: nat, dirs: seq<Path>)
    | Listing(depth: nat, dirs: seq<Path>, seen: View)
    | Agreed
    | Idle

  datatype Net = Net(client: View, server: View, wire: Wire, plan: Plan)

  /** Nodes are never removed and never change between file and directory. */
  ghost predicate Grows(v: View, w: View) {
    Wf(v) && Wf(w) && forall p :: p in v ==> p in w && w[p].kind == v[p].kind
  }

  /** Recording a file or a deletion on clash-free paths only grows the tree. */
  lemma EditGrows(H: Hasher, P: iset<Path>, v: View, op: Op)
    requires ClashFree(P) && Fits(v, P) && HashOk(H, v) && op.path in P
    ensures (op.Put? ==> Addable(v, op.path)) && Grows(v, Step(H, v, op))
  {
    hide Wf, HashOk, Step;
    FitsAddable(v, P, op.path);
    forall p | p in v ensures p in Step(H, v, op) && Step(H, v, op)[p].kind == v[p].kind {
      StepEffect(H, P, v, op, p);
    }
  }

  ghost predicate Start(n: Net) {
    && Wf(n.client) && Wf(n.server)
    && n.wire == Hello(n.client[[]].hash) && n.plan == NO_PLAN
  }

  /** The assertions the receiving handler makes on the next message. */
  ghost predicate AssertionsHold(n: Net) {
    match n.wire
    case Request(_, dirs) => forall d :: d in dirs ==> d in n.server && n.server[d].kind.Directory?
    case Listing(_, dirs, _) => forall d :: d in dirs ==> d in n.client
    case _ => true
  }

  ghost function ServerReceives(n: Net): Net
    requires n.wire.Hello? || n.wire.Request?
    requires Wf(n.server) && AssertionsHold(n)
  {
    match n.wire
    case Hello(rootHash) => n.(wire := if n.server[[]].hash == rootHash then Agreed else Listing(1, [[]], n.server))
    case Request(depth, dirs) => n.(wire := if dirs == [] then Agreed else Listing(depth, dirs, n.server))
  }

  ghost function ClientReceives(n: Net): Net
    requires n.wire.Listing? || n.wire.Agreed?
    requires Wf(n.client) && (n.wire.Listing? ==> Wf(n.wire.seen)) && AssertionsHold(n)
  {
    match n.wire
    case Agreed => n.(wire := Idle)
    case Listing(depth, dirs, seen) =>
      var plan := Round(n.client, seen, dirs, n.plan);
      if plan.directoriesToCheck != [] then
        n.(wire := Request(depth + 1, plan.directoriesToCheck), plan := plan.(directoriesToCheck := []))
      else n.(wire := Idle, plan := plan)
  }

  ghost predicate Next(n: Net, m: Net) {
    || (Grows(n.client, m.client) && m == n.(client := m.client))
    || (Grows(n.server, m.server) && m == n.(server := m.server))
    || ((n.wire.Hello? || n.wire.Request?) && Wf(n.server) && AssertionsHold(n) && m == ServerReceives(n))
    || ((n.wire.Listing? || n.wire.Agreed?) && Wf(n.client) && (n.wire.Listing? ==> Wf(n.wire.seen))
        && AssertionsHold(n) && m == ClientReceives(n))
  }

  /** The directories asked about are distinct, of one depth, and directories wherever they are looked up. */
  ghost predicate GoodDirs(dirs: seq<Path>, depth: nat, v: View) {
    && NoDup(dirs)
    && (forall d :: d in dirs ==> |d| + 1 == depth && d in v && v[d].kind.Directory?)
  }

  ghost predicate Planned(plan: Plan, depth: nat) {
    && plan.directoriesToCheck == []
    && (forall p :: Mentions(plan, p) <= 1)
    && (forall p :: Mentions(plan, p) > 0 ==> |p| < depth)
  }

  ghost predicate Inv(n: Net) {
    && Wf(n.client) && Wf(n.server)
    && match n.wire
       case Hello(_) => n.plan == NO_PLAN
       case Agreed => n.plan == NO_PLAN
       case Request(depth, dirs) =>
         && dirs != [] && Planned(n.plan, depth)
         && GoodDirs(dirs, depth, n.client) && GoodDirs(dirs, depth, n.server)
       case Listing(depth, dirs, seen) =>
         && Planned(n.plan, depth) && Grows(seen, n.server)
         && GoodDirs(dirs, depth, n.client) && GoodDirs(dirs, depth, seen)
       case Idle => n.plan.directoriesToCheck == [] && forall p :: Mentions(n.plan, p) <= 1
  }

  lemma RoundMentions(vc: View, seen: View, depth: nat, dirs: seq<Path>, plan: Plan, p: Path)
    requires Wf(vc) && Wf(seen) && GoodDirs(dirs, depth, vc) && GoodDirs(dirs, depth, seen) && Planned(plan, depth)
    ensures Mentions(Round(vc, seen, dirs, plan), p) <= 1
    ensures Mentions(Round(vc, seen, dirs, plan), p) > 0 ==> |p| < depth + 1
  {
    hide Wf, Round, Mentions;
    RoundExact(vc, seen, dirs, plan, Finding(InSync, true, p, 0));
    assert Reported(vc, seen, dirs, p) ==> |p| == depth;
  }

  lemma RoundChecks(vc: View, seen: View, depth: nat, dirs: seq<Path>, plan: Plan, d: Path)
    requires Wf(vc) && Wf(seen) && GoodDirs(dirs, depth, vc) && GoodDirs(dirs, depth, seen) && Planned(plan, depth)
    requires d in Round(vc, seen, dirs, plan).directoriesToCheck
    ensures |d| == depth && d in vc && vc[d].kind.Directory? && d in seen && seen[d].kind.Directory?
  {
    hide Wf, Round, Mentions;
    var g := Finding(NeedsDirectoryCheck, true, d, 0);
    assert Has(Round(vc, seen, dirs, plan), g);
    RoundExact(vc, seen, dirs, plan, g);
    CheckIsDirectory(vc, seen, dirs, depth, d);
  }

  lemma RoundPlanned(vc: View, seen: View, depth: nat, dirs: seq<Path>, plan: Plan)
    requires Wf(vc) && Wf(seen) && GoodDirs(dirs, depth, vc) && GoodDirs(dirs, depth, seen) && Planned(plan, depth)
    ensures var r := Round(vc, seen, dirs, plan);
      && GoodDirs(r.directoriesToCheck, depth + 1, vc) && GoodDirs(r.directoriesToCheck, depth + 1, seen)
      && Planned(r.(directoriesToCheck := []), depth + 1)
  {
    hide Wf, Round, PathCount, Bucketed;
    var r := Round(vc, seen, dirs, plan);
    forall p
      ensures Mentions(r, p) <= 1 && PathCount(r.directoriesToCheck, p) <= 1
      ensures Mentions(r.(directoriesToCheck := []), p) <= 1
      ensures Mentions(r.(directoriesToCheck := []), p) > 0 ==> |p| < depth + 1
    {
      RoundMentions(vc, seen, depth, dirs, plan, p);
      Emptied(r, p);
    }
    PathCountNoDup(r.directoriesToCheck);
    forall d | d in r.directoriesToCheck
      ensures |d| == depth && d in vc && vc[d].kind.Directory? && d in seen && seen[d].kind.Directory?
    {
      RoundChecks(vc, seen, depth, dirs, plan, d);
    }
  }

  lemma Emptied(r: Plan, p: Path)
    ensures Mentions(r.(directoriesToCheck := []), p) + PathCount(r.directoriesToCheck, p) == Mentions(r, p)
  {
  }

  /** Only a directory live on both sides is descended into. */
  lemma CheckIsDirectory(vc: View, vs: View, dirs: seq<Path>, depth: nat, d: Path)
    requires Reported(vc, vs, dirs, d) && Verdict(vc, vs, d) == Finding(NeedsDirectoryCheck, true, d, 0)
    requires forall x :: x in dirs ==> |x| + 1 == depth
    ensures |d| == depth && d in vc && vc[d].kind.Directory? && d in vs && vs[d].kind.Directory?
  {
  }

  lemma GoodDirsGrow(dirs: seq<Path>, depth: nat, v: View, w: View)
    requires GoodDirs(dirs, depth, v) && Grows(v, w)
    ensures GoodDirs(dirs, depth, w)
  {
  }

  lemma InvStep(n: Net, m: Net)
    requires Inv(n) && Next(n, m)
    ensures Inv(m)
  {
    hide Wf, Round, Mentions, Grows;
    if Grows(n.client, m.client) && m == n.(client := m.client) {
      if n.wire.Request? || n.wire.Listing? {
        GoodDirsGrow(n.wire.dirs, n.wire.depth, n.client, m.client);
      }
      GrowsRefl(m.client);
    } else if Grows(n.server, m.server) && m == n.(server := m.server) {
      if n.wire.Request? {
        GoodDirsGrow(n.wire.dirs, n.wire.depth, n.server, m.server);
      }
      if n.wire.Listing? {
        GrowsTrans(n.wire.seen, n.server, m.server);
      }
      GrowsRefl(m.server);
    } else if n.wire.Hello? {
      EmptyPlanned();
      RootsGood(n.client);
      RootsGood(n.server);
      GrowsRefl(n.server);
    } else if n.wire.Listing? {
      var Listing(depth, dirs, seen) := n.wire;
      RoundPlanned(n.client, seen, depth, dirs, n.plan);
      var r := Round(n.client, seen, dirs, n.plan);
      GoodDirsGrow(r.directoriesToCheck, depth + 1, seen, n.server);
      assert r.directoriesToCheck == [] ==> r.(directoriesToCheck := []) == r;
    } else if n.wire.Agreed? {
      EmptyPlanned();
    } else {
      GrowsRefl(n.server);
    }
  }

  lemma GrowsRefl(v: View)
    ensures Wf(v) <==> Grows(v, v)
    ensures forall u :: Grows(u, v) ==> Wf(v)
  {
  }

  lemma GrowsTrans(u: View, v: View, w: View)
    requires Grows(u, v) && Grows(v, w)
    ensures Grows(u, w)
  {
  }

  lemma RootsGood(v: View)
    requires Wf(v)
    ensures GoodDirs([[]], 1, v)
  {
  }

  lemma EmptyPlanned()
    ensures Planned(NO_PLAN, 1)
  {
  }

  /** A run from the first message on. */
  ghost predicate IsRun(run: seq<Net>) {
    run != [] && Start(run[0]) && forall i :: 0 <= i < |run| - 1 ==> Next(run[i], run[i + 1])
  }

  lemma {:induction false} RunInv(run: seq<Net>, i: nat)
    requires IsRun(run) && i < |run|
    ensures Inv(run[i])
  {
    if i > 0 {
      RunInv(run, i - 1);
      assert Next(run[i - 1], run[i - 1 + 1]);
      InvStep(run[i - 1], run[i]);
    }
  }

  /** Safety under interleaving: whatever is recorded on either side between the messages, no
      handler assertion fails and every path is in at most one bucket, at most once. */
  lemma NegotiationIsSafe(run: seq<Net>, i: nat, p: Path)
    requires IsRun(run) && i < |run|
    ensures AssertionsHold(run[i]) && Bucketed(run[i].plan, p) <= 1
  {
    RunInv(run, i);
    assert Mentions(run[i].plan, p) <= 1;
  }
}
