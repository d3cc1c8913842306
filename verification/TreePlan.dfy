/** The plan of an undisturbed tree negotiation: it ends after few rounds, and exactly the
    differing paths that no equal hash hides are planned. */
module TreePlan {
  import opened Common
  import opened Paths
  import opened TreeView
  import opened TreeRuns
  import opened SyncCommon
  import opened Negotiation
  import opened NegotiationRun

  ghost predicate CommonDir(vc: View, vs: View, d: Path) {
    && d in vc && vc[d].kind.Directory? && !vc[d].isDeleted
    && d in vs && vs[d].kind.Directory? && !vs[d].isDeleted
  }

  ghost predicate SameHash(vc: View, vs: View, p: Path) {
    p in vc && p in vs && vc[p].hash == vs[p].hash
  }

  /** Some node from the root down to p has the same stored hash on both sides. */
  ghost predicate Hidden(vc: View, vs: View, p: Path) {
    exists q :: q <= p && SameHash(vc, vs, q)
  }

  /** A directory the negotiation looks into: live on both sides and not hidden, all the way down. */
  ghost predicate Visited(vc: View, vs: View, d: Path) {
    forall q :: q <= d ==> CommonDir(vc, vs, q) && !SameHash(vc, vs, q)
  }

  lemma VisitedCut(vc: View, vs: View, d: Path, k: nat)
    requires k <= |d|
    ensures Visited(vc, vs, d) ==> Visited(vc, vs, d[..k])
  {
  }

  lemma VisitedStep(vc: View, vs: View, p: Path)
    requires p != []
    ensures Visited(vc, vs, p) <==> Visited(vc, vs, Parent(p)) && CommonDir(vc, vs, p) && !SameHash(vc, vs, p)
  {
    if Visited(vc, vs, p) {
      forall q | q <= Parent(p) ensures CommonDir(vc, vs, q) && !SameHash(vc, vs, q) {
        PrefixOfParent(q, p);
      }
    }
    if Visited(vc, vs, Parent(p)) && CommonDir(vc, vs, p) && !SameHash(vc, vs, p) {
      forall q | q <= p ensures CommonDir(vc, vs, q) && !SameHash(vc, vs, q) {
        PrefixOfParent(q, p);
        assert q == p || q < p;
      }
    }
  }

  // ----- the rounds on unchanging trees -----

  /** The directories of one level the negotiation looks into, each once. */
  ghost predicate Level(vc: View, vs: View, dirs: seq<Path>, k: nat) {
    GoodDirs(dirs, k + 1, vc) && GoodDirs(dirs, k + 1, vs) && forall d :: d in dirs <==> |d| == k && Visited(vc, vs, d)
  }

  lemma NextLevel(vc: View, vs: View, dirs: seq<Path>, k: nat, plan: Plan)
    requires Wf(vc) && Wf(vs) && Level(vc, vs, dirs, k) && Planned(plan, k + 1)
    ensures var r := Round(vc, vs, dirs, plan);
      Level(vc, vs, r.directoriesToCheck, k + 1) && Planned(r.(directoriesToCheck := []), k + 2)
  {
    hide Wf, Round, GoodDirs, Planned, Visited;
    RoundPlanned(vc, vs, k + 1, dirs, plan);
    var r := Round(vc, vs, dirs, plan);
    forall d ensures d in r.directoriesToCheck <==> |d| == k + 1 && Visited(vc, vs, d) {
      var g := Finding(NeedsDirectoryCheck, true, d, 0);
      assert Has(r, g) <==> d in r.directoriesToCheck;
      LevelRound(vc, vs, dirs, k, plan, g);
      if d != [] {
        VisitedStep(vc, vs, d);
      }
    }
  }

  lemma LevelRound(vc: View, vs: View, dirs: seq<Path>, k: nat, plan: Plan, g: Finding)
    requires Wf(vc) && Wf(vs) && Level(vc, vs, dirs, k) && Planned(plan, k + 1)
    ensures Has(Round(vc, vs, dirs, plan), g) <==>
      Has(plan, g) || (Reported(vc, vs, dirs, g.path) && g == Verdict(vc, vs, g.path))
    ensures g.bucket.NeedsDirectoryCheck? ==> !Has(plan, g)
  {
    hide Wf, Round;
    RoundExact(vc, vs, dirs, plan, g);
  }

  ghost function Deep(v: View, k: nat): set<Path> {
    set q | q in v && |q| >= k
  }

  lemma LevelShrinks(vc: View, vs: View, dirs: seq<Path>, k: nat)
    requires Level(vc, vs, dirs, k) && dirs != []
    ensures dirs[0] in Deep(vc, k) && dirs[0] !in Deep(vc, k + 1)
  {
  }

  /** All rounds from one level on. */
  ghost function Descend(vc: View, vs: View, dirs: seq<Path>, k: nat, plan: Plan): (r: Plan)
    requires Wf(vc) && Wf(vs) && Level(vc, vs, dirs, k) && Planned(plan, k + 1)
    decreases Deep(vc, k)
  {
    if dirs == [] then plan
    else
      var r := Round(vc, vs, dirs, plan);
      NextLevel(vc, vs, dirs, k, plan);
      LevelShrinks(vc, vs, dirs, k);
      Descend(vc, vs, r.directoriesToCheck, k + 1, r.(directoriesToCheck := []))
  }

  lemma RootLevel(vc: View, vs: View)
    requires Wf(vc) && Wf(vs) && !SameHash(vc, vs, [])
    ensures Level(vc, vs, [[]], 0) && Planned(NO_PLAN, 1)
  {
    assert CommonDir(vc, vs, []);
    RootsGood(vc);
    RootsGood(vs);
    EmptyPlanned();
  }

  /** The plan the client ends up with. */
  ghost function MerklePlan(vc: View, vs: View): Plan
    requires Wf(vc) && Wf(vs)
  {
    if SameHash(vc, vs, []) then NO_PLAN
    else
      RootLevel(vc, vs);
      Descend(vc, vs, [[]], 0, NO_PLAN)
  }

  // ----- exactly what is planned -----

  /** p differs below a visited directory and its verdict puts it into a bucket. */
  ghost predicate Plannable(vc: View, vs: View, p: Path) {
    && p != [] && Visited(vc, vs, Parent(p)) && Found(vc, vs, p)
    && var b := Verdict(vc, vs, p).bucket; !b.InSync? && !b.NeedsDirectoryCheck?
  }

  /** One level's reports are its plannable children and the directories of the next level. */
  lemma ReportedHere(vc: View, vs: View, dirs: seq<Path>, k: nat, p: Path)
    requires Level(vc, vs, dirs, k)
    ensures Reported(vc, vs, dirs, p) && !Verdict(vc, vs, p).bucket.NeedsDirectoryCheck?
      <==> Plannable(vc, vs, p) && |p| == k + 1
  {
    hide GoodDirs, Visited;
  }

  lemma NoneDeeper(vc: View, vs: View, k: nat, p: Path)
    requires Level(vc, vs, [], k) && |p| > k
    ensures !Plannable(vc, vs, p)
  {
    VisitedCut(vc, vs, Parent(p), k);
  }

  lemma DescendOnce(vc: View, vs: View, dirs: seq<Path>, k: nat, plan: Plan)
    requires Wf(vc) && Wf(vs) && Level(vc, vs, dirs, k) && Planned(plan, k + 1) && dirs != []
    ensures var r := Round(vc, vs, dirs, plan);
      && Level(vc, vs, r.directoriesToCheck, k + 1) && Planned(r.(directoriesToCheck := []), k + 2)
      && Descend(vc, vs, dirs, k, plan) == Descend(vc, vs, r.directoriesToCheck, k + 1, r.(directoriesToCheck := []))
  {
    hide Wf, Level, Planned, Round;
    NextLevel(vc, vs, dirs, k, plan);
  }

  lemma {:induction false} DescendExact(vc: View, vs: View, dirs: seq<Path>, k: nat, plan: Plan, g: Finding)
    requires Wf(vc) && Wf(vs) && Level(vc, vs, dirs, k) && Planned(plan, k + 1)
    ensures Has(Descend(vc, vs, dirs, k, plan), g) <==>
      Has(plan, g) || (Plannable(vc, vs, g.path) && |g.path| > k && g == Verdict(vc, vs, g.path))
    decreases Deep(vc, k)
  {
    if dirs == [] {
      if |g.path| > k {
        NoneDeeper(vc, vs, k, g.path);
      }
    } else {
      DescendOn(vc, vs, dirs, k, plan, g);
    }
  }

  lemma {:induction false} DescendOn(vc: View, vs: View, dirs: seq<Path>, k: nat, plan: Plan, g: Finding)
    requires Wf(vc) && Wf(vs) && Level(vc, vs, dirs, k) && Planned(plan, k + 1) && dirs != []
    ensures Has(Descend(vc, vs, dirs, k, plan), g) <==>
      Has(plan, g) || (Plannable(vc, vs, g.path) && |g.path| > k && g == Verdict(vc, vs, g.path))
    decreases Deep(vc, k), 0
  {
    hide Wf, Round, Level, Plannable, Reported, Planned, Descend;
    var r := Round(vc, vs, dirs, plan);
    var next := r.(directoriesToCheck := []);
    DescendOnce(vc, vs, dirs, k, plan);
    LevelShrinks(vc, vs, dirs, k);
    DescendExact(vc, vs, r.directoriesToCheck, k + 1, next, g);
    LevelRound(vc, vs, dirs, k, plan, g);
    ReportedHere(vc, vs, dirs, k, g.path);
    PlannableBucket(vc, vs, g.path);
    assert Has(next, g) <==> Has(r, g) && !g.bucket.NeedsDirectoryCheck?;
  }

  lemma PlannableBucket(vc: View, vs: View, p: Path)
    ensures Plannable(vc, vs, p) ==> !Verdict(vc, vs, p).bucket.NeedsDirectoryCheck?
  {
  }

  /** The undisturbed negotiation plans exactly the differing children of the directories it
      visits, each with the verdict on the two trees. */
  lemma PlanExact(vc: View, vs: View, g: Finding)
    requires Wf(vc) && Wf(vs)
    ensures Has(MerklePlan(vc, vs), g) <==> Plannable(vc, vs, g.path) && g == Verdict(vc, vs, g.path)
  {
    hide Wf, Descend, Level, Planned, Plannable;
    if SameHash(vc, vs, []) {
      RootHides(vc, vs, g.path);
    } else {
      RootLevel(vc, vs);
      DescendExact(vc, vs, [[]], 0, NO_PLAN, g);
      NotRoot(vc, vs, g.path);
    }
  }

  lemma NotRoot(vc: View, vs: View, p: Path)
    ensures Plannable(vc, vs, p) ==> |p| > 0
  {
  }

  lemma RootHides(vc: View, vs: View, p: Path)
    requires SameHash(vc, vs, [])
    ensures !Plannable(vc, vs, p)
  {
    if p != [] {
      VisitedCut(vc, vs, Parent(p), 0);
      assert Parent(p)[..0] == [];
    }
  }

  // ----- the messages of an undisturbed run -----

  ghost function Deliver(n: Net): (m: Net)
    requires Inv(n) && !n.wire.Idle?
    ensures Inv(m) && Next(n, m)
  {
    var m := if n.wire.Hello? || n.wire.Request? then ServerReceives(n) else ClientReceives(n);
    InvStep(n, m);
    m
  }

  /** The state after at most `count` deliveries with nobody editing. */
  ghost function After(n: Net, count: nat): (m: Net)
    requires Inv(n)
    ensures Inv(m)
    decreases count
  {
    if count == 0 || n.wire.Idle? then n else After(Deliver(n), count - 1)
  }

  lemma AfterTwo(n: Net, count: nat)
    requires Inv(n) && !n.wire.Idle? && !Deliver(n).wire.Idle?
    ensures After(n, count + 2) == After(Deliver(Deliver(n)), count)
  {
    hide Inv, Deliver;
    assert After(n, count + 2) == After(Deliver(n), count + 1);
  }

  lemma AfterOne(n: Net, count: nat)
    requires Inv(n) && !n.wire.Idle? && Deliver(n).wire.Idle?
    ensures After(n, count + 1) == Deliver(n)
  {
    hide Inv, Deliver;
    assert After(n, count + 1) == After(Deliver(n), count);
  }

  /** No directory of the tree lies deeper than h. */
  ghost predicate DirsWithin(v: View, h: nat) {
    forall d :: d in v && v[d].kind.Directory? ==> |d| <= h
  }

  /** The client handling a listing of level k on unchanging trees. */
  lemma ListingStep(vc: View, vs: View, dirs: seq<Path>, k: nat, plan: Plan)
    requires Wf(vc) && Wf(vs) && Level(vc, vs, dirs, k) && Planned(plan, k + 1) && dirs != []
    ensures var n := Net(vc, vs, Listing(k + 1, dirs, vs), plan);
      var r := Round(vc, vs, dirs, plan);
      var next := r.(directoriesToCheck := []);
      && Inv(n)
      && (r.directoriesToCheck == [] ==> Deliver(n) == Net(vc, vs, Idle, next))
      && (r.directoriesToCheck != [] ==>
            Deliver(n) == Net(vc, vs, Request(k + 2, r.directoriesToCheck), next)
            && Deliver(Deliver(n)) == Net(vc, vs, Listing(k + 2, r.directoriesToCheck, vs), next))
  {
    hide Round, Wf, Planned;
    GrowsRefl(vs);
    var r := Round(vc, vs, dirs, plan);
    assert r.directoriesToCheck == [] ==> r.(directoriesToCheck := []) == r;
  }

  lemma LevelWithin(vc: View, vs: View, dirs: seq<Path>, k: nat, h: nat)
    requires Level(vc, vs, dirs, k) && dirs != [] && (DirsWithin(vc, h) || DirsWithin(vs, h))
    ensures k <= h
  {
    hide Visited;
    assert dirs[0] in dirs && dirs[0] in vc && dirs[0] in vs;
  }

  lemma {:induction false} DescendCompletes(vc: View, vs: View, dirs: seq<Path>, k: nat, plan: Plan, h: nat)
    requires Wf(vc) && Wf(vs) && Level(vc, vs, dirs, k) && Planned(plan, k + 1) && dirs != []
    requires k <= h && (DirsWithin(vc, h) || DirsWithin(vs, h))
    ensures Inv(Net(vc, vs, Listing(k + 1, dirs, vs), plan))
    ensures After(Net(vc, vs, Listing(k + 1, dirs, vs), plan), 2 * (h - k) + 1)
      == Net(vc, vs, Idle, Descend(vc, vs, dirs, k, plan))
    decreases h - k
  {
    hide Wf, Round, Planned, Inv, Descend, Deliver, After, Visited, DirsWithin;
    var n := Net(vc, vs, Listing(k + 1, dirs, vs), plan);
    ListingStep(vc, vs, dirs, k, plan);
    DescendOnce(vc, vs, dirs, k, plan);
    var r := Round(vc, vs, dirs, plan);
    var next := r.(directoriesToCheck := []);
    if r.directoriesToCheck == [] {
      DescendEnds(vc, vs, k + 1, next);
      AfterOne(n, 2 * (h - k));
    } else {
      LevelWithin(vc, vs, r.directoriesToCheck, k + 1, h);
      hide Level;
      DescendCompletes(vc, vs, r.directoriesToCheck, k + 1, next, h);
      AfterTwo(n, 2 * (h - k) - 1);
    }
  }

  lemma DescendEnds(vc: View, vs: View, k: nat, plan: Plan)
    requires Wf(vc) && Wf(vs) && Level(vc, vs, [], k) && Planned(plan, k + 1)
    ensures Descend(vc, vs, [], k, plan) == plan
  {
  }

  /** The client has just sent its root hash. */
  ghost function Begin(vc: View, vs: View): Net
    requires Wf(vc)
  {
    Net(vc, vs, Hello(vc[[]].hash), NO_PLAN)
  }

  /** Termination: with nobody editing, the exchange is over after at most two messages a level
      of the lower tree, and the client then holds the plan. */
  lemma NegotiationCompletes(vc: View, vs: View, h: nat)
    requires Wf(vc) && Wf(vs) && (DirsWithin(vc, h) || DirsWithin(vs, h))
    ensures Start(Begin(vc, vs)) && Inv(Begin(vc, vs))
    ensures After(Begin(vc, vs), 2 * h + 2) == Net(vc, vs, Idle, MerklePlan(vc, vs))
  {
    hide *;
    var n := Begin(vc, vs);
    HelloStep(vc, vs);
    PlanCases(vc, vs);
    if SameHash(vc, vs, []) {
      AfterTwo(n, 2 * h);
      AfterIdle(Deliver(Deliver(n)), 2 * h);
    } else {
      DescendCompletes(vc, vs, [[]], 0, NO_PLAN, h);
      AfterNext(n, 2 * h + 1);
    }
  }

  lemma AfterNext(n: Net, count: nat)
    requires Inv(n) && !n.wire.Idle?
    ensures After(n, count + 1) == After(Deliver(n), count)
  {
    hide Inv, Deliver;
  }

  lemma AfterIdle(n: Net, count: nat)
    requires Inv(n) && n.wire.Idle?
    ensures After(n, count) == n
  {
  }

  lemma PlanCases(vc: View, vs: View)
    requires Wf(vc) && Wf(vs)
    ensures SameHash(vc, vs, []) ==> MerklePlan(vc, vs) == NO_PLAN
    ensures !SameHash(vc, vs, []) ==> Level(vc, vs, [[]], 0) && Planned(NO_PLAN, 1)
    ensures !SameHash(vc, vs, []) ==> MerklePlan(vc, vs) == Descend(vc, vs, [[]], 0, NO_PLAN)
  {
    hide Wf, Descend, Level, Planned;
    if !SameHash(vc, vs, []) {
      RootLevel(vc, vs);
    }
  }

  /** The server's answer to the root hash. */
  lemma HelloStep(vc: View, vs: View)
    requires Wf(vc) && Wf(vs)
    ensures Start(Begin(vc, vs)) && Inv(Begin(vc, vs)) && Begin(vc, vs).wire.Hello?
    ensures var m := Deliver(Begin(vc, vs));
      if SameHash(vc, vs, []) then m == Net(vc, vs, Agreed, NO_PLAN) && Deliver(m) == Net(vc, vs, Idle, NO_PLAN)
      else m == Net(vc, vs, Listing(1, [[]], vs), NO_PLAN)
  {
    hide Round, Mentions;
  }

  lemma {:induction false} LengthsBounded(s: set<Path>) returns (h: nat)
    ensures forall p :: p in s ==> |p| <= h
  {
    h := 0;
    if s != {} {
      var p :| p in s;
      var g := LengthsBounded(s - {p});
      h := if |p| > g then |p| else g;
    }
  }

  lemma HeightExists(v: View) returns (h: nat)
    ensures DirsWithin(v, h)
  {
    h := LengthsBounded(v.Keys);
  }

  /** The plan mentions every path at most once, and no directory is left to check. */
  lemma PlanOnce(vc: View, vs: View, p: Path)
    requires Wf(vc) && Wf(vs)
    ensures Mentions(MerklePlan(vc, vs), p) <= 1 && MerklePlan(vc, vs).directoriesToCheck == []
  {
    hide Wf, MerklePlan, Mentions, Round, Begin;
    var h := HeightExists(vc);
    NegotiationCompletes(vc, vs, h);
    var m := After(Begin(vc, vs), 2 * h + 2);
    assert Inv(m) && m.wire == Idle && m.plan == MerklePlan(vc, vs);
  }
}
