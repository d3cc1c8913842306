/** The round after a simple negotiation: when its plan fits the two sides, and when it comes to rest. */
module NaiveRound {
  import opened Common
  import opened Paths
  import opened TreeView
  import opened TreeRuns
  import opened Index
  import opened SyncCommon
  import opened Negotiation
  import opened TreePlan
  import opened Expansion
  import opened NaiveSync
  import opened Equivalence
  import opened Replicas
  import opened Merge
  import opened Convergence
  import opened SyncRound

  /** No recorded tombstone misleads the simple negotiation. */
  ghost predicate Leftoverless(c: Db, s: Db) {
    forall p :: !Shadowed(c, p) && !Shadowed(s, p) && !LateOrphan(c, s, p) && !LateOrphan(s, c, p)
  }

  /** The plan of a simple negotiation: the client has classified what the server listed and then its own
      unlisted files. */
  ghost predicate NaivePlan(c: Db, s: Db, plan: Plan) {
    exists es, order :: ListingOf(s, es) && Unlisted(c, es, order)
      && plan == Collect(ListedVerdict(c, es), PathsOf(es) + order, NO_PLAN)
  }

  lemma NaiveEntries(c: Db, s: Db, plan: Plan, f: Finding)
    requires NaivePlan(c, s, plan)
    ensures f in PlanEntries(plan) <==> f == NaiveVerdict(c, s, f.path) && !f.bucket.InSync?
    ensures f in PlanEntries(plan) ==> f.isFile
  {
    hide ListingOf, Unlisted, ListedVerdict, PlanEntries;
    var es, order :| ListingOf(s, es) && Unlisted(c, es, order)
      && plan == Collect(ListedVerdict(c, es), PathsOf(es) + order, NO_PLAN);
    NaiveExact(c, s, es, order, f);
    EntriesExact(plan, f);
    hide Has, Collect;
    NaiveFile(c, s, f.path);
  }

  lemma NaiveFile(c: Db, s: Db, p: Path)
    ensures var v := NaiveVerdict(c, s, p);
      v.path == p && !v.bucket.NeedsDirectoryCheck? && (!v.bucket.InSync? ==> v.isFile)
  {
  }

  /** Each path is planned at most once where no tombstone is left over. */
  lemma NaiveOnce(c: Db, s: Db, plan: Plan, p: Path)
    requires NaivePlan(c, s, plan) && Leftoverless(c, s)
    ensures Bucketed(plan, p) <= 1
  {
    hide ListingOf, Unlisted, ListedVerdict, PathCount, Collect, FlaggedCount, TimedCount;
    var es, order :| ListingOf(s, es) && Unlisted(c, es, order)
      && plan == Collect(ListedVerdict(c, es), PathsOf(es) + order, NO_PLAN);
    NaiveTwice(c, s, es, order, p);
    assert !Shadowed(s, p);
  }

  /** Where no tombstone is left over the simple verdict is the one on the trees. */
  lemma VerdictsAgree(H: Hasher, P: iset<Path>, c: Replica, s: Replica, p: Path)
    requires Tracked(H, P, c) && Tracked(H, P, s) && Leftoverless(c.db, s.db)
    requires !NaiveVerdict(c.db, s.db, p).bucket.InSync?
    ensures p in P && NaiveVerdict(c.db, s.db, p).bucket == BucketAt(c, s, p)
    ensures NaiveVerdict(c.db, s.db, p).bucket.DeletionWinsLeft? ==>
      p !in c.files && p in c.db.tombs && c.db.tombs[p] == NaiveVerdict(c.db, s.db, p).time
    ensures NaiveVerdict(c.db, s.db, p).bucket.DeletionWinsRight? ==>
      p in s.db.tombs && s.db.tombs[p] == NaiveVerdict(c.db, s.db, p).time
  {
    hide Tracked, Wf, HashOk, Fits, NodeState, DbState;
    assert !Shadowed(c.db, p) && !Shadowed(s.db, p) && !LateOrphan(c.db, s.db, p) && !LateOrphan(s.db, c.db, p);
    hide Leftoverless;
    FileStates(H, P, c, p);
    FileStates(H, P, s, p);
  }

  /** A path's state in the maps and in the tree, where its tombstone is not left over. */
  lemma FileStates(H: Hasher, P: iset<Path>, r: Replica, p: Path)
    requires Tracked(H, P, r) && !Shadowed(r.db, p)
    ensures var d, n := DbState(r.db, p), NodeState(r.db.tree, p);
      if p in r.db.mtimes then
        p in P && d == Live(r.db.mtimes[p], false, d.hash) && n == Live(r.db.mtimes[p], false, [])
      else if p in r.db.tombs then
        p in P && d == Tombstone(r.db.tombs[p]) && n == if p in r.db.tree then d else ABSENT
      else d == ABSENT && (p in P ==> n == ABSENT)
    ensures p in r.files <==> p in r.db.mtimes
  {
    hide Wf, HashOk, Fits;
    TreeStates(H, P, r.db, p);
    TrackedFile(H, P, r, p);
  }

  lemma NaiveRight(o: Origin, plan: Plan, f: Finding)
    requires Tracked(o.H, o.P, o.client) && Tracked(o.H, o.P, o.server) && o.plan == PlanEntries(plan)
    requires NaivePlan(o.client.db, o.server.db, plan) && Leftoverless(o.client.db, o.server.db) && f in o.plan
    ensures f.isFile && RightFile(o, f) && f.path in o.P
    ensures f == NaiveVerdict(o.client.db, o.server.db, f.path)
  {
    hide Tracked, NaivePlan, Leftoverless, NaiveVerdict, BucketAt, PlanEntries;
    NaiveEntries(o.client.db, o.server.db, plan, f);
    VerdictsAgree(o.H, o.P, o.client, o.server, f.path);
  }

  /** Then the plan fits the two sides. */
  lemma NaiveFounded(o: Origin, plan: Plan)
    requires ClashFree(o.P) && Scanned(o.H, o.P, o.client) && Scanned(o.H, o.P, o.server)
    requires NaivePlan(o.client.db, o.server.db, plan) && o.plan == PlanEntries(plan)
    requires Leftoverless(o.client.db, o.server.db)
    ensures Founded(o)
  {
    hide Scanned, Tracked, NaivePlan, Leftoverless, NaiveVerdict, PlanEntries, RightFile, RightDir;
    ScannedTracked(o.H, o.P, o.client);
    ScannedTracked(o.H, o.P, o.server);
    forall f | f in o.plan ensures f.isFile && RightFile(o, f) {
      NaiveRight(o, plan, f);
    }
    forall f, g | f in o.plan && g in o.plan && f.path <= g.path ensures f == g {
      NaiveRight(o, plan, f);
      NaiveRight(o, plan, g);
      assert f.path == g.path;
    }
  }

  /** And where different contents have different digests it leaves no difference out. */
  lemma NaiveComplete(H: Hasher, P: iset<Path>, c: Replica, s: Replica, plan: Plan, p: Path)
    requires Scanned(H, P, c) && Scanned(H, P, s) && DigestTells(H, c, s)
    requires NaivePlan(c.db, s.db, plan) && Leftoverless(c.db, s.db)
    ensures !Unplanned(Origin(H, P, c, s, PlanEntries(plan)), p)
  {
    hide Scanned, Tracked, NaivePlan, NaiveVerdict, PlanEntries;
    var o := Origin(H, P, c, s, PlanEntries(plan));
    assert !Shadowed(c.db, p) && !Shadowed(s.db, p);
    hide Leftoverless;
    ScannedFile(H, P, c, p);
    ScannedFile(H, P, s, p);
    ScannedTracked(H, P, c);
    ScannedTracked(H, P, s);
    TrackedFile(H, P, c, p);
    TrackedFile(H, P, s, p);
    SameRecordInSync(c.db, s.db, p);
    NaiveFile(c.db, s.db, p);
    var v := NaiveVerdict(c.db, s.db, p);
    NaiveEntries(c.db, s.db, plan, v);
    if v in o.plan {
      assert v.path == p;
    }
  }

  /** Carrying out a simple plan converges: where no tombstone is left over and digests tell contents apart,
      both sides end with the same files, the merged ones, if and only if no copy was cut short. */
  lemma NaiveRoundConverges(o: Origin, plan: Plan, run: seq<World>, events: seq<Event>)
    requires ClashFree(o.P) && Scanned(o.H, o.P, o.client) && Scanned(o.H, o.P, o.server)
    requires NaivePlan(o.client.db, o.server.db, plan) && o.plan == PlanEntries(plan)
    requires Leftoverless(o.client.db, o.server.db) && DigestTells(o.H, o.client, o.server)
    requires IsRun(o, run, events) && Finished(run[|events|])
    ensures Founded(o)
    ensures forall p :: p in o.client.files ==> p in o.client.db.mtimes
    ensures forall p :: p in o.server.files ==> p in o.server.db.mtimes
    ensures var x := run[|events|];
      x.client.files == x.server.files && (forall p :: Held(x.client, p) == Merged(o.client, o.server, p)) <==> Exact(o)
    ensures var x := run[|events|];
      Exact(o) ==> Scanned(o.H, o.P, x.client) && Scanned(o.H, o.P, x.server)
  {
    hide Scanned, NaivePlan, Leftoverless, DigestTells, IsRun, Finished, Founded, Unplanned, Exact, Merged, Held;
    hide PlanEntries;
    NaiveFounded(o, plan);
    forall p ensures !Unplanned(o, p) {
      NaiveComplete(o.H, o.P, o.client, o.server, plan, p);
    }
    PlanConvergesAll(o, run, events);
  }

  /** Files recorded before their deletions and never after them leave nothing over. */
  lemma TidyLeftoverless(H: Hasher, P: iset<Path>, clientOps: seq<Op>, serverOps: seq<Op>)
    requires ClashFree(P) && (forall op :: op in clientOps ==> op.path in P)
    requires (forall op :: op in serverOps ==> op.path in P) && Tidy(clientOps) && Tidy(serverOps)
    ensures Leftoverless(RunDb(H, P, clientOps), RunDb(H, P, serverOps))
  {
    hide RunDb, Tidy;
    TidyNoLeftovers(H, P, clientOps);
    TidyNoLeftovers(H, P, serverOps);
  }

  // ----- the next round -----

  /** The simple negotiation comes to rest only where the two sides' leftover tombstones match:
      a file recorded again after its deletion on one side alone is planned again every round. */
  lemma NaiveSecondRound(H: Hasher, P: iset<Path>, c: Replica, s: Replica)
    requires Scanned(H, P, c) && Scanned(H, P, s) && c.files == s.files && ContentHashed(c.db)
    ensures (forall it :: !NaiveItem(c.db, s.db, it)) <==>
      (forall p :: p in c.files ==> (Shadowed(c.db, p) <==> Shadowed(s.db, p)))
  {
    hide Scanned, NaiveItem;
    forall p
      ensures (p in c.files ==> (Shadowed(c.db, p) <==> Shadowed(s.db, p))) <==>
        NaiveVerdict(c.db, s.db, p).bucket.InSync?
    {
      NaiveAtRest(H, P, c, s, p);
    }
    if p :| !NaiveVerdict(c.db, s.db, p).bucket.InSync? {
      NaiveItemOf(c.db, s.db, p);
    }
    forall it | NaiveItem(c.db, s.db, it) ensures !NaiveVerdict(c.db, s.db, it.path).bucket.InSync? {
      NaiveItemMoves(c.db, s.db, it);
    }
  }

  lemma NaiveItemMoves(c: Db, s: Db, it: Item)
    requires NaiveItem(c, s, it)
    ensures !NaiveVerdict(c, s, it.path).bucket.InSync?
  {
  }

  lemma NaiveItemOf(c: Db, s: Db, p: Path)
    requires !NaiveVerdict(c, s, p).bucket.InSync?
    ensures var v := NaiveVerdict(c, s, p); NaiveItem(c, s, Item(v.bucket, p, v.time))
  {
  }

  lemma NaiveAtRest(H: Hasher, P: iset<Path>, c: Replica, s: Replica, p: Path)
    requires Scanned(H, P, c) && Scanned(H, P, s) && c.files == s.files && ContentHashed(c.db)
    ensures (p in c.files ==> (Shadowed(c.db, p) <==> Shadowed(s.db, p))) <==>
      NaiveVerdict(c.db, s.db, p).bucket.InSync?
  {
    hide Scanned, Tracked;
    ScannedTracked(H, P, c);
    ScannedTracked(H, P, s);
    ScannedFile(H, P, c, p);
    ScannedFile(H, P, s, p);
    TrackedFile(H, P, c, p);
    TrackedFile(H, P, s, p);
  }
}
