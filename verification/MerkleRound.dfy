/** The round after a tree negotiation: its plan fits the two sides, and the next round has nothing to do. */
module MerkleRound {
  import opened Common
  import opened Paths
  import opened TreeView
  import opened TreeRuns
  import opened Index
  import opened SyncCommon
  import opened Negotiation
  import opened TreePlan
  import opened Expansion
  import opened Equivalence
  import opened Replicas
  import opened Merge
  import opened Convergence
  import opened SyncRound

  /** The entry is in the plan of the tree negotiation. */
  ghost predicate Due(c: Replica, s: Replica, f: Finding) {
    Plannable(c.db.tree, s.db.tree, f.path) && f == Verdict(c.db.tree, s.db.tree, f.path)
  }

  ghost function MerkleOrigin(H: Hasher, P: iset<Path>, c: Replica, s: Replica): Origin
    requires Wf(c.db.tree) && Wf(s.db.tree)
  {
    Origin(H, P, c, s, PlanEntries(MerklePlan(c.db.tree, s.db.tree)))
  }

  lemma PlanIsDue(H: Hasher, P: iset<Path>, c: Replica, s: Replica, f: Finding)
    requires Wf(c.db.tree) && Wf(s.db.tree)
    ensures f in MerkleOrigin(H, P, c, s).plan <==> Due(c, s, f)
  {
    hide Wf, MerklePlan, PlanEntries, Has;
    EntriesExact(MerklePlan(c.db.tree, s.db.tree), f);
    PlanExact(c.db.tree, s.db.tree, f);
    hide Visited;
  }

  lemma DueFile(o: Origin, f: Finding)
    requires Scanned(o.H, o.P, o.client) && Scanned(o.H, o.P, o.server) && Due(o.client, o.server, f) && f.isFile
    ensures RightFile(o, f) && !Hidden(o.client.db.tree, o.server.db.tree, f.path)
  {
    hide Scanned, Tracked, Visited, Hidden, Wf;
    ScannedFits(o.H, o.P, o.client);
    ScannedFits(o.H, o.P, o.server);
    ScannedTracked(o.H, o.P, o.client);
    ScannedTracked(o.H, o.P, o.server);
    PlannableNotHidden(o.client.db.tree, o.server.db.tree, f.path);
    PlannedFile(o.P, o.client.db.tree, o.server.db.tree, f.path);
    ScannedFile(o.H, o.P, o.client, f.path);
    ScannedFile(o.H, o.P, o.server, f.path);
    TrackedKind(o.H, o.P, o.client, f.path);
    TrackedKind(o.H, o.P, o.server, f.path);
  }

  /** A directory entry: one side alone has the directory, the other nothing at or below it. */
  lemma DueSide(o: Origin, f: Finding, p: Path)
    requires Scanned(o.H, o.P, o.client) && Scanned(o.H, o.P, o.server) && Due(o.client, o.server, f)
    requires !f.isFile && f.path <= p
    ensures f.path !in o.P && f.path != [] && f.time == 0 && (f.bucket.OnlyInLeft? || f.bucket.OnlyInRight?)
    ensures f.bucket.OnlyInLeft? ==> p !in o.server.db.tree
    ensures f.bucket.OnlyInRight? ==> p !in o.client.db.tree
  {
    hide Scanned, Tracked, Visited, Hidden, Wf;
    var vc, vs, d := o.client.db.tree, o.server.db.tree, f.path;
    ScannedFits(o.H, o.P, o.client);
    ScannedFits(o.H, o.P, o.server);
    ScannedTracked(o.H, o.P, o.client);
    ScannedTracked(o.H, o.P, o.server);
    PlannableNotHidden(vc, vs, d);
    TrackedKind(o.H, o.P, o.client, d);
    TrackedKind(o.H, o.P, o.server, d);
    if d in vc && d in vs { SameKind(o.P, vc, vs, d); }
    if p in vc { PrefixIn(vc, d, p); }
    if p in vs { PrefixIn(vs, d, p); }
  }

  lemma AbsentVerdict(c: Replica, s: Replica, p: Path)
    ensures p !in s.db.tree ==> !RightWins(BucketAt(c, s, p))
    ensures p !in c.db.tree ==> !LeftWins(BucketAt(c, s, p))
  {
  }

  lemma DueDir(o: Origin, f: Finding, p: Path)
    requires Scanned(o.H, o.P, o.client) && Scanned(o.H, o.P, o.server) && Due(o.client, o.server, f)
    requires !f.isFile && f.path <= p
    ensures OneSided(o, f.bucket, p)
    ensures p in o.client.files || p in o.server.files ==> !Hidden(o.client.db.tree, o.server.db.tree, p)
  {
    DueSide(o, f, p);
    PlannableNotHidden(o.client.db.tree, o.server.db.tree, f.path);
    AbsentVerdict(o.client, o.server, p);
    hide Scanned, Tracked, Visited, Hidden, Wf, Plannable, NodeState, ClassifyPath;
    ScannedFits(o.H, o.P, o.client);
    ScannedFits(o.H, o.P, o.server);
    ScannedFile(o.H, o.P, o.client, p);
    ScannedFile(o.H, o.P, o.server, p);
    if (f.bucket.OnlyInLeft? && p in o.client.files) || (f.bucket.OnlyInRight? && p in o.server.files) {
      PlannedDir(o.P, o.client.db.tree, o.server.db.tree, f.path, p);
    }
  }

  lemma AboveIsCommon(c: Replica, s: Replica, p: Path, d: Path)
    requires Plannable(c.db.tree, s.db.tree, p) && d < p
    ensures Verdict(c.db.tree, s.db.tree, d).bucket.NeedsDirectoryCheck?
  {
    PrefixOfParent(d, p);
    assert CommonDir(c.db.tree, s.db.tree, d);
  }

  /** No two entries of a plan are about nested paths. */
  lemma DueApart(c: Replica, s: Replica, f: Finding, g: Finding)
    requires Due(c, s, f) && Due(c, s, g) && f.path <= g.path
    ensures f == g
  {
    hide Plannable, Verdict;
    PlannableBucket(c.db.tree, s.db.tree, f.path);
    if f.path != g.path {
      AboveIsCommon(c, s, g.path, f.path);
    }
  }

  /** The plan of a tree negotiation fits the two sides. */
  lemma MerkleFounded(H: Hasher, P: iset<Path>, c: Replica, s: Replica)
    requires ClashFree(P) && Scanned(H, P, c) && Scanned(H, P, s)
    ensures Wf(c.db.tree) && Wf(s.db.tree) && Founded(MerkleOrigin(H, P, c, s))
  {
    hide Wf, Scanned, Due, RightFile, OneSided, PlanEntries, MerklePlan;
    ScannedFits(H, P, c);
    ScannedFits(H, P, s);
    var o := MerkleOrigin(H, P, c, s);
    forall f | f in o.plan ensures if f.isFile then RightFile(o, f) else RightDir(o, f) {
      PlanIsDue(H, P, c, s, f);
      if f.isFile {
        DueFile(o, f);
      } else {
        DueSide(o, f, f.path);
        forall p | f.path <= p ensures OneSided(o, f.bucket, p) {
          DueDir(o, f, p);
        }
      }
    }
    forall f, g | f in o.plan && g in o.plan && f.path <= g.path ensures f == g {
      PlanIsDue(H, P, c, s, f);
      PlanIsDue(H, P, c, s, g);
      DueApart(c, s, f, g);
    }
  }

  lemma FileVerdict(P: iset<Path>, c: Replica, s: Replica, H: Hasher, p: Path)
    requires Scanned(H, P, c) && Scanned(H, P, s) && p in P && Held(c, p) != Held(s, p)
    requires !Hidden(c.db.tree, s.db.tree, p)
    ensures var v := Verdict(c.db.tree, s.db.tree, p);
      FilePath(c.db.tree, s.db.tree, p) && Visible(c.db.tree, s.db.tree, Item(v.bucket, p, v.time))
  {
    hide Scanned, Tracked, Hidden;
    ScannedTracked(H, P, c);
    ScannedTracked(H, P, s);
    TrackedKind(H, P, c, p);
    TrackedKind(H, P, s, p);
    ScannedFile(H, P, c, p);
    ScannedFile(H, P, s, p);
    DecisionMeaning(H, P, c, s, p);
  }

  lemma ReachedByPlan(o: Origin, it: Item)
    requires Wf(o.client.db.tree) && Wf(o.server.db.tree) && o == MerkleOrigin(o.H, o.P, o.client, o.server)
    requires InExpanded(MerklePlan(o.client.db.tree, o.server.db.tree), o.client.db.tree, o.server.db.tree, it)
    requires !it.bucket.NeedsDirectoryCheck?
    ensures Reached(o, it.path)
  {
    hide Wf, MerklePlan, Has, PlanEntries;
    var plan := MerklePlan(o.client.db.tree, o.server.db.tree);
    var f: Finding;
    if Has(plan, Finding(it.bucket, true, it.path, it.time)) {
      f := Finding(it.bucket, true, it.path, it.time);
    } else if it.bucket.OnlyInLeft? {
      var d :| d <= it.path && Has(plan, Finding(OnlyInLeft, false, d, 0));
      f := Finding(OnlyInLeft, false, d, 0);
    } else {
      var d :| d < it.path && Has(plan, Finding(OnlyInRight, false, d, 0));
      f := Finding(OnlyInRight, false, d, 0);
    }
    EntriesExact(plan, f);
    assert f in o.plan && (f.path == it.path || (!f.isFile && f.path < it.path));
  }

  /** The plan leaves out exactly the differences that an equal hash hides. */
  lemma UnplannedHidden(H: Hasher, P: iset<Path>, c: Replica, s: Replica, p: Path)
    requires ClashFree(P) && Scanned(H, P, c) && Scanned(H, P, s) && p in P && Wf(c.db.tree) && Wf(s.db.tree)
    ensures Unplanned(MerkleOrigin(H, P, c, s), p) <==> Overlooked(c, s, p)
  {
    hide Wf, Scanned, Due, RightFile, OneSided, PlanEntries, MerklePlan, Hidden, InExpanded;
    var o := MerkleOrigin(H, P, c, s);
    if Held(c, p) != Held(s, p) && !Hidden(c.db.tree, s.db.tree, p) {
      ScannedFits(H, P, c);
      ScannedFits(H, P, s);
      FileVerdict(P, c, s, H, p);
      hide FilePath, Visible;
      DecisionMeaning(H, P, c, s, p) by { ScannedTracked(H, P, c); ScannedTracked(H, P, s); }
      var v := Verdict(c.db.tree, s.db.tree, p);
      VisiblePlanned(P, c.db.tree, s.db.tree, Item(v.bucket, p, v.time));
      ReachedByPlan(o, Item(v.bucket, p, v.time));
    }
    if Held(c, p) != Held(s, p) && Reached(o, p) {
      var f :| f in o.plan && (f.path == p || (!f.isFile && f.path < p));
      PlanIsDue(H, P, c, s, f);
      if f.isFile { DueFile(o, f); } else { DueDir(o, f, p); }
    }
  }

  /** Convergence, file by file: when everything is done, in whatever order, both sides hold the merged
      version, if and only if no equal hash on the way to the file hid a difference and no copy was cut short. */
  lemma RoundConverges(o: Origin, run: seq<World>, events: seq<Event>, p: Path)
    requires ClashFree(o.P) && Scanned(o.H, o.P, o.client) && Scanned(o.H, o.P, o.server)
    requires Wf(o.client.db.tree) && Wf(o.server.db.tree) && o == MerkleOrigin(o.H, o.P, o.client, o.server)
    requires IsRun(o, run, events) && Finished(run[|events|]) && p in o.P
    ensures p in o.client.files ==> p in o.client.db.mtimes
    ensures p in o.server.files ==> p in o.server.db.mtimes
    ensures var x := run[|events|];
      Held(x.client, p) == Held(x.server, p) == Merged(o.client, o.server, p) <==>
        !Overlooked(o.client, o.server, p) && !Truncates(o, p)
  {
    hide Wf, Scanned, Founded, IsRun, Overlooked, Unplanned, Truncates, Merged, Held, Finished;
    MerkleFounded(o.H, o.P, o.client, o.server);
    UnplannedHidden(o.H, o.P, o.client, o.server, p);
    hide MerkleOrigin;
    PlanConverges(o, run, events, p);
  }

  /** Convergence: where equal hashes mean equal contents both sides end with the same files, the merged ones,
      if and only if no copy was cut short; both sides are scanned then. */
  lemma RoundConvergesAll(o: Origin, run: seq<World>, events: seq<Event>)
    requires ClashFree(o.P) && Scanned(o.H, o.P, o.client) && Scanned(o.H, o.P, o.server)
    requires Wf(o.client.db.tree) && Wf(o.server.db.tree) && o == MerkleOrigin(o.H, o.P, o.client, o.server)
    requires IsRun(o, run, events) && Finished(run[|events|])
    requires DigestTells(o.H, o.client, o.server) && HashesTell(o.client.db.tree, o.server.db.tree)
    ensures forall p :: p in o.client.files ==> p in o.client.db.mtimes
    ensures forall p :: p in o.server.files ==> p in o.server.db.mtimes
    ensures var x := run[|events|];
      x.client.files == x.server.files && (forall p :: Held(x.client, p) == Merged(o.client, o.server, p)) <==> Exact(o)
    ensures var x := run[|events|];
      Exact(o) ==> Scanned(o.H, o.P, x.client) && Scanned(o.H, o.P, x.server)
  {
    hide Wf, Scanned, Founded, IsRun, Overlooked, Unplanned, Exact, Merged, Held, Finished, DigestTells, HashesTell;
    MerkleFounded(o.H, o.P, o.client, o.server);
    forall p | p in o.P ensures !Unplanned(o, p) {
      UnplannedHidden(o.H, o.P, o.client, o.server, p);
      NoneOverlooked(o.H, o.P, o.client, o.server, p);
    }
    hide MerkleOrigin;
    PlanConvergesAll(o, run, events);
  }

  // ----- the next round -----

  /** Once both sides hold the same files a new negotiation moves nothing, in whatever order the
      trees were built and whatever their root hashes are. */
  lemma SecondRoundEmpty(H: Hasher, P: iset<Path>, c: Replica, s: Replica, it: Item)
    requires ClashFree(P) && Scanned(H, P, c) && Scanned(H, P, s) && c.files == s.files
    requires !it.bucket.NeedsDirectoryCheck?
    ensures Wf(c.db.tree) && Wf(s.db.tree)
    ensures !InExpanded(MerklePlan(c.db.tree, s.db.tree), c.db.tree, s.db.tree, it)
  {
    ScannedFits(H, P, c);
    ScannedFits(H, P, s);
    hide Wf, MerklePlan, InExpanded;
    ExpandedExact(P, c.db.tree, s.db.tree, it);
    NothingVisible(H, P, c, s, it);
  }

  /** A finished round leaves nothing to move: the next negotiation's plan, with its directories expanded,
      is empty. */
  lemma NothingLeft(o: Origin, run: seq<World>, events: seq<Event>, it: Item)
    requires ClashFree(o.P) && Scanned(o.H, o.P, o.client) && Scanned(o.H, o.P, o.server)
    requires Wf(o.client.db.tree) && Wf(o.server.db.tree) && o == MerkleOrigin(o.H, o.P, o.client, o.server)
    requires IsRun(o, run, events) && Finished(run[|events|]) && Exact(o)
    requires DigestTells(o.H, o.client, o.server) && HashesTell(o.client.db.tree, o.server.db.tree)
    requires !it.bucket.NeedsDirectoryCheck?
    ensures var vc, vs := run[|events|].client.db.tree, run[|events|].server.db.tree;
      Wf(vc) && Wf(vs) && !InExpanded(MerklePlan(vc, vs), vc, vs, it)
  {
    hide Scanned, Wf, Exact, Enabled, HashesTell, DigestTells, InExpanded, MerklePlan, MerkleOrigin, Finished;
    var x := run[|events|];
    hide IsRun;
    RoundConvergesAll(o, run, events);
    SecondRoundEmpty(o.H, o.P, x.client, x.server, it);
  }

  lemma NothingVisible(H: Hasher, P: iset<Path>, c: Replica, s: Replica, it: Item)
    requires Scanned(H, P, c) && Scanned(H, P, s) && c.files == s.files
    ensures !(FilePath(c.db.tree, s.db.tree, it.path) && Visible(c.db.tree, s.db.tree, it))
  {
    hide Scanned, Tracked;
    var p := it.path;
    ScannedFile(H, P, c, p);
    ScannedFile(H, P, s, p);
    ScannedTracked(H, P, c);
    ScannedTracked(H, P, s);
    TrackedKind(H, P, c, p);
    TrackedKind(H, P, s, p);
    assert p in c.files ==> SameHash(c.db.tree, s.db.tree, p) && p <= p;
  }
}
