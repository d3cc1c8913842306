/** From the client's handler to the end of the round: the loop over the buckets is one way of
    turning to the plan's entries, and whatever is finished in whatever order afterwards, both
    sides end with the merged files. */
module HandledRound {
  import opened Common
  import opened Paths
  import opened TreeView
  import opened TreeRuns
  import opened Index
  import opened SyncCommon
  import opened HashDiff
  import opened TreePlan
  import opened Equivalence
  import opened Replicas
  import opened Merge
  import opened Convergence
  import opened SyncRound
  import opened MerkleRound
  import opened NaiveRound
  import opened PlanHandlers
  import Transfer

  function EntryPaths(fs: seq<Finding>): seq<Path> {
    seq(|fs|, i requires 0 <= i < |fs| => fs[i].path)
  }

  lemma {:induction false} FlaggedPaths(b: DiffBucket, s: seq<(bool, Path)>, p: Path)
    ensures PathCount(EntryPaths(Flagged(b, s)), p) == FlaggedCount(s, p)
  {
    if s != [] {
      var t := s[..|s| - 1];
      assert EntryPaths(Flagged(b, s)) == EntryPaths(Flagged(b, t)) + [s[|s| - 1].1];
      PathSnoc(EntryPaths(Flagged(b, t)), s[|s| - 1].1, p);
      FlaggedPaths(b, t, p);
    }
  }

  lemma {:induction false} TimedPaths(b: DiffBucket, s: seq<TimedFileEntry>, p: Path)
    ensures PathCount(EntryPaths(Timed(b, s)), p) == TimedCount(s, p)
  {
    if s != [] {
      var t := s[..|s| - 1];
      assert EntryPaths(Timed(b, s)) == EntryPaths(Timed(b, t)) + [s[|s| - 1].path];
      PathSnoc(EntryPaths(Timed(b, t)), s[|s| - 1].path, p);
      TimedPaths(b, t, p);
    }
  }

  lemma EntryPathsAppend(a: seq<Finding>, b: seq<Finding>, p: Path)
    ensures PathCount(EntryPaths(a + b), p) == PathCount(EntryPaths(a), p) + PathCount(EntryPaths(b), p)
  {
    assert EntryPaths(a + b) == EntryPaths(a) + EntryPaths(b);
    PathCountAdds(EntryPaths(a), EntryPaths(b), p);
  }

  /** The entries name a path as often as the buckets do. */
  lemma EntriesCount(plan: Plan, p: Path)
    ensures PathCount(EntryPaths(EntriesOf(plan)), p) == Bucketed(plan, p)
  {
    hide EntryPaths, PathCount, FlaggedCount, TimedCount, Flagged, Timed;
    var a, b := Flagged(OnlyInLeft, plan.onlyInLeft), Flagged(OnlyInRight, plan.onlyInRight);
    var d, e := Timed(ModifiedWinsLeft, plan.modifiedWinsLeft), Timed(ModifiedWinsRight, plan.modifiedWinsRight);
    var f, g := Timed(DeletionWinsLeft, plan.deletionWinsLeft), Timed(DeletionWinsRight, plan.deletionWinsRight);
    FlaggedPaths(OnlyInLeft, plan.onlyInLeft, p);
    FlaggedPaths(OnlyInRight, plan.onlyInRight, p);
    TimedPaths(ModifiedWinsLeft, plan.modifiedWinsLeft, p);
    TimedPaths(ModifiedWinsRight, plan.modifiedWinsRight, p);
    TimedPaths(DeletionWinsLeft, plan.deletionWinsLeft, p);
    TimedPaths(DeletionWinsRight, plan.deletionWinsRight, p);
    EntryPathsAppend(a, b, p);
    EntryPathsAppend(a + b, d, p);
    EntryPathsAppend(a + b + d, e, p);
    EntryPathsAppend(a + b + d + e, f, p);
    EntryPathsAppend(a + b + d + e + f, g, p);
  }

  lemma EntriesListed(plan: Plan, f: Finding)
    ensures f in EntriesOf(plan) <==> f in PlanEntries(plan)
  {
    FlaggedIn(OnlyInLeft, plan.onlyInLeft, f);
    FlaggedIn(OnlyInRight, plan.onlyInRight, f);
    TimedIn(ModifiedWinsLeft, plan.modifiedWinsLeft, f);
    TimedIn(ModifiedWinsRight, plan.modifiedWinsRight, f);
    TimedIn(DeletionWinsLeft, plan.deletionWinsLeft, f);
    TimedIn(DeletionWinsRight, plan.deletionWinsRight, f);
    hide Flagged, Timed;
  }

  lemma FlaggedIn(b: DiffBucket, s: seq<(bool, Path)>, f: Finding)
    ensures f in Flagged(b, s) <==> exists e :: e in s && f == Finding(b, e.0, e.1, 0)
  {
    if e :| e in s && f == Finding(b, e.0, e.1, 0) {
      var i :| 0 <= i < |s| && s[i] == e;
      assert Flagged(b, s)[i] == f;
    }
  }

  lemma TimedIn(b: DiffBucket, s: seq<TimedFileEntry>, f: Finding)
    ensures f in Timed(b, s) <==> exists e :: e in s && f == Finding(b, true, e.path, e.mtime)
  {
    if e :| e in s && f == Finding(b, true, e.path, e.mtime) {
      var i :| 0 <= i < |s| && s[i] == e;
      assert Timed(b, s)[i] == f;
    }
  }

  /** The buckets mention no path twice. */
  predicate Once(plan: Plan, p: Path) {
    Bucketed(plan, p) <= 1
  }

  /** Then the entries are distinct. */
  lemma EntriesDistinct(plan: Plan)
    requires forall p :: Once(plan, p)
    ensures NoDup(EntriesOf(plan))
  {
    hide EntriesOf, Bucketed;
    var fs := EntriesOf(plan);
    forall p ensures PathCount(EntryPaths(fs), p) <= 1 {
      assert Once(plan, p);
      EntriesCount(plan, p);
    }
    PathCountNoDup(EntryPaths(fs));
    hide PathCount;
    forall i, j | 0 <= i < j < |fs| ensures fs[i] != fs[j] {
      assert EntryPaths(fs)[i] != EntryPaths(fs)[j];
    }
  }

  /** The entries of the plan in some order, each once. */
  ghost predicate Todo(o: Origin, fs: seq<Finding>) {
    Wf(o.client.db.tree) && NoDup(fs) && NoRoot(fs) && forall f :: f in fs <==> f in o.plan
  }

  lemma TodoFacts(o: Origin, plan: Plan)
    requires Founded(o) && o.plan == PlanEntries(plan) && forall p :: Once(plan, p)
    ensures Todo(o, EntriesOf(plan))
  {
    hide Wf, Founded, EntriesOf, PlanEntries, Once, NoDup;
    Sides(o);
    EntriesDistinct(plan);
    var fs := EntriesOf(plan);
    forall f ensures (f in fs <==> f in o.plan) && (f in fs ==> f.path != []) {
      EntriesListed(plan, f);
      if f in o.plan { EntryPath(o, f); }
    }
  }

  function Rest(fs: seq<Finding>, n: nat): set<Finding> {
    set i | n <= i < |fs| :: fs[i]
  }

  lemma RestNext(fs: seq<Finding>, n: nat)
    requires NoDup(fs) && n < |fs|
    ensures fs[n] in Rest(fs, n) && Rest(fs, n) - {fs[n]} == Rest(fs, n + 1)
  {
  }

  /** The client after the first n entries of its loops, the rest still to come. */
  ghost function AfterEntries(o: Origin, fs: seq<Finding>, n: nat): World
    requires Todo(o, fs) && n <= |fs|
  {
    var (client, tasks) := Carry(o.H, o.client, {}, fs[..n]);
    World(client, o.server, Rest(fs, n), tasks)
  }

  lemma NextEntry(o: Origin, fs: seq<Finding>, n: nat)
    requires Todo(o, fs) && n < |fs|
    ensures fs[n] in AfterEntries(o, fs, n).todo
    ensures Ready(AfterEntries(o, fs, n), Take(fs[n])) ==>
      AfterEntries(o, fs, n + 1) == Apply(o.H, AfterEntries(o, fs, n), Take(fs[n]))
  {
    hide Wf, Staged, Started, Carry, Rest;
    CarryNext(o.H, o.client, {}, fs, n);
    RestNext(fs, n);
  }

  /** The first n entries taken one after the other are a run. */
  lemma {:induction false} FirstEntriesAreRun(o: Origin, fs: seq<Finding>, n: nat)
    returns (run: seq<World>, events: seq<Event>)
    requires Founded(o) && Todo(o, fs) && n <= |fs|
    ensures |run| == |events| + 1 && IsRun(o, run, events) && run[|events|] == AfterEntries(o, fs, n)
  {
    hide Founded, Apply, Ready, Carry, Todo, AfterEntries, AtPlan, IsRun;
    if n == 0 {
      run, events := [AtPlan(o)], [];
      StartRun(o);
      NoneTaken(o, fs);
    } else {
      run, events := FirstEntriesAreRun(o, fs, n - 1);
      var e := Take(fs[n - 1]);
      NextEntry(o, fs, n - 1);
      NeverStuck(o, run, events, |events|, e);
      RunOn(o, run, events, e, AfterEntries(o, fs, n));
      run, events := run + [AfterEntries(o, fs, n)], events + [e];
    }
  }

  lemma StartRun(o: Origin)
    ensures IsRun(o, [AtPlan(o)], [])
  {
  }

  lemma NoneTaken(o: Origin, fs: seq<Finding>)
    requires Todo(o, fs)
    ensures AfterEntries(o, fs, 0) == AtPlan(o)
  {
    hide Wf;
    assert fs[..0] == [];
    assert Rest(fs, 0) == o.plan;
  }

  /** A run goes on with an enabled, expected event. */
  lemma RunOn(o: Origin, run: seq<World>, events: seq<Event>, e: Event, x: World)
    requires IsRun(o, run, events) && Enabled(run[|events|], e) && Ready(run[|events|], e)
    requires x == Apply(o.H, run[|events|], e)
    ensures IsRun(o, run + [x], events + [e])
  {
    hide Apply, Ready, AtPlan, Enabled;
    var r, s := run + [x], events + [e];
    forall i | 0 <= i < |s| ensures Enabled(r[i], s[i]) && Ready(r[i], s[i]) && r[i + 1] == Apply(o.H, r[i], s[i]) {
      if i < |events| {
        assert r[i] == run[i] && s[i] == events[i] && r[i + 1] == run[i + 1];
      }
    }
  }

  /** What happens after the handler: work is finished piece by piece. */
  ghost predicate Goes(o: Origin, run: seq<World>, events: seq<Event>) {
    && |run| == |events| + 1
    && forall i :: 0 <= i < |events| ==>
         Enabled(run[i], events[i]) && Ready(run[i], events[i]) && run[i + 1] == Apply(o.H, run[i], events[i])
  }

  lemma {:induction false} Continue(
      o: Origin, run: seq<World>, events: seq<Event>, rest: seq<World>, more: seq<Event>, n: nat)
    returns (all: seq<World>, done: seq<Event>)
    requires IsRun(o, run, events) && Goes(o, rest, more) && rest[0] == run[|events|] && n <= |more|
    ensures IsRun(o, all, done) && all[|done|] == rest[n]
  {
    hide Apply, Ready, AtPlan, Enabled;
    if n == 0 {
      all, done := run, events;
    } else {
      all, done := Continue(o, run, events, rest, more, n - 1);
      assert Enabled(rest[n - 1], more[n - 1]) && Ready(rest[n - 1], more[n - 1])
        && rest[n - 1 + 1] == Apply(o.H, rest[n - 1], more[n - 1]);
      RunOn(o, all, done, more[n - 1], rest[n]);
      all, done := all + [rest[n]], done + [more[n - 1]];
    }
  }

  /** The handler has gone through all entries; their work is under way. */
  ghost function Handled(o: Origin, fs: seq<Finding>): World
    requires Todo(o, fs)
  {
    var (client, tasks) := Carry(o.H, o.client, {}, fs);
    World(client, o.server, {}, tasks)
  }

  /** The handler's loops are a run of the round: entry after entry, nothing else in between. */
  lemma LoopsAreRun(o: Origin, plan: Plan) returns (run: seq<World>, events: seq<Event>)
    requires Founded(o) && o.plan == PlanEntries(plan) && forall p :: Once(plan, p)
    ensures |run| == |events| + 1 && IsRun(o, run, events)
    ensures Todo(o, EntriesOf(plan)) && run[|events|] == Handled(o, EntriesOf(plan))
  {
    hide Founded, Apply, Ready, Carry, AtPlan, Todo, IsRun, EntriesOf, PlanEntries;
    TodoFacts(o, plan);
    var fs := EntriesOf(plan);
    assert fs[..|fs|] == fs && Rest(fs, |fs|) == {};
    run, events := FirstEntriesAreRun(o, fs, |fs|);
  }

  lemma Enumerated(s: set<Path>) returns (order: seq<Path>)
    ensures NoDup(order) && forall p :: p in order <==> p in s
  {
    order := [];
    if s != {} {
      var p :| p in s;
      var rest := Enumerated(s - {p});
      order := rest + [p];
    }
  }

  /** Unless all is done something can happen. */
  lemma SomethingEnabled(x: World) returns (e: Event)
    requires !Finished(x)
    ensures Enabled(x, e)
  {
    if x.todo != {} {
      var f :| f in x.todo;
      e := Take(f);
    } else {
      var t :| t in x.tasks;
      var order := Enumerated(if t.Listed? then t.tombs.Keys else {});
      e := Done(t, 0, order);
    }
  }

  /** Where every transfer's count comes to an end every run can be carried to its end. */
  lemma {:induction false} RoundFinishes(o: Origin, run: seq<World>, events: seq<Event>)
    returns (all: seq<World>, done: seq<Event>)
    requires Founded(o) && Carriable(o) && IsRun(o, run, events)
    ensures IsRun(o, all, done) && run <= all && Finished(all[|done|])
    decreases |run[|events|].todo|, Count(run[|events|], 3), Count(run[|events|], 2), Count(run[|events|], 1),
      Count(run[|events|], 0)
  {
    hide Founded, Apply, Ready, AtPlan, Enabled, Closer, Count, Carriable;
    var x := run[|events|];
    if Finished(x) {
      all, done := run, events;
    } else {
      var e := SomethingEnabled(x);
      NeverStuck(o, run, events, |events|, e);
      var y := Apply(o.H, x, e);
      RunOn(o, run, events, e, y);
      RunEnds(o.H, x, e);
      CloserCounts(y, x);
      all, done := RoundFinishes(o, run + [y], events + [e]);
    }
  }

  /** Some run comes to its end, with this outcome. */
  ghost predicate Ends(o: Origin, x: World) {
    exists run: seq<World>, events: seq<Event> ::
      |run| == |events| + 1 && IsRun(o, run, events) && Finished(run[|events|]) && run[|events|] == x
  }

  /** A round comes to its end if and only if every file it decides to move has a count of chunks with which
      the transfer ends: not zero, and for a download not the largest 32-bit number. */
  lemma FinishesExactly(o: Origin)
    requires Founded(o)
    ensures (exists x :: Ends(o, x)) <==> Carriable(o)
  {
    hide IsRun, Carriable, Founded;
    if Carriable(o) {
      StartRun(o);
      var run, events := RoundFinishes(o, [AtPlan(o)], []);
      RunLength(o, run, events);
      assert Ends(o, run[|events|]);
    }
    if x :| Ends(o, x) {
      var run: seq<World>, events: seq<Event> :|
        |run| == |events| + 1 && IsRun(o, run, events) && Finished(run[|events|]) && run[|events|] == x;
      FinishedCarriable(o, run, events);
    }
  }

  lemma RunLength(o: Origin, run: seq<World>, events: seq<Event>)
    requires IsRun(o, run, events)
    ensures |run| == |events| + 1
  {
    hide AtPlan, Enabled, Ready, Apply;
  }

  /** It ends with every transfer an exact copy if and only if every file it decides to move has contents and
      no more chunks than can be counted, for a download one less. */
  lemma FinishesWhole(o: Origin)
    requires Founded(o)
    ensures (exists x :: Ends(o, x)) && Exact(o) <==> forall p :: p in o.P ==> WholeMoves(o, p)
  {
    hide Founded, Ends, Bucket;
    FinishesExactly(o);
    forall p | p in o.P ensures WholeMoves(o, p) <==> CanMove(o, p) && !Truncates(o, p) {
      Holders(o, p);
      WholeExactly(o, p);
    }
    hide WholeMoves, CanMove, Truncates;
  }

  ghost predicate WholeMoves(o: Origin, p: Path) {
    && (MovesUp(Bucket(o, p)) ==> p in o.client.files && Transfer.Countable(o.client.files[p]))
    && (MovesDown(Bucket(o, p)) ==> p in o.server.files && Transfer.CountableDown(o.server.files[p]))
  }

  lemma WholeExactly(o: Origin, p: Path)
    requires MovesUp(Bucket(o, p)) ==> p in o.client.files
    requires MovesDown(Bucket(o, p)) ==> p in o.server.files
    ensures WholeMoves(o, p) <==> CanMove(o, p) && !Truncates(o, p)
  {
    hide Bucket, Transfer.Uploads, Transfer.Downloads, Transfer.Copy, Transfer.Countable, Transfer.CountableDown;
    if p in o.client.files { Transfer.WholeCopies(o.client.files[p]); }
    if p in o.server.files { Transfer.WholeCopies(o.server.files[p]); }
  }

  // ----- the whole way -----

  /** The client's handler has gone through a plan that leaves no difference out, the work it started and all
      that follows is finished in any order; then both sides hold the same files, the later version of each, if
      and only if no copy was cut short. */
  lemma HandledConverges(o: Origin, plan: Plan, rest: seq<World>, more: seq<Event>)
    requires Founded(o) && o.plan == PlanEntries(plan) && (forall p :: Once(plan, p))
    requires forall p :: p in o.P ==> !Unplanned(o, p)
    requires Goes(o, rest, more) && Finished(rest[|more|])
    requires (TodoFacts(o, plan); rest[0] == Handled(o, EntriesOf(plan)))
    ensures forall p :: p in o.client.files ==> p in o.client.db.mtimes
    ensures forall p :: p in o.server.files ==> p in o.server.db.mtimes
    ensures var x := rest[|more|];
      x.client.files == x.server.files && (forall p :: Held(x.client, p) == Merged(o.client, o.server, p)) <==> Exact(o)
  {
    hide Founded, Apply, Ready, Carry, AtPlan, Todo, IsRun, Exact, Unplanned, Once, PlanEntries, EntriesOf;
    TodoFacts(o, plan);
    var run, events := LoopsAreRun(o, plan);
    var all, done := Continue(o, run, events, rest, more, |more|);
    PlanConvergesAll(o, all, done);
  }

  /** With the plan of the tree negotiation, where equal hashes mean equal contents. */
  lemma HandledRoundConverges(o: Origin, rest: seq<World>, more: seq<Event>)
    requires ClashFree(o.P) && Scanned(o.H, o.P, o.client) && Scanned(o.H, o.P, o.server)
    requires Wf(o.client.db.tree) && Wf(o.server.db.tree) && o == MerkleOrigin(o.H, o.P, o.client, o.server)
    requires DigestTells(o.H, o.client, o.server) && HashesTell(o.client.db.tree, o.server.db.tree)
    requires Goes(o, rest, more) && Finished(rest[|more|])
    requires (MerkleHandled(o); rest[0] == Handled(o, EntriesOf(MerklePlan(o.client.db.tree, o.server.db.tree))))
    ensures forall p :: p in o.client.files ==> p in o.client.db.mtimes
    ensures forall p :: p in o.server.files ==> p in o.server.db.mtimes
    ensures var x := rest[|more|];
      x.client.files == x.server.files && (forall p :: Held(x.client, p) == Merged(o.client, o.server, p)) <==> Exact(o)
  {
    hide Scanned, Wf, Goes, Finished, DigestTells, HashesTell, Exact, Unplanned, Once, Todo, Carry, EntriesOf;
    hide Founded, MerklePlan, Overlooked, PlanEntries;
    MerkleHandled(o);
    forall p | p in o.P ensures !Unplanned(o, p) {
      UnplannedHidden(o.H, o.P, o.client, o.server, p);
      NoneOverlooked(o.H, o.P, o.client, o.server, p);
    }
    HandledConverges(o, MerklePlan(o.client.db.tree, o.server.db.tree), rest, more);
  }

  lemma MerkleHandled(o: Origin)
    requires ClashFree(o.P) && Scanned(o.H, o.P, o.client) && Scanned(o.H, o.P, o.server)
    requires Wf(o.client.db.tree) && Wf(o.server.db.tree) && o == MerkleOrigin(o.H, o.P, o.client, o.server)
    ensures var plan := MerklePlan(o.client.db.tree, o.server.db.tree);
      Founded(o) && o.plan == PlanEntries(plan) && (forall p :: Once(plan, p)) && Todo(o, EntriesOf(plan))
  {
    hide Scanned, Wf, MerklePlan, PlanEntries, Founded, Todo, Bucketed;
    MerkleFounded(o.H, o.P, o.client, o.server);
    var plan := MerklePlan(o.client.db.tree, o.server.db.tree);
    forall p ensures Once(plan, p) {
      PlanOnce(o.client.db.tree, o.server.db.tree, p);
    }
    TodoFacts(o, plan);
  }

  /** With the plan of the simple negotiation, where no tombstone is left over. */
  lemma HandledNaiveConverges(o: Origin, plan: Plan, rest: seq<World>, more: seq<Event>)
    requires ClashFree(o.P) && Scanned(o.H, o.P, o.client) && Scanned(o.H, o.P, o.server)
    requires NaivePlan(o.client.db, o.server.db, plan) && o.plan == PlanEntries(plan)
    requires Leftoverless(o.client.db, o.server.db) && DigestTells(o.H, o.client, o.server)
    requires Goes(o, rest, more) && Finished(rest[|more|])
    requires (NaiveHandled(o, plan); rest[0] == Handled(o, EntriesOf(plan)))
    ensures forall p :: p in o.client.files ==> p in o.client.db.mtimes
    ensures forall p :: p in o.server.files ==> p in o.server.db.mtimes
    ensures var x := rest[|more|];
      x.client.files == x.server.files && (forall p :: Held(x.client, p) == Merged(o.client, o.server, p)) <==> Exact(o)
  {
    hide Scanned, Goes, Finished, DigestTells, Exact, Unplanned, Once, Todo, Carry, EntriesOf, Founded, PlanEntries;
    hide NaivePlan, Leftoverless;
    NaiveHandled(o, plan);
    forall p ensures !Unplanned(o, p) {
      NaiveComplete(o.H, o.P, o.client, o.server, plan, p);
    }
    HandledConverges(o, plan, rest, more);
  }

  lemma NaiveHandled(o: Origin, plan: Plan)
    requires ClashFree(o.P) && Scanned(o.H, o.P, o.client) && Scanned(o.H, o.P, o.server)
    requires NaivePlan(o.client.db, o.server.db, plan) && o.plan == PlanEntries(plan)
    requires Leftoverless(o.client.db, o.server.db)
    ensures Founded(o) && (forall p :: Once(plan, p)) && Todo(o, EntriesOf(plan))
  {
    hide Scanned, PlanEntries, Founded, Todo, Bucketed, NaivePlan, Leftoverless;
    NaiveFounded(o, plan);
    forall p ensures Once(plan, p) {
      NaiveOnce(o.client.db, o.server.db, plan, p);
    }
    TodoFacts(o, plan);
  }
}
