/** Runs of a round, for any plan that fits the two sides: no handler is surprised, every run is short, and
    it is known exactly what both sides hold in the end. */
module SyncRound {
  import opened Common
  import opened Paths
  import opened TreeView
  import opened Index
  import opened SyncCommon
  import opened Replicas
  import opened Merge
  import opened Convergence

  function PlanEntries(plan: Plan): set<Finding> {
    (set e | e in plan.onlyInLeft :: Finding(OnlyInLeft, e.0, e.1, 0))
    + (set e | e in plan.onlyInRight :: Finding(OnlyInRight, e.0, e.1, 0))
    + (set e | e in plan.modifiedWinsLeft :: Finding(ModifiedWinsLeft, true, e.path, e.mtime))
    + (set e | e in plan.modifiedWinsRight :: Finding(ModifiedWinsRight, true, e.path, e.mtime))
    + (set e | e in plan.deletionWinsLeft :: Finding(DeletionWinsLeft, true, e.path, e.mtime))
    + (set e | e in plan.deletionWinsRight :: Finding(DeletionWinsRight, true, e.path, e.mtime))
  }

  lemma EntriesExact(plan: Plan, f: Finding)
    ensures f in PlanEntries(plan) <==> Has(plan, f) && !f.bucket.NeedsDirectoryCheck?
  {
  }

  /** The plan is made, nothing of it has been done. */
  function AtPlan(o: Origin): World {
    World(o.client, o.server, o.plan, {})
  }

  lemma BeginFresh(o: Origin, f: Finding)
    requires Founded(o) && FromPlan(o, f)
    ensures Fresh(AtPlan(o), f)
  {
    hide Founded, Bucket;
    DeletionIsFile(o, f);
    if f.isFile { PlanFile(o, f); }
    if Remote(f) {
      forall p | f.path < p ensures p !in o.client.files {
        PlanDir(o, f, p);
      }
    }
  }

  lemma BeginPlaced(o: Origin, p: Path)
    ensures Placed(o, AtPlan(o), p)
  {
    hide BucketAt, CanMove, Landed;
    if f :| f in o.plan && (f.path == p || (!f.isFile && f.path < p)) {
      assert f in AtPlan(o).todo;
    }
  }

  lemma BeginInv(o: Origin)
    requires Founded(o)
    ensures Inv(o, AtPlan(o))
  {
    hide Tracked, RightFile, RightDir, Placed, Fresh, Honest;
    Sides(o);
    assert forall p :: Honest(o.H, o.client, p) && Honest(o.H, o.server, p);
    forall f | f in o.plan ensures Fresh(AtPlan(o), f) {
      BeginFresh(o, f);
    }
    forall p | p in o.P ensures Placed(o, AtPlan(o), p) {
      BeginPlaced(o, p);
    }
  }

  // ----- runs -----

  /** An event that can happen: an entry left, a task under way, a listing read in any order. */
  ghost predicate Enabled(x: World, e: Event) {
    match e
    case Take(f) => f in x.todo
    case Done(t, _, order) =>
      t in x.tasks && (t.Listed? ==> NoDup(order) && forall p :: p in order <==> p in t.tombs)
  }

  /** A schedule: one enabled event after the other. */
  ghost predicate IsRun(o: Origin, run: seq<World>, events: seq<Event>) {
    && |run| == |events| + 1 && run[0] == AtPlan(o)
    && forall i :: 0 <= i < |events| ==>
         Enabled(run[i], events[i]) && Ready(run[i], events[i]) && run[i + 1] == Apply(o.H, run[i], events[i])
  }

  lemma {:induction false} RunInv(o: Origin, run: seq<World>, events: seq<Event>, i: nat)
    requires Founded(o) && IsRun(o, run, events) && i < |run|
    ensures Inv(o, run[i])
  {
    hide Founded, Inv, Apply, Ready, AtPlan;
    BeginInv(o);
    if i > 0 {
      RunInv(o, run, events, i - 1);
      assert Ready(run[i - 1], events[i - 1]) && run[i - 1 + 1] == Apply(o.H, run[i - 1], events[i - 1]);
      InvApply(o, run[i - 1], events[i - 1]);
    }
  }

  /** No handler meets a missing file, an unknown hash or an unusable tree: whatever can happen next finds
      what it expects, except a transfer exactly where its count of chunks does not come to an end. Where no
      such file is to be moved there is no exception. */
  lemma NeverStuck(o: Origin, run: seq<World>, events: seq<Event>, i: nat, e: Event)
    requires Founded(o) && IsRun(o, run, events) && i < |run| && Enabled(run[i], e)
    ensures Ready(run[i], e) <==> (e.Done? ==> Movable(run[i], e.task))
    ensures Carriable(o) ==> Ready(run[i], e)
  {
    hide Founded, Movable, Carriable, Inv, Apply, Ready, AtPlan;
    RunInv(o, run, events, i);
    InvReady(o, run[i], e);
  }

  predicate Finished(x: World) {
    x.todo == {} && x.tasks == {}
  }

  /** A round that came to its end had nothing to move whose transfer comes to none. */
  lemma FinishedCarriable(o: Origin, run: seq<World>, events: seq<Event>)
    requires Founded(o) && IsRun(o, run, events) && Finished(run[|events|])
    ensures Carriable(o)
  {
    var x := run[|events|];
    hide Founded, IsRun, Inv, Bucket, CanMove, Truthful, Standing, Covered, Finished;
    RunInv(o, run, events, |events|);
    forall p | p in o.P ensures CanMove(o, p) {
      PlacedAt(o, x, p);
      NothingCovers(x, p);
      if !MovesUp(Bucket(o, p)) && !MovesDown(Bucket(o, p)) {
        NotMoved(o, p);
      }
    }
  }

  /** The plan has nothing about a path whose contents differ. */
  ghost predicate Unplanned(o: Origin, p: Path) {
    !Reached(o, p) && Held(o.client, p) != Held(o.server, p)
  }

  /** With nothing left to come for p both sides hold the merged version under exactly these conditions. */
  lemma SettledMerged(o: Origin, x: World, p: Path)
    requires Founded(o) && Placed(o, x, p) && !Covered(x, p) && p in o.P
    ensures p in o.client.files ==> p in o.client.db.mtimes
    ensures p in o.server.files ==> p in o.server.db.mtimes
    ensures Held(x.client, p) == Held(x.server, p) == Merged(o.client, o.server, p) <==>
      !Unplanned(o, p) && !Truncates(o, p)
  {
    hide Founded, Scanned, Tracked, BucketAt, Reached, Covered, CanMove, Merged, Held, CopyOf;
    Sides(o);
    DeletionHeld(o, p);
    DecisionMeaning(o.H, o.P, o.client, o.server, p);
  }

  /** Where a deletion wins the winner holds nothing. */
  lemma DeletionHeld(o: Origin, p: Path)
    requires Founded(o) && p in o.P
    ensures Bucket(o, p).DeletionWinsLeft? ==> Held(o.client, p) == None
    ensures Bucket(o, p).DeletionWinsRight? ==> Held(o.server, p) == None
  {
    hide Founded, Bucket;
    Holders(o, p);
  }

  /** Convergence, file by file: when everything is done, in whatever order, both sides hold the merged
      version, if and only if the plan did not leave a difference out and no copy was cut short. */
  lemma PlanConverges(o: Origin, run: seq<World>, events: seq<Event>, p: Path)
    requires Founded(o) && IsRun(o, run, events) && Finished(run[|events|]) && p in o.P
    ensures p in o.client.files ==> p in o.client.db.mtimes
    ensures p in o.server.files ==> p in o.server.db.mtimes
    ensures var x := run[|events|];
      Held(x.client, p) == Held(x.server, p) == Merged(o.client, o.server, p) <==>
        !Unplanned(o, p) && !Truncates(o, p)
  {
    var x := run[|events|];
    hide Founded, IsRun, Inv, Placed, Merged, Held, Unplanned, Truncates, Finished, Covered;
    RunInv(o, run, events, |events|);
    PlacedAt(o, x, p);
    NothingCovers(x, p);
    SettledMerged(o, x, p);
  }

  lemma NothingCovers(x: World, p: Path)
    requires Finished(x)
    ensures !Covered(x, p)
  {
  }

  lemma BeginNoted(o: Origin, p: Path)
    requires Founded(o) && p in o.P
    ensures Noted(o, AtPlan(o), p)
  {
    hide Founded, Bucket, BucketAt, Scanned, Tracked;
    Sides(o);
    Holders(o, p);
    TrackedFile(o.H, o.P, o.client, p);
    TrackedFile(o.H, o.P, o.server, p);
    BeginInv(o);
    PlacedAt(o, AtPlan(o), p);
    hide Covered, Inv, TakenOver;
    if MovesUp(Bucket(o, p)) || MovesDown(Bucket(o, p)) { BeginCovered(o, p); }
  }

  lemma BeginCovered(o: Origin, p: Path)
    requires !Bucket(o, p).InSync?
    ensures Covered(AtPlan(o), p)
  {
    hide BucketAt;
    var f :| f in o.plan && (f.path == p || (!f.isFile && f.path < p));
    assert f in AtPlan(o).todo;
  }

  lemma {:induction false} RunNoted(o: Origin, run: seq<World>, events: seq<Event>, i: nat, p: Path)
    requires Founded(o) && IsRun(o, run, events) && i < |run| && p in o.P
    ensures Noted(o, run[i], p)
  {
    hide Founded, Inv, Apply, Ready, AtPlan, Enabled, Noted;
    if i == 0 {
      BeginNoted(o, p);
    } else {
      RunNoted(o, run, events, i - 1, p);
      RunInv(o, run, events, i - 1);
      assert Ready(run[i - 1], events[i - 1]) && run[i - 1 + 1] == Apply(o.H, run[i - 1], events[i - 1]);
      NotedNext(o, run[i - 1], events[i - 1], p);
    }
  }

  /** What the databases record about a path after the round: where a file was moved the loser tracks it under
      the winner's time and hash, where a deletion won the loser remembers the winner's deletion time and tracks
      nothing, and otherwise both say what they said. The winner's entry stays, but for the time of a deletion
      the client won. */
  ghost predicate Settled(o: Origin, c: Db, s: Db, p: Path) {
    var was, theirs := o.client.db, o.server.db;
    match Bucket(o, p)
    case OnlyInLeft => TakenOver(was, s, p) && SameEntry(c, was, p)
    case ModifiedWinsLeft => TakenOver(was, s, p) && SameEntry(c, was, p)
    case OnlyInRight => TakenOver(theirs, c, p) && SameEntry(s, theirs, p)
    case ModifiedWinsRight => TakenOver(theirs, c, p) && SameEntry(s, theirs, p)
    case DeletionWinsLeft => Dropped(was, s, p) && p !in c.mtimes && p in c.tombs
    case DeletionWinsRight => Dropped(theirs, c, p) && SameEntry(s, theirs, p)
    case _ => SameEntry(c, was, p) && SameEntry(s, theirs, p)
  }

  lemma RecordsSettle(o: Origin, run: seq<World>, events: seq<Event>, p: Path)
    requires Founded(o) && IsRun(o, run, events) && Finished(run[|events|]) && p in o.P
    ensures Settled(o, run[|events|].client.db, run[|events|].server.db, p)
  {
    var x := run[|events|];
    hide Founded, IsRun, Inv, Finished, Placed, Noted, Remembered, Bucket, Settled;
    RunInv(o, run, events, |events|);
    RunNoted(o, run, events, |events|, p);
    if Bucket(o, p).DeletionWinsLeft? {
      ClientRemembers(o, run, events, |events|, p);
      RememberedIn(o, run, events, |events|, p);
    }
    SettledAt(o, x, p);
  }

  lemma RememberedIn(o: Origin, run: seq<World>, events: seq<Event>, i: nat, p: Path)
    requires i < |run| && i <= |events| && Remembered(o, run, events, i, p)
    ensures p in run[i].client.db.tombs
  {
  }

  lemma SettledAt(o: Origin, x: World, p: Path)
    requires Founded(o) && Inv(o, x) && Finished(x) && p in o.P && Noted(o, x, p)
    requires Bucket(o, p).DeletionWinsLeft? ==> p in x.client.db.tombs
    ensures Settled(o, x.client.db, x.server.db, p)
  {
    hide Founded, Inv, Finished, Covered, Bucket, CanMove, SameEntry, TakenOver, Tracked, Scanned;
    PlacedAt(o, x, p);
    NothingCovers(x, p);
    InvTracked(o, x);
    Holders(o, p);
    TrackedFile(o.H, o.P, x.client, p);
    TrackedFile(o.H, o.P, x.server, p);
    BucketNoCheck(o, p);
  }

  lemma BucketNoCheck(o: Origin, p: Path)
    requires Founded(o) && p in o.P
    ensures !Bucket(o, p).NeedsDirectoryCheck?
  {
    hide Founded, Scanned, Tracked, BucketAt, Reached, Merged;
    Sides(o);
    DecisionMeaning(o.H, o.P, o.client, o.server, p);
  }

  lemma DeletionTimed(o: Origin, p: Path)
    requires Founded(o) && p in o.P && Bucket(o, p).DeletionWinsLeft?
    ensures p in o.client.db.tombs
  {
    Holders(o, p);
    hide Founded, BucketAt;
    var f :| f in o.plan && (f.path == p || (!f.isFile && f.path < p));
    if f.isFile { PlanFile(o, f); } else { PlanDir(o, f, p); }
  }

  /** Of a deletion the client won it remembers its own time, or that of a reply. */
  ghost predicate Remembered(o: Origin, run: seq<World>, events: seq<Event>, i: nat, p: Path)
    requires i < |run| && i <= |events|
  {
    var tombs := run[i].client.db.tombs;
    && p in tombs
    && ((p in o.client.db.tombs && tombs[p] == o.client.db.tombs[p])
        || exists k :: 0 <= k < i && Acknowledged(events[k], p, tombs[p]))
  }

  predicate Acknowledged(e: Event, p: Path, at: Time) {
    e.Done? && e.task == Acking(p) && e.replied == at
  }

  lemma {:induction false} ClientRemembers(o: Origin, run: seq<World>, events: seq<Event>, i: nat, p: Path)
    requires Founded(o) && IsRun(o, run, events) && i < |run| && p in o.P && Bucket(o, p).DeletionWinsLeft?
    ensures Remembered(o, run, events, i, p)
  {
    hide Founded, Inv, Apply, Ready, Enabled, Bucket;
    DeletionTimed(o, p);
    if i > 0 {
      ClientRemembers(o, run, events, i - 1, p);
      RunInv(o, run, events, i - 1);
      var x, e := run[i - 1], events[i - 1];
      assert Ready(x, e) && run[i - 1 + 1] == Apply(o.H, x, e);
      TombKept(o, x, e, p);
      var at := run[i].client.db.tombs[p];
      if !Acknowledged(e, p, at) && exists k :: 0 <= k < i - 1 && Acknowledged(events[k], p, at) {
        var k :| 0 <= k < i - 1 && Acknowledged(events[k], p, at);
      }
    }
  }

  lemma TombKept(o: Origin, x: World, e: Event, p: Path)
    requires Founded(o) && Inv(o, x) && Ready(x, e) && p in o.P && Bucket(o, p).DeletionWinsLeft?
    requires p in x.client.db.tombs
    ensures var y := Apply(o.H, x, e);
      p in y.client.db.tombs
      && (y.client.db.tombs[p] == x.client.db.tombs[p] || Acknowledged(e, p, y.client.db.tombs[p]))
  {
    hide Founded, Inv, Apply, Wf, Addable, Movable, Started, Followed, Bucket;
    EventEffect(o, x, e);
    if e.Take? {
      TodoFromPlan(o, x, e.entry);
      DeletionIsFile(o, e.entry);
      if e.entry.isFile { PlanFile(o, e.entry); }
    }
  }

  /** Where the plan leaves no difference out both sides end with the same files, the merged ones, if and
      only if no copy is cut short; and they are scanned then. */
  lemma PlanConvergesAll(o: Origin, run: seq<World>, events: seq<Event>)
    requires Founded(o) && IsRun(o, run, events) && Finished(run[|events|])
    requires forall p :: p in o.P ==> !Unplanned(o, p)
    ensures forall p :: p in o.client.files ==> p in o.client.db.mtimes
    ensures forall p :: p in o.server.files ==> p in o.server.db.mtimes
    ensures var x := run[|events|];
      x.client.files == x.server.files && (forall p :: Held(x.client, p) == Merged(o.client, o.server, p)) <==> Exact(o)
    ensures var x := run[|events|];
      Exact(o) ==> Scanned(o.H, o.P, x.client) && Scanned(o.H, o.P, x.server)
  {
    hide Founded, Scanned, Tracked, Apply, Ready, Fresh, Fair, Quiet, Placed, Truncates, Unplanned, Honest;
    var x := run[|events|];
    hide IsRun;
    RunInv(o, run, events, |events|);
    Sides(o);
    forall p
      ensures p in o.client.files ==> p in o.client.db.mtimes
      ensures p in o.server.files ==> p in o.server.db.mtimes
      ensures Held(x.client, p) == Held(x.server, p) == Merged(o.client, o.server, p) <==> p !in o.P || !Truncates(o, p)
      ensures p !in o.P || !Truncates(o, p) ==> Honest(o.H, x.client, p) && Honest(o.H, x.server, p)
    {
      TrackedFile(o.H, o.P, o.client, p);
      TrackedFile(o.H, o.P, o.server, p);
      TrackedFile(o.H, o.P, x.client, p);
      TrackedFile(o.H, o.P, x.server, p);
      if p in o.P {
        PlanConverges(o, run, events, p);
        PlacedAt(o, x, p);
      } else {
        AbsentHonest(o.H, x.client, p);
        AbsentHonest(o.H, x.server, p);
      }
    }
    hide Inv;
    if Exact(o) {
      SameFiles(x);
      AllHonest(o.H, o.P, x.client);
      AllHonest(o.H, o.P, x.server);
    }
    if x.client.files == x.server.files {
      assert forall p :: Held(x.client, p) == Held(x.server, p);
    }
  }

  lemma AbsentHonest(H: Hasher, r: Replica, p: Path)
    requires p !in r.files
    ensures Honest(H, r, p)
  {
  }

  lemma AllHonest(H: Hasher, P: iset<Path>, r: Replica)
    requires Tracked(H, P, r) && forall p :: Honest(H, r, p)
    ensures Scanned(H, P, r)
  {
    hide Tracked, Honest;
  }

  lemma SameFiles(x: World)
    requires forall p :: Held(x.client, p) == Held(x.server, p)
    ensures x.client.files == x.server.files
  {
    forall p
      ensures p in x.client.files <==> p in x.server.files
      ensures p in x.client.files && p in x.server.files ==> x.client.files[p] == x.server.files[p]
    {
      assert Held(x.client, p) == Held(x.server, p);
    }
  }

  // ----- every run ends -----

  /** How far a task is from leaving nothing behind. */
  function Height(t: Task): nat {
    match t
    case Ask(_) => 3
    case Listed(_, _, _) => 2
    case Erasing(_, _) => 1
    case _ => 0
  }

  function Count(x: World, k: nat): nat {
    |set t | t in x.tasks && Height(t) == k|
  }

  /** Fewer entries left; or as many, and fewer tasks of some stage with no more of the stages above. */
  ghost predicate Closer(y: World, x: World) {
    || |y.todo| < |x.todo|
    || (y.todo == x.todo && exists k: nat ::
          Count(y, k) < Count(x, k) && forall j: nat :: j > k ==> Count(y, j) <= Count(x, j))
  }

  /** Every event brings the round closer to its end. */
  lemma RunEnds(H: Hasher, x: World, e: Event)
    requires Enabled(x, e) && Ready(x, e)
    ensures Closer(Apply(H, x, e), x)
  {
    hide Apply, Wf, Addable, Closer, Movable;
    var y := Apply(H, x, e);
    EventTasks(H, x, e);
    match e {
      case Take(f) =>
        Fewer(x.todo, f);
        assert Closer(y, x) by { TakenCloser(x, y); }
      case Done(t, _, _) => FinishedCloser(x, y, t);
    }
  }

  lemma TakenCloser(x: World, y: World)
    requires |y.todo| < |x.todo|
    ensures Closer(y, x)
  {
  }

  lemma Fewer<T>(s: set<T>, a: T)
    requires a in s
    ensures |s - {a}| < |s|
  {
  }

  lemma EventTasks(H: Hasher, x: World, e: Event)
    requires Ready(x, e)
    ensures e.Take? ==> Apply(H, x, e).todo == x.todo - {e.entry}
    ensures e.Done? ==>
      Apply(H, x, e).todo == x.todo && Apply(H, x, e).tasks == x.tasks - {e.task} + Followed(x.server, e.task)
  {
    hide Wf, Addable, Store, Erase, RecordDeletion, ApplyTombstones, ApplyTombstone, DeleteView, Started, Followed;
  }

  lemma FollowedLower(s: Replica, t: Task, u: Task)
    requires u in Followed(s, t)
    ensures Height(u) < Height(t)
  {
  }

  lemma FinishedCloser(x: World, y: World, t: Task)
    requires t in x.tasks && y.todo == x.todo && y.tasks == x.tasks - {t} + Followed(x.server, t)
    ensures Closer(y, x)
  {
    hide Followed, Height;
    var k := Height(t);
    forall j: nat | j >= k ensures Count(y, j) <= Count(x, j) && (j == k ==> Count(y, j) < Count(x, j)) {
      var a, b := (set u | u in y.tasks && Height(u) == j), (set u | u in x.tasks && Height(u) == j);
      forall u | u in a ensures u in b && u != t {
        if u in Followed(x.server, t) { FollowedLower(x.server, t, u); }
      }
      Subset(a, if j == k then b - {t} else b);
      if j == k { Fewer(b, t); }
    }
    assert Count(y, k) < Count(x, k);
  }

  lemma Subset<T>(a: set<T>, b: set<T>)
    requires a <= b
    ensures |a| <= |b|
  {
    if a != {} {
      var x :| x in a;
      Subset(a - {x}, b - {x});
    }
  }

  /** The numbers that go down, read from the left. */
  lemma CloserCounts(y: World, x: World)
    requires Closer(y, x)
    ensures |y.todo| < |x.todo| || (y.todo == x.todo && FewerAbove(y, x))
  {
    forall k | k > 3 ensures Count(x, k) == 0 {
      assert (set t | t in x.tasks && Height(t) == k) == {};
    }
    hide Count;
    if |y.todo| >= |x.todo| {
      var k: nat :| Count(y, k) < Count(x, k) && forall j: nat :: j > k ==> Count(y, j) <= Count(x, j);
      assert k <= 3;
    }
  }

  predicate FewerAbove(y: World, x: World) {
    || Count(y, 3) < Count(x, 3)
    || (Count(y, 3) == Count(x, 3) && Count(y, 2) < Count(x, 2))
    || (Count(y, 3) == Count(x, 3) && Count(y, 2) == Count(x, 2) && Count(y, 1) < Count(x, 1))
    || (Count(y, 3) == Count(x, 3) && Count(y, 2) == Count(x, 2) && Count(y, 1) == Count(x, 1)
        && Count(y, 0) < Count(x, 0))
  }

  /** No schedule goes on for ever, from whatever state it starts. */
  lemma NoEndlessSchedule(H: Hasher, w: nat -> World, e: nat -> Event)
    requires forall i: nat :: Enabled(w(i), e(i)) && Ready(w(i), e(i)) && w(i + 1) == Apply(H, w(i), e(i))
    ensures false
  {
    EndlessFrom(H, w, e, 0);
  }

  lemma {:induction false} EndlessFrom(H: Hasher, w: nat -> World, e: nat -> Event, n: nat)
    requires forall i: nat :: Enabled(w(i), e(i)) && Ready(w(i), e(i)) && w(i + 1) == Apply(H, w(i), e(i))
    ensures false
    decreases |w(n).todo|, Count(w(n), 3), Count(w(n), 2), Count(w(n), 1), Count(w(n), 0)
  {
    hide Enabled, Ready, Apply, Closer, Count;
    RunEnds(H, w(n), e(n));
    assert w(n + 1) == Apply(H, w(n), e(n));
    CloserCounts(w(n + 1), w(n));
    EndlessFrom(H, w, e, n + 1);
  }
}
