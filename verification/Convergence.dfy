/** Carrying out a plan. The entries of the plan, the running transfers, the listings and the deletion
    requests may be served in any order. */
module Convergence {
  import opened Common
  import opened Paths
  import opened TreeView
  import opened TreeRuns
  import opened Index
  import opened SyncCommon
  import opened Negotiation
  import opened Replicas
  import opened Merge
  import Transfer

  /** Work under way: transfers, a directory listing asked for or on its way back, a deletion
      asked for or being acknowledged. */
  datatype Task =
    | Up(path: Path)
    | Down(path: Path)
    | Ask(path: Path)
    | Listed(path: Path, files: set<Path>, tombs: map<Path, Time>)
    | Erasing(path: Path, at: Time)
    | Acking(path: Path)

  datatype World = World(client: Replica, server: Replica, todo: set<Finding>, tasks: set<Task>)

  datatype Event =
    | Take(entry: Finding)                                    // the client turns to a plan entry
    | Done(task: Task, replied: Time, order: seq<Path>)       // a piece of work is finished

  // ----- the actions -----

  /** The work a plan entry starts: a directory entry becomes uploads of the files beneath it,
      or a request for the server's listing. */
  function Started(c: Replica, f: Finding): set<Task> {
    match f.bucket
    case OnlyInLeft => if f.isFile then {Up(f.path)} else set q | q in c.files && f.path <= q :: Up(q)
    case OnlyInRight => if f.isFile then {Down(f.path)} else {Ask(f.path)}
    case ModifiedWinsLeft => {Up(f.path)}
    case ModifiedWinsRight => {Down(f.path)}
    case DeletionWinsLeft => {Erasing(f.path, f.time)}
    case _ => {}
  }

  /** The server's listing of what is strictly below a directory. */
  function ListingBelow(s: Replica, d: Path): Task {
    Listed(d, set p | p in s.db.mtimes && d < p, map p | p in s.db.tombs && d < p :: s.db.tombs[p])
  }

  /** The work that follows on a finished piece of work. */
  function Followed(s: Replica, t: Task): set<Task> {
    match t
    case Ask(d) => {ListingBelow(s, d)}
    case Listed(_, files, _) => set q | q in files :: Down(q)
    case Erasing(p, _) => {Acking(p)}
    case _ => {}
  }

  /** A tombstone from the server matters only where the file exists locally. */
  ghost function ApplyTombstone(H: Hasher, c: Replica, p: Path, at: Time): Replica
    requires Wf(c.db.tree) && p != []
  {
    if p in c.files then Erase(H, c, p, at) else c
  }

  ghost function ApplyTombstones(H: Hasher, c: Replica, tombs: map<Path, Time>, order: seq<Path>): (r: Replica)
    requires Wf(c.db.tree) && forall p :: p in order ==> p in tombs && p != []
    ensures Wf(r.db.tree)
  {
    if order == [] then c
    else
      var i := |order| - 1;
      assert order[i] in order && forall p :: p in order[..i] ==> p in order;
      ApplyTombstone(H, ApplyTombstones(H, c, tombs, order[..i]), order[i], tombs[order[i]])
  }

  /** A transfer has a file to move, and with its count of chunks the transfer comes to an end. */
  predicate Movable(x: World, t: Task) {
    match t
    case Up(p) => p in x.client.files && Transfer.Uploads(x.client.files[p])
    case Down(p) => p in x.server.files && Transfer.Downloads(x.server.files[p])
    case _ => true
  }

  /** What the handlers expect when the event comes. */
  ghost predicate Ready(x: World, e: Event) {
    && Wf(x.client.db.tree) && Wf(x.server.db.tree)
    && match e
       case Take(f) => f in x.todo && f.path != []
       case Done(t, _, order) =>
         && t in x.tasks && t.path != [] && Movable(x, t)
         && match t
            case Up(p) => p in x.client.db.mtimes && p in x.client.db.hashes && Addable(x.server.db.tree, p)
            case Down(p) => p in x.server.db.mtimes && p in x.server.db.hashes && Addable(x.client.db.tree, p)
            case Listed(_, _, tombs) => NoDup(order) && forall p :: p in order <==> p in tombs && p != []
            case Erasing(p, _) => p in x.server.db.mtimes ==> p in x.server.files
            case _ => true
  }

  /** What an entry does to the client at once. A staged deletion marks the client's tree only. */
  ghost function Staged(H: Hasher, c: Replica, f: Finding): (r: Replica)
    requires Wf(c.db.tree) && f.path != []
    ensures Wf(r.db.tree)
  {
    match f.bucket
    case DeletionWinsLeft => c.(db := c.db.(tree := DeleteView(H, c.db.tree, f.path, f.time)))
    case DeletionWinsRight => ApplyTombstone(H, c, f.path, f.time)
    case _ => c
  }

  /** The client turns to an entry of the plan. */
  ghost function Stage(H: Hasher, x: World, f: Finding): World
    requires Ready(x, Take(f))
  {
    World(Staged(H, x.client, f), x.server, x.todo - {f}, x.tasks + Started(x.client, f))
  }

  /** A finished transfer leaves the counted parts of the file, under the time and hash of the whole. The
      server deletes what it tracks and acknowledges in any case, with whatever time its reply carries. */
  ghost function Finish(H: Hasher, x: World, t: Task, replied: Time, order: seq<Path>): World
    requires Ready(x, Done(t, replied, order))
  {
    var c, s := x.client, x.server;
    var y := x.(tasks := x.tasks - {t} + Followed(s, t));
    match t
    case Up(p) => y.(server := Store(H, s, p, Transfer.Copy(c.files[p]), c.db.mtimes[p], c.db.hashes[p]))
    case Down(p) => y.(client := Store(H, c, p, Transfer.Copy(s.files[p]), s.db.mtimes[p], s.db.hashes[p]))
    case Listed(_, _, tombs) => y.(client := ApplyTombstones(H, c, tombs, order))
    case Erasing(p, at) => y.(server := if p in s.db.mtimes then Erase(H, s, p, at) else s)
    case Acking(p) => y.(client := c.(db := RecordDeletion(H, c.db, p, replied)))
    case Ask(_) => y
  }

  ghost function Apply(H: Hasher, x: World, e: Event): World
    requires Ready(x, e)
  {
    match e
    case Take(f) => Stage(H, x, f)
    case Done(t, replied, order) => Finish(H, x, t, replied, order)
  }

  // ----- what a plan must be -----

  /** The two sides when the plan was made, and the plan; everything below is relative to them. */
  datatype Origin = Origin(H: Hasher, P: iset<Path>, client: Replica, server: Replica, plan: set<Finding>)

  /** An entry is about the path, or about a directory above it. */
  ghost predicate Reached(o: Origin, p: Path) {
    exists f :: f in o.plan && (f.path == p || (!f.isFile && f.path < p))
  }

  /** What is to be done about a path: the verdict on it where the plan reaches it, nothing elsewhere. */
  ghost function Bucket(o: Origin, p: Path): DiffBucket {
    if Reached(o, p) then BucketAt(o.client, o.server, p) else InSync
  }

  /** A file entry carries the verdict on its path. */
  ghost predicate RightFile(o: Origin, f: Finding) {
    && f.path in o.P && BucketAt(o.client, o.server, f.path) == f.bucket && !f.bucket.InSync?
    && (f.bucket.DeletionWinsLeft? ==>
          f.path !in o.client.files && f.path in o.client.db.tombs && o.client.db.tombs[f.path] == f.time)
    && (f.bucket.DeletionWinsRight? ==> f.path in o.server.db.tombs && o.server.db.tombs[f.path] == f.time)
  }

  /** At or below a directory only one side knows: the other has nothing there. */
  ghost predicate OneSided(o: Origin, b: DiffBucket, p: Path) {
    var v := BucketAt(o.client, o.server, p);
    && (b.OnlyInLeft? ==> p !in o.server.files && !RightWins(v) && (p in o.client.files ==> v.OnlyInLeft?))
    && (b.OnlyInRight? ==> p !in o.client.files && !LeftWins(v) && (p in o.server.files ==> v.OnlyInRight?))
  }

  ghost predicate RightDir(o: Origin, f: Finding) {
    && f.path !in o.P && f.path != [] && f.time == 0 && (f.bucket.OnlyInLeft? || f.bucket.OnlyInRight?)
    && forall p :: f.path <= p ==> OneSided(o, f.bucket, p)
  }

  /** Two scanned sides, and a plan whose entries are right and about paths that are not nested. */
  ghost predicate Founded(o: Origin) {
    && ClashFree(o.P) && Scanned(o.H, o.P, o.client) && Scanned(o.H, o.P, o.server)
    && (forall f :: f in o.plan ==> if f.isFile then RightFile(o, f) else RightDir(o, f))
    && (forall f, g :: f in o.plan && g in o.plan && f.path <= g.path ==> f == g)
  }

  lemma Sides(o: Origin)
    requires Founded(o)
    ensures ClashFree(o.P) && Scanned(o.H, o.P, o.client) && Scanned(o.H, o.P, o.server)
    ensures Tracked(o.H, o.P, o.client) && Tracked(o.H, o.P, o.server)
    ensures Wf(o.client.db.tree) && Wf(o.server.db.tree)
  {
    hide RightFile, RightDir;
  }

  ghost predicate FromPlan(o: Origin, f: Finding) {
    f in o.plan
  }

  lemma PlanFile(o: Origin, f: Finding)
    requires Founded(o) && FromPlan(o, f) && f.isFile
    ensures f.path in o.P && Bucket(o, f.path) == f.bucket && f.path != []
    ensures !f.bucket.InSync?
    ensures f.bucket.DeletionWinsLeft? ==>
      f.path !in o.client.files && f.path in o.client.db.tombs && o.client.db.tombs[f.path] == f.time
    ensures f.bucket.DeletionWinsRight? ==> f.path in o.server.db.tombs && o.server.db.tombs[f.path] == f.time
  {
    hide Scanned, BucketAt, RightDir;
    assert Reached(o, f.path);
  }

  /** A directory entry: one side alone has the directory, the other nothing below it. */
  lemma PlanDir(o: Origin, f: Finding, p: Path)
    requires Founded(o) && FromPlan(o, f) && !f.isFile && f.path <= p
    ensures f.path !in o.P && f.path != [] && f.time == 0 && (f.bucket.OnlyInLeft? || f.bucket.OnlyInRight?)
    ensures f.bucket.OnlyInLeft? ==> p !in o.server.files && !RightWins(Bucket(o, p))
    ensures f.bucket.OnlyInLeft? && p in o.client.files ==> Bucket(o, p) == OnlyInLeft
    ensures f.bucket.OnlyInRight? ==> p !in o.client.files && !LeftWins(Bucket(o, p))
    ensures f.bucket.OnlyInRight? && p in o.server.files ==> Bucket(o, p) == OnlyInRight
  {
    hide Scanned, BucketAt, RightFile;
    assert Reached(o, p);
    assert OneSided(o, f.bucket, p);
  }

  /** No two entries of a plan are about nested paths. */
  lemma PlanApart(o: Origin, f: Finding, g: Finding)
    requires Founded(o) && FromPlan(o, f) && FromPlan(o, g) && f.path <= g.path
    ensures f == g
  {
    hide Scanned, RightFile, RightDir;
  }

  // ----- the invariant -----

  predicate MovesUp(b: DiffBucket) {
    b.OnlyInLeft? || b.ModifiedWinsLeft?
  }

  predicate MovesDown(b: DiffBucket) {
    b.OnlyInRight? || b.ModifiedWinsRight?
  }

  /** If p is to be moved, its transfer comes to an end. */
  ghost predicate CanMove(o: Origin, p: Path) {
    && (MovesUp(Bucket(o, p)) ==> p in o.client.files && Transfer.Uploads(o.client.files[p]))
    && (MovesDown(Bucket(o, p)) ==> p in o.server.files && Transfer.Downloads(o.server.files[p]))
  }

  /** Every file that is to be moved has a count of chunks with which its transfer comes to an end. */
  ghost predicate Carriable(o: Origin) {
    forall p :: p in o.P ==> CanMove(o, p)
  }

  function CopyOf(f: Option<Bytes>): Option<Bytes> {
    if f.Some? then Some(Transfer.Copy(f.value)) else None
  }

  /** What the losing side is to hold: the winner's file as a transfer delivers it, or nothing. */
  ghost function Landed(o: Origin, p: Path): Option<Bytes> {
    var b := Bucket(o, p);
    if MovesUp(b) then CopyOf(Held(o.client, p)) else if MovesDown(b) then CopyOf(Held(o.server, p)) else None
  }

  /** p is to be moved and its transfer delivers less than the file. */
  ghost predicate Truncates(o: Origin, p: Path) {
    || (MovesUp(Bucket(o, p)) && CopyOf(Held(o.client, p)) != Held(o.client, p))
    || (MovesDown(Bucket(o, p)) && CopyOf(Held(o.server, p)) != Held(o.server, p))
  }

  ghost predicate Exact(o: Origin) {
    forall p :: p in o.P ==> !Truncates(o, p)
  }

  predicate AsksFor(t: Task) {
    t.Ask? || t.Listed?
  }

  predicate Deletes(t: Task) {
    t.Erasing? || t.Acking?
  }

  ghost predicate Remote(f: Finding) {
    f.bucket.OnlyInRight? && !f.isFile
  }

  /** Nothing below d is at the client or on its way there. */
  ghost predicate Clear(x: World, d: Path) {
    forall p :: d < p ==> p !in x.client.files && Down(p) !in x.tasks
  }

  /** A running task does what was decided about its path. */
  ghost predicate Fair(o: Origin, t: Task) {
    match t
    case Up(p) => p in o.P && MovesUp(Bucket(o, p))
    case Down(p) => p in o.P && MovesDown(Bucket(o, p))
    case Ask(d) => FromPlan(o, Finding(OnlyInRight, false, d, 0))
    case Listed(d, files, tombs) =>
      && FromPlan(o, Finding(OnlyInRight, false, d, 0))
      && (forall p :: p in files <==> d < p && p in o.server.files)
      && (forall p :: p in tombs ==> d < p && p in o.P)
    case Erasing(p, at) =>
      p in o.P && Bucket(o, p).DeletionWinsLeft? && p in o.client.db.tombs && at == o.client.db.tombs[p]
    case Acking(p) => p in o.P && Bucket(o, p).DeletionWinsLeft?
  }

  /** Something still to come will bring p in place. */
  ghost predicate Covered(x: World, p: Path) {
    || (exists f :: f in x.todo && (f.path == p || (!f.isFile && f.path < p)))
    || Up(p) in x.tasks || Down(p) in x.tasks
    || (exists t :: t in x.tasks && ((AsksFor(t) && t.path < p) || (t.Erasing? && t.path == p)))
  }

  /** Only the losing side changes, to what it is to hold. */
  ghost predicate Standing(o: Origin, x: World, p: Path) {
    && (Held(x.client, p) == Held(o.client, p) || (RightWins(Bucket(o, p)) && Held(x.client, p) == Landed(o, p)))
    && (Held(x.server, p) == Held(o.server, p) || (LeftWins(Bucket(o, p)) && Held(x.server, p) == Landed(o, p)))
  }

  /** The losing side changes at most, and work is left until it has; a transfer that brought it there was
      one that comes to an end. */
  ghost predicate Placed(o: Origin, x: World, p: Path) {
    var b := Bucket(o, p);
    && Standing(o, x, p)
    && (LeftWins(b) ==> Covered(x, p) || (Held(x.server, p) == Landed(o, p) && CanMove(o, p)))
    && (RightWins(b) ==> Covered(x, p) || (Held(x.client, p) == Landed(o, p) && CanMove(o, p)))
  }

  /** Where nothing is cut short every recorded hash is that of the contents. */
  ghost predicate Truthful(o: Origin, x: World, p: Path) {
    Truncates(o, p) || (Honest(o.H, x.client, p) && Honest(o.H, x.server, p))
  }

  /** Entries still to be staged: a deletion is recorded at the client as planned, a remote
      directory has not been touched, and no task has come from the entry yet. */
  ghost predicate Fresh(x: World, f: Finding) {
    && (f.bucket.DeletionWinsLeft? ==>
          f.path !in x.client.files && f.path in x.client.db.tombs && x.client.db.tombs[f.path] == f.time)
    && (Remote(f) ==> Clear(x, f.path))
    && (forall t :: t in x.tasks && (AsksFor(t) || Deletes(t)) ==> t.path != f.path)
  }

  ghost predicate Quiet(x: World, t: Task) {
    AsksFor(t) ==> Clear(x, t.path) && forall u :: u in x.tasks && AsksFor(u) && u.path == t.path ==> u == t
  }

  ghost predicate Inv(o: Origin, x: World) {
    && Tracked(o.H, o.P, x.client) && Tracked(o.H, o.P, x.server)
    && (forall f :: f in x.todo ==> FromPlan(o, f) && Fresh(x, f))
    && (forall t :: t in x.tasks ==> Fair(o, t) && Quiet(x, t))
    && (forall p :: p in o.P ==> Placed(o, x, p) && Truthful(o, x, p))
  }

  /** No handler expectation fails but for a transfer with a count that does not come to an end, and where
      nothing such is to be moved none fails at all. */
  lemma InvReady(o: Origin, x: World, e: Event)
    requires Founded(o) && Inv(o, x)
    requires e.Take? ==> e.entry in x.todo
    requires e.Done? ==> e.task in x.tasks
    requires e.Done? && e.task.Listed? ==> NoDup(e.order) && forall p :: p in e.order <==> p in e.task.tombs
    ensures Ready(x, e) <==> (e.Done? ==> Movable(x, e.task))
    ensures Carriable(o) ==> Ready(x, e)
  {
    hide Scanned, Tracked, Founded, FromPlan, Wf, Bucket, Placed, Truthful, Fair, Fresh, Quiet, Addable;
    hide Movable, CanMove;
    TrackedWf(o.H, o.P, x.client);
    TrackedWf(o.H, o.P, x.server);
    match e {
      case Take(f) => EntryPath(o, f);
      case Done(t, _, _) =>
        TaskPath(o, t);
        MovesOnly(x, t);
        if t.Up? || t.Down? || t.Erasing? {
          FairPath(o, t);
          InPlace(o, x, t.path);
          TaskReady(o, x, t);
        }
    }
  }

  lemma MovesOnly(x: World, t: Task)
    ensures !t.Up? && !t.Down? ==> Movable(x, t)
  {
  }

  lemma FairPath(o: Origin, t: Task)
    requires Fair(o, t)
    ensures t.Up? || t.Down? || Deletes(t) ==> t.path in o.P
  {
  }

  lemma InPlace(o: Origin, x: World, p: Path)
    requires Placed(o, x, p)
    ensures Standing(o, x, p)
  {
  }

  lemma TaskReady(o: Origin, x: World, t: Task)
    requires Founded(o) && Tracked(o.H, o.P, x.client) && Tracked(o.H, o.P, x.server) && Fair(o, t)
    requires (t.Up? || t.Down? || t.Erasing?) && Standing(o, x, t.path)
    ensures t.Up? ==>
      t.path in x.client.db.mtimes && t.path in x.client.db.hashes && Addable(x.server.db.tree, t.path)
    ensures t.Down? ==>
      t.path in x.server.db.mtimes && t.path in x.server.db.hashes && Addable(x.client.db.tree, t.path)
    ensures Movable(x, t) <==> t.Erasing? || CanMove(o, t.path)
    ensures t.Erasing? ==> (t.path in x.server.db.mtimes ==> t.path in x.server.files)
  {
    hide Scanned, Tracked, Founded, Wf, Bucket, Addable, Transfer.Uploads, Transfer.Downloads;
    Sides(o);
    Holders(o, t.path);
    TrackedAddable(o.H, o.P, x.client, t.path);
    TrackedAddable(o.H, o.P, x.server, t.path);
    TrackedFile(o.H, o.P, x.client, t.path);
    TrackedFile(o.H, o.P, x.server, t.path);
  }

  lemma EntryPath(o: Origin, f: Finding)
    requires Founded(o) && FromPlan(o, f)
    ensures f.path != []
  {
    hide Founded, Bucket;
    if f.isFile { PlanFile(o, f); } else { PlanDir(o, f, f.path); }
  }

  lemma TaskPath(o: Origin, t: Task)
    requires Founded(o) && Fair(o, t)
    ensures t.path != []
    ensures t.Listed? ==> forall p :: p in t.tombs ==> p != []
  {
    hide Founded, Bucket;
    Sides(o);
    if AsksFor(t) { PlanDir(o, Finding(OnlyInRight, false, t.path, 0), t.path); }
  }

  /** A side whose file wins has it. */
  lemma Holders(o: Origin, p: Path)
    requires Founded(o) && p in o.P
    ensures MovesUp(Bucket(o, p)) ==> p in o.client.files
    ensures MovesDown(Bucket(o, p)) ==> p in o.server.files
    ensures Bucket(o, p).DeletionWinsLeft? ==> p !in o.client.files && p in o.server.files
    ensures Bucket(o, p).DeletionWinsRight? ==> p in o.client.files && p !in o.server.files
  {
    hide Scanned, Tracked, Founded, Reached;
    Sides(o);
    TrackedFile(o.H, o.P, o.client, p);
    TrackedFile(o.H, o.P, o.server, p);
    TrackedKind(o.H, o.P, o.client, p);
    TrackedKind(o.H, o.P, o.server, p);
  }

  // ----- one event -----

  /** What an event does to files, tombstones and work, the trees aside. */
  ghost predicate Effect(x: World, y: World, e: Event)
    requires Ready(x, e)
  {
    match e
    case Take(f) =>
      && y.server == x.server && y.todo == x.todo - {f} && y.tasks == x.tasks + Started(x.client, f)
      && y.client.files == (if f.bucket.DeletionWinsRight? then x.client.files - {f.path} else x.client.files)
      && y.client.db.tombs ==
           (if f.bucket.DeletionWinsRight? && f.path in x.client.files then x.client.db.tombs[f.path := f.time]
            else x.client.db.tombs)
    case Done(t, replied, _) =>
      && y.todo == x.todo && y.tasks == x.tasks - {t} + Followed(x.server, t)
      && y.client.files == (if t.Down? then x.client.files[t.path := Transfer.Copy(x.server.files[t.path])]
        else x.client.files)
      && y.client.db.tombs == (if t.Acking? then x.client.db.tombs[t.path := replied] else x.client.db.tombs)
      && y.server.files ==
           (if t.Up? then x.server.files[t.path := Transfer.Copy(x.client.files[t.path])]
            else if t.Erasing? then x.server.files - {t.path}
            else x.server.files)
  }

  /** Tombstoning the tree a second time with the recorded time is recording the deletion. */
  lemma Restage(H: Hasher, r: Replica, p: Path, at: Time)
    requires Wf(r.db.tree) && p != [] && p !in r.files && p !in r.db.mtimes && p !in r.db.hashes
    ensures p in r.db.tombs && r.db.tombs[p] == at ==>
      r.(db := r.db.(tree := DeleteView(H, r.db.tree, p, at))) == Erase(H, r, p, at)
    ensures r.(db := RecordDeletion(H, r.db, p, at)) == Erase(H, r, p, at)
  {
    hide Wf, DeleteView;
    assert r.files - {p} == r.files && r.db.mtimes - {p} == r.db.mtimes && r.db.hashes - {p} == r.db.hashes;
    assert p in r.db.tombs && r.db.tombs[p] == at ==> r.db.tombs[p := at] == r.db.tombs;
  }

  lemma TakeEffect(o: Origin, x: World, f: Finding)
    requires Founded(o) && Tracked(o.H, o.P, x.client) && Tracked(o.H, o.P, x.server) && Ready(x, Take(f))
    requires FromPlan(o, f) && Fresh(x, f)
    ensures var y := Stage(o.H, x, f);
      Effect(x, y, Take(f)) && Tracked(o.H, o.P, y.client) && Tracked(o.H, o.P, y.server)
  {
    hide Scanned, Tracked, Founded, Bucket, Wf, DeleteView, Clear, RecordDeletion;
    var p := f.path;
    if f.bucket.DeletionWinsLeft? || f.bucket.DeletionWinsRight? {
      DeletionIsFile(o, f);
      Sides(o);
      PlanFile(o, f);
      EraseTracked(o.H, o.P, x.client, p, f.time);
      EraseMaps(o.H, x.client, p, f.time);
      if p !in x.client.files {
        TrackedFile(o.H, o.P, x.client, p);
        Restage(o.H, x.client, p, f.time);
        assert x.client.files - {p} == x.client.files;
      }
    }
  }

  lemma DeletionIsFile(o: Origin, f: Finding)
    requires Founded(o) && FromPlan(o, f)
    ensures f.bucket.DeletionWinsLeft? || f.bucket.DeletionWinsRight? ==> f.isFile
  {
    hide Founded, Bucket;
    if !f.isFile { PlanDir(o, f, f.path); }
  }

  lemma EraseMaps(H: Hasher, r: Replica, p: Path, at: Time)
    requires Wf(r.db.tree) && p != []
    ensures Erase(H, r, p, at).files == r.files - {p} && Erase(H, r, p, at).db.tombs == r.db.tombs[p := at]
  {
  }

  lemma {:induction false} NothingToErase(H: Hasher, c: Replica, tombs: map<Path, Time>, order: seq<Path>)
    requires Wf(c.db.tree) && forall p :: p in order ==> p in tombs && p != [] && p !in c.files
    ensures ApplyTombstones(H, c, tombs, order) == c
  {
    if order != [] {
      var i := |order| - 1;
      assert order[i] in order && forall p :: p in order[..i] ==> p in order;
      NothingToErase(H, c, tombs, order[..i]);
    }
  }

  lemma DoneEffect(o: Origin, x: World, t: Task, replied: Time, order: seq<Path>)
    requires Founded(o) && Tracked(o.H, o.P, x.client) && Tracked(o.H, o.P, x.server)
    requires Ready(x, Done(t, replied, order))
    requires Fair(o, t) && Quiet(x, t) && (Deletes(t) ==> t.path !in x.client.files)
    ensures var y := Finish(o.H, x, t, replied, order);
      Effect(x, y, Done(t, replied, order)) && Tracked(o.H, o.P, y.client) && Tracked(o.H, o.P, y.server)
  {
    hide Scanned, Tracked, Founded, FromPlan, Wf, DeleteView, AddView, Addable, Bucket, RecordDeletion;
    var p := t.path;
    Sides(o);
    FairPath(o, t);
    match t {
      case Up(_) =>
        var c := x.client;
        StoreTracked(o.H, o.P, x.server, p, Transfer.Copy(c.files[p]), c.db.mtimes[p], c.db.hashes[p]);
      case Down(_) =>
        var s := x.server;
        StoreTracked(o.H, o.P, x.client, p, Transfer.Copy(s.files[p]), s.db.mtimes[p], s.db.hashes[p]);
      case Listed(_, _, tombs) =>
        NothingToErase(o.H, x.client, tombs, order);
      case Erasing(_, at) =>
        EraseTracked(o.H, o.P, x.server, p, at);
        EraseMaps(o.H, x.server, p, at);
        TrackedFile(o.H, o.P, x.server, p);
        assert p !in x.server.files ==> x.server.files - {p} == x.server.files;
      case Acking(_) =>
        TrackedFile(o.H, o.P, x.client, p);
        Restage(o.H, x.client, p, replied);
        EraseTracked(o.H, o.P, x.client, p, replied);
        EraseMaps(o.H, x.client, p, replied);
        assert x.client.files - {p} == x.client.files;
      case Ask(_) =>
    }
  }

  /** What lies below a directory still to be listed stays untouched. */
  lemma ClearAfter(o: Origin, x: World, y: World, e: Event, d: Path)
    requires Founded(o) && Ready(x, e) && Effect(x, y, e) && Clear(x, d)
    requires FromPlan(o, Finding(OnlyInRight, false, d, 0))
    requires e.Take? ==> FromPlan(o, e.entry)
    requires e.Done? ==> Fair(o, e.task)
    requires e.Done? && e.task.Listed? ==> e.task.path != d
    ensures Clear(y, d)
  {
    hide Founded, Bucket, Wf, Addable;
    var f := Finding(OnlyInRight, false, d, 0);
    forall p | d < p ensures p !in y.client.files && Down(p) !in y.tasks {
      match e {
        case Take(g) =>
          if d <= g.path { PlanApart(o, f, g); }
        case Done(t, _, _) =>
          if t.Listed? && t.path < p {
            var g := Finding(OnlyInRight, false, t.path, 0);
            if d <= t.path {
              PlanApart(o, f, g);
            } else {
              assert t.path <= d;
              PlanApart(o, g, f);
            }
          }
      }
    }
  }

  lemma FreshAfter(o: Origin, x: World, y: World, e: Event, g: Finding)
    requires Founded(o) && Ready(x, e) && Effect(x, y, e)
    requires g in y.todo && FromPlan(o, g) && Fresh(x, g)
    requires e.Take? ==> FromPlan(o, e.entry)
    requires e.Done? ==> Fair(o, e.task)
    ensures Fresh(y, g)
  {
    hide Founded, Bucket, Scanned, Clear, Wf, Addable;
    if Remote(g) {
      PlanDir(o, g, g.path);
      ClearAfter(o, x, y, e, g.path);
    }
    if g.isFile {
      PlanFile(o, g);
    }
    DeletionIsFile(o, g);
    match e {
      case Take(f) =>
        DeletionIsFile(o, f);
        if f.isFile { PlanFile(o, f); }
        if f.path == g.path { PlanApart(o, f, g); }
      case Done(_, _, _) =>
    }
  }

  lemma QuietAfter(o: Origin, x: World, y: World, e: Event, t: Task)
    requires Founded(o) && Ready(x, e) && Effect(x, y, e) && t in y.tasks && Fair(o, t)
    requires e.Take? ==> FromPlan(o, e.entry) && Fresh(x, e.entry)
    requires e.Done? ==> Fair(o, e.task) && Quiet(x, e.task)
    requires t in x.tasks ==> Quiet(x, t)
    ensures Quiet(y, t)
  {
    hide Founded, Bucket, Scanned, Clear;
    if AsksFor(t) {
      assert Clear(x, t.path);
      ClearAfter(o, x, y, e, t.path);
    }
  }

  /** New work does what was decided. */
  lemma StartedFair(o: Origin, x: World, f: Finding, t: Task)
    requires Founded(o) && FromPlan(o, f) && Tracked(o.H, o.P, x.client) && t in Started(x.client, f)
    requires t.path in o.P ==> Placed(o, x, t.path)
    ensures Fair(o, t)
  {
    hide Founded, Scanned, Tracked, Covered, Bucket;
    if f.isFile {
      PlanFile(o, f);
    } else {
      PlanDir(o, f, f.path);
      if t.Up? {
        TrackedFile(o.H, o.P, x.client, t.path);
        PlanDir(o, f, t.path);
      }
    }
  }

  lemma ListedFair(o: Origin, x: World, d: Path, p: Path)
    requires Founded(o) && FromPlan(o, Finding(OnlyInRight, false, d, 0)) && Tracked(o.H, o.P, x.server) && d < p
    requires p in o.P ==> Placed(o, x, p)
    ensures p in x.server.db.mtimes <==> p in o.server.files
    ensures p in x.server.db.tombs ==> p in o.P
    ensures p in o.server.files ==> p in o.P && Bucket(o, p).OnlyInRight?
  {
    hide Founded, Scanned, Tracked, Covered, Bucket;
    Sides(o);
    PlanDir(o, Finding(OnlyInRight, false, d, 0), p);
    TrackedFile(o.H, o.P, x.server, p);
    TrackedFile(o.H, o.P, o.server, p);
  }

  lemma FollowedFair(o: Origin, x: World, t: Task, u: Task)
    requires Founded(o) && Inv(o, x) && t in x.tasks && u in Followed(x.server, t)
    ensures Fair(o, u)
  {
    hide Founded, Scanned, Tracked, Placed, Truthful, Fresh, Quiet, Bucket;
    assert Fair(o, t);
    match t {
      case Ask(d) =>
        forall p | d < p
          ensures p in x.server.db.mtimes <==> p in o.server.files
          ensures p in x.server.db.tombs ==> p in o.P
        {
          ListedFair(o, x, d, p);
        }
      case Listed(d, _, _) => ListedFair(o, x, d, u.path);
      case _ =>
    }
  }

  /** The event is the one that was to bring p in place. */
  predicate Serves(e: Event, p: Path) {
    match e
    case Take(f) => f.path == p || (!f.isFile && f.path < p)
    case Done(t, _, _) => if AsksFor(t) then t.path < p else t.path == p && !t.Acking?
  }

  lemma CoveredKept(x: World, y: World, e: Event, p: Path)
    requires Ready(x, e) && Effect(x, y, e) && !Serves(e, p) && Covered(x, p)
    ensures Covered(y, p)
  {
    hide Started, Followed, Wf, Addable;
    if f :| f in x.todo && (f.path == p || (!f.isFile && f.path < p)) {
      assert f in y.todo;
    } else if t :| t in x.tasks && ((AsksFor(t) && t.path < p) || (t.Erasing? && t.path == p)) {
      assert t in y.tasks;
    }
  }

  /** Elsewhere the two sides hold what they held. */
  lemma HeldKept(x: World, y: World, e: Event, p: Path)
    requires Ready(x, e) && Effect(x, y, e) && !Serves(e, p)
    ensures Held(y.client, p) == Held(x.client, p) && Held(y.server, p) == Held(x.server, p)
  {
    hide Started, Followed, Wf, Addable;
  }

  lemma PlacedElsewhere(o: Origin, x: World, y: World, e: Event, p: Path)
    requires Ready(x, e) && Effect(x, y, e) && !Serves(e, p) && Placed(o, x, p)
    ensures Placed(o, y, p)
  {
    hide Ready, Effect, Covered, Bucket, Serves;
    HeldKept(x, y, e, p);
    if Covered(x, p) { CoveredKept(x, y, e, p); }
  }

  lemma NotMoved(o: Origin, p: Path)
    requires !MovesUp(Bucket(o, p)) && !MovesDown(Bucket(o, p))
    ensures CanMove(o, p) && Landed(o, p) == None && !Truncates(o, p)
  {
  }

  /** The plan entry that covers p starts work that covers p, or there is nothing to do. */
  lemma PlacedByTake(o: Origin, x: World, y: World, f: Finding, p: Path)
    requires Founded(o) && Ready(x, Take(f)) && Effect(x, y, Take(f)) && Serves(Take(f), p) && Placed(o, x, p)
    requires FromPlan(o, f) && p in o.P
    ensures Placed(o, y, p)
  {
    hide Founded, Wf, Addable, Scanned, Tracked, Bucket, CanMove, Landed;
    Holders(o, p);
    if !MovesUp(Bucket(o, p)) && !MovesDown(Bucket(o, p)) { NotMoved(o, p); }
    if f.isFile {
      PlanFile(o, f);
      assert f.bucket.DeletionWinsLeft? ==> Erasing(p, f.time) in y.tasks;
      assert f.bucket.DeletionWinsRight? ==> Held(y.client, p) == None;
    } else {
      PlanDir(o, f, p);
      if f.bucket.OnlyInRight? {
        assert Ask(f.path) in y.tasks && f.path < p;
      }
    }
  }

  lemma PlacedByDone(o: Origin, x: World, y: World, e: Event, p: Path)
    requires Founded(o) && Ready(x, e) && Effect(x, y, e) && e.Done? && Serves(e, p) && Placed(o, x, p)
    requires Fair(o, e.task) && p in o.P && (e.task.Listed? ==> Clear(x, e.task.path))
    requires Tracked(o.H, o.P, x.client) && Tracked(o.H, o.P, x.server)
    ensures Placed(o, y, p)
  {
    hide Founded, Wf, Addable, Scanned, Tracked, Bucket, CanMove, Movable, Transfer.Copy;
    Holders(o, p);
    if !MovesUp(Bucket(o, p)) && !MovesDown(Bucket(o, p)) { NotMoved(o, p); }
    match e.task {
      case Ask(d) =>
        var l := ListingBelow(x.server, d);
        assert l in Followed(x.server, e.task) && l in y.tasks && AsksFor(l);
      case Listed(d, files, _) =>
        PlanDir(o, Finding(OnlyInRight, false, d, 0), p);
        assert p in files ==> Down(p) in y.tasks;
      case Up(_) => TaskReady(o, x, e.task);
      case Down(_) => TaskReady(o, x, e.task);
      case _ =>
    }
  }

  lemma EventEffect(o: Origin, x: World, e: Event)
    requires Founded(o) && Inv(o, x) && Ready(x, e)
    ensures var y := Apply(o.H, x, e);
      Effect(x, y, e) && Tracked(o.H, o.P, y.client) && Tracked(o.H, o.P, y.server)
  {
    hide Founded, Wf, Addable, Scanned, Tracked, Truthful, Placed, Fair, Fresh, Quiet, Effect, Started;
    hide Followed, Stage, Finish;
    match e {
      case Take(f) => TakeEffect(o, x, f);
      case Done(t, replied, order) =>
        if Deletes(t) {
          FairPath(o, t);
          DeletedAtClient(o, x, t);
        }
        DoneEffect(o, x, t, replied, order);
    }
  }

  predicate Brings(e: Event, t: Task) {
    e.Done? && e.task == t
  }

  /** Recorded hashes stay true of the contents, except where a copy is stored. */
  lemma HonestKept(o: Origin, x: World, e: Event, p: Path)
    requires Founded(o) && Inv(o, x) && Ready(x, e)
    ensures var y := Apply(o.H, x, e);
      && (Honest(o.H, x.client, p) && !Brings(e, Down(p)) ==> Honest(o.H, y.client, p))
      && (Honest(o.H, x.server, p) && !Brings(e, Up(p)) ==> Honest(o.H, y.server, p))
  {
    hide Founded, Wf, Addable, Scanned, Tracked, Truthful, Placed, Fresh, Quiet, Bucket, DeleteView, AddView;
    hide Transfer.Uploads, Transfer.Downloads, Transfer.Copy, Honest, Store, Erase, Started, Followed, RecordDeletion;
    match e {
      case Take(f) => HonestStaged(o.H, x.client, f, p);
      case Done(t, replied, order) =>
        match t {
          case Up(q) =>
            var c := x.client;
            StoreHonest(o.H, x.server, q, Transfer.Copy(c.files[q]), c.db.mtimes[q], c.db.hashes[q], p);
          case Down(q) =>
            var s := x.server;
            StoreHonest(o.H, x.client, q, Transfer.Copy(s.files[q]), s.db.mtimes[q], s.db.hashes[q], p);
          case Listed(_, _, tombs) =>
            ListedClear(x, t);
            NothingToErase(o.H, x.client, tombs, order);
          case Erasing(q, at) => EraseHonest(o.H, x.server, q, at, p);
          case Acking(q) => HonestDeletion(o.H, x.client, q, replied, p);
          case Ask(_) =>
        }
    }
  }

  lemma HonestStaged(H: Hasher, c: Replica, f: Finding, p: Path)
    requires Wf(c.db.tree) && f.path != []
    ensures Honest(H, c, p) ==> Honest(H, Staged(H, c, f), p)
  {
    hide Wf, DeleteView;
  }

  lemma HonestDeletion(H: Hasher, c: Replica, q: Path, at: Time, p: Path)
    requires Wf(c.db.tree) && q != []
    ensures Honest(H, c, p) ==> Honest(H, c.(db := RecordDeletion(H, c.db, q, at)), p)
  {
    hide Wf, DeleteView;
  }

  lemma HonestCopied(o: Origin, x: World, e: Event, p: Path)
    requires Ready(x, e)
    ensures var y := Apply(o.H, x, e);
      && (Brings(e, Up(p)) && Transfer.Copy(x.client.files[p]) == x.client.files[p] && Honest(o.H, x.client, p) ==>
            Honest(o.H, y.server, p))
      && (Brings(e, Down(p)) && Transfer.Copy(x.server.files[p]) == x.server.files[p] && Honest(o.H, x.server, p) ==>
            Honest(o.H, y.client, p))
  {
    hide Wf, Addable, AddView, DeleteView, Staged, Stage, ApplyTombstones, RecordDeletion, Erase, Followed;
    hide Transfer.Copy;
  }

  lemma TruthfulAfter(o: Origin, x: World, e: Event, p: Path)
    requires Founded(o) && Inv(o, x) && Ready(x, e) && p in o.P
    ensures Truthful(o, Apply(o.H, x, e), p)
  {
    hide Founded, Wf, Addable, Scanned, Tracked, Placed, Fresh, Quiet, Bucket, Honest, Apply, Transfer.Copy;
    assert Placed(o, x, p) && Truthful(o, x, p);
    InPlace(o, x, p);
    HonestKept(o, x, e, p);
    HonestCopied(o, x, e, p);
    if !Truncates(o, p) && (Brings(e, Up(p)) || Brings(e, Down(p))) {
      assert Fair(o, e.task);
    }
  }

  /** Every event keeps the invariant. */
  lemma InvApply(o: Origin, x: World, e: Event)
    requires Founded(o) && Inv(o, x) && Ready(x, e)
    ensures Inv(o, Apply(o.H, x, e))
  {
    hide Founded, Wf, Addable, Scanned, Tracked, Truthful, Placed, Fair, Fresh, Quiet, Effect, Started;
    hide Followed, Stage, Finish, Serves;
    var y := Apply(o.H, x, e);
    EventEffect(o, x, e);
    forall p | p in o.P ensures Placed(o, y, p) && Truthful(o, y, p) {
      TruthfulAfter(o, x, e, p);
      if !Serves(e, p) {
        PlacedElsewhere(o, x, y, e, p);
      } else if e.Take? {
        PlacedByTake(o, x, y, e.entry, p);
      } else {
        assert e.task.Listed? ==> Clear(x, e.task.path) by { ListedClear(x, e.task); }
        PlacedByDone(o, x, y, e, p);
      }
    }
    EntriesAfter(o, x, y, e);
    TasksAfter(o, x, y, e);
  }

  lemma ListedClear(x: World, t: Task)
    requires Quiet(x, t)
    ensures t.Listed? ==> Clear(x, t.path)
  {
  }

  lemma DeletedAtClient(o: Origin, x: World, t: Task)
    requires Founded(o) && Fair(o, t) && Deletes(t) && Placed(o, x, t.path)
    ensures t.path !in x.client.files
  {
    hide Founded, Scanned, Tracked, Covered, Bucket;
    Holders(o, t.path);
  }

  lemma EntriesAfter(o: Origin, x: World, y: World, e: Event)
    requires Founded(o) && Inv(o, x) && Ready(x, e) && Effect(x, y, e)
    ensures forall f :: f in y.todo ==> FromPlan(o, f) && Fresh(y, f)
  {
    hide Founded, Wf, Addable, Scanned, Tracked, Truthful, Placed, Fair, Fresh, Quiet, Started, Followed;
    forall f | f in y.todo ensures FromPlan(o, f) && Fresh(y, f) {
      FreshAfter(o, x, y, e, f);
    }
  }

  lemma TasksAfter(o: Origin, x: World, y: World, e: Event)
    requires Founded(o) && Inv(o, x) && Ready(x, e) && Effect(x, y, e)
    ensures forall t :: t in y.tasks ==> Fair(o, t) && Quiet(y, t)
  {
    hide Founded, Wf, Addable, Scanned, Tracked, Truthful, Placed, Fair, Fresh, Quiet, Started, Followed;
    forall t | t in y.tasks ensures Fair(o, t) && Quiet(y, t) {
      if t !in x.tasks {
        match e {
          case Take(f) => StartedFair(o, x, f, t);
          case Done(u, _, _) => FollowedFair(o, x, u, t);
        }
      }
      QuietAfter(o, x, y, e, t);
    }
  }

  // ----- what the databases record -----

  /** What an event does to recorded times, hashes and the server's tombstones. */
  ghost predicate Records(x: World, y: World, e: Event)
    requires Ready(x, e)
  {
    var c, s, d, t := x.client.db, x.server.db, y.client.db, y.server.db;
    match e
    case Take(f) =>
      var gone := if f.bucket.DeletionWinsRight? && f.path in x.client.files then {f.path} else {};
      t == s && d.mtimes == c.mtimes - gone && d.hashes == c.hashes - gone
    case Done(Up(p), _, _) =>
      && t.mtimes == s.mtimes[p := c.mtimes[p]] && t.hashes == s.hashes[p := c.hashes[p]] && t.tombs == s.tombs
      && d == c
    case Done(Down(p), _, _) =>
      && d.mtimes == c.mtimes[p := s.mtimes[p]] && d.hashes == c.hashes[p := s.hashes[p]] && t == s
    case Done(Erasing(p, at), _, _) =>
      && d == c
      && if p in s.mtimes then
           t.mtimes == s.mtimes - {p} && t.hashes == s.hashes - {p} && t.tombs == s.tombs[p := at]
         else t == s
    case Done(Acking(p), _, _) => d.mtimes == c.mtimes - {p} && d.hashes == c.hashes - {p} && t == s
    case Done(_, _, _) => d == c && t == s
  }

  lemma EventRecords(o: Origin, x: World, e: Event)
    requires Founded(o) && Inv(o, x) && Ready(x, e)
    ensures Records(x, Apply(o.H, x, e), e)
  {
    hide Founded, Wf, Addable, Tracked, Truthful, Placed, Fresh, Bucket, DeleteView, AddView;
    hide Transfer.Uploads, Transfer.Downloads, Transfer.Copy, Started, Followed;
    match e {
      case Take(f) =>
        assert x.client.db.mtimes - {} == x.client.db.mtimes && x.client.db.hashes - {} == x.client.db.hashes;
      case Done(Listed(d, files, tombs), _, order) =>
        ListedClear(x, e.task);
        NothingToErase(o.H, x.client, tombs, order);
      case Done(_, _, _) =>
    }
  }

  /** The two databases say the same about the path. */
  predicate SameEntry(c: Db, d: Db, p: Path) {
    && (p in c.mtimes <==> p in d.mtimes) && (p in c.mtimes && p in d.mtimes ==> c.mtimes[p] == d.mtimes[p])
    && (p in c.hashes <==> p in d.hashes) && (p in c.hashes && p in d.hashes ==> c.hashes[p] == d.hashes[p])
    && (p in c.tombs <==> p in d.tombs) && (p in c.tombs && p in d.tombs ==> c.tombs[p] == d.tombs[p])
  }

  /** The loser tracks the path under the winner's time and hash. */
  predicate TakenOver(winner: Db, loser: Db, p: Path) {
    && p in winner.mtimes && p in loser.mtimes && loser.mtimes[p] == winner.mtimes[p]
    && p in winner.hashes && p in loser.hashes && loser.hashes[p] == winner.hashes[p]
  }

  /** The loser no longer tracks the path and remembers the winner's deletion time. */
  predicate Dropped(winner: Db, loser: Db, p: Path) {
    && p !in loser.mtimes && p !in loser.hashes
    && p in winner.tombs && p in loser.tombs && loser.tombs[p] == winner.tombs[p]
  }

  /** What is recorded about p: sides that do not lose keep their entries, the loser takes over the winner's
      when it is served. Of a deletion won by the client the client itself records the time of the reply. */
  ghost predicate Noted(o: Origin, x: World, p: Path) {
    var b := Bucket(o, p);
    && (!RightWins(b) && !b.DeletionWinsLeft? ==> SameEntry(x.client.db, o.client.db, p))
    && (!LeftWins(b) ==> SameEntry(x.server.db, o.server.db, p))
    && (MovesUp(b) ==> Covered(x, p) || TakenOver(o.client.db, x.server.db, p))
    && (MovesDown(b) ==> Covered(x, p) || TakenOver(o.server.db, x.client.db, p))
    && (b.DeletionWinsLeft? ==> p in x.server.db.mtimes || Dropped(o.client.db, x.server.db, p))
    && (b.DeletionWinsRight? ==> p in x.client.db.mtimes || Dropped(o.server.db, x.client.db, p))
  }

  /** Elsewhere the entries stay, apart from the client's own after a reply. */
  lemma EntriesKept(x: World, y: World, e: Event, p: Path)
    requires Ready(x, e) && Effect(x, y, e) && Records(x, y, e) && !Serves(e, p)
    ensures SameEntry(y.server.db, x.server.db, p)
    ensures !(e.Done? && e.task == Acking(p)) ==> SameEntry(y.client.db, x.client.db, p)
  {
    hide Wf, Addable, Movable, Started, Followed;
    match e {
      case Take(f) =>
      case Done(t, _, _) =>
        match t {
          case Up(_) =>
          case Down(_) =>
          case Erasing(_, _) =>
          case Acking(_) =>
          case _ =>
        }
    }
  }

  lemma NotedNext(o: Origin, x: World, e: Event, p: Path)
    requires Founded(o) && Inv(o, x) && Ready(x, e) && p in o.P && Noted(o, x, p)
    ensures Noted(o, Apply(o.H, x, e), p)
  {
    var y := Apply(o.H, x, e);
    if !Serves(e, p) {
      NotedElsewhere(o, x, e, p);
    } else if e.Take? {
      NotedByTake(o, x, e.entry, p);
    } else {
      NotedByDone(o, x, e, p);
    }
  }

  lemma NotedElsewhere(o: Origin, x: World, e: Event, p: Path)
    requires Founded(o) && Inv(o, x) && Ready(x, e) && p in o.P && Noted(o, x, p) && !Serves(e, p)
    ensures Noted(o, Apply(o.H, x, e), p)
  {
    hide Founded, Inv, Apply, Ready, Effect, Records, Covered, Bucket, Serves;
    var y := Apply(o.H, x, e);
    EventEffect(o, x, e);
    EventRecords(o, x, e);
    EntriesKept(x, y, e, p);
    if Covered(x, p) { CoveredKept(x, y, e, p); }
    AckFair(o, x, e, p);
  }

  lemma AckFair(o: Origin, x: World, e: Event, p: Path)
    requires Inv(o, x) && Ready(x, e)
    ensures e.Done? && e.task == Acking(p) ==> Bucket(o, p).DeletionWinsLeft?
  {
    hide Bucket, Wf, Addable, Tracked, Placed, Fresh, Truthful, Quiet;
    if e.Done? && e.task == Acking(p) {
      assert Fair(o, e.task);
    }
  }

  lemma NotedByTake(o: Origin, x: World, f: Finding, p: Path)
    requires Founded(o) && Inv(o, x) && Ready(x, Take(f)) && p in o.P && Noted(o, x, p) && Serves(Take(f), p)
    ensures Noted(o, Apply(o.H, x, Take(f)), p)
  {
    hide Founded, Inv, Apply, Tracked, Scanned, Wf, Addable, Bucket, CanMove, Landed, Standing, Placed, Covered;
    var y := Apply(o.H, x, Take(f));
    EventEffect(o, x, Take(f));
    EventRecords(o, x, Take(f));
    TodoFromPlan(o, x, f);
    PlacedAt(o, x, p);
    InPlace(o, x, p);
    CoveredByTake(o, x, y, f, p);
    InvTracked(o, x);
    TrackedFile(o.H, o.P, x.client, p);
    if f.isFile {
      PlanFile(o, f);
    } else {
      PlanDir(o, f, p);
    }
    hide Ready, Effect;
  }

  lemma TodoFromPlan(o: Origin, x: World, f: Finding)
    requires Inv(o, x) && Ready(x, Take(f))
    ensures FromPlan(o, f)
  {
    hide Tracked, Placed, Fresh, Truthful, Fair, Quiet, Wf;
  }

  lemma InvTracked(o: Origin, x: World)
    requires Inv(o, x)
    ensures Tracked(o.H, o.P, x.client) && Tracked(o.H, o.P, x.server)
  {
    hide Tracked, Placed, Fresh, Truthful, Fair, Quiet;
  }

  /** A decision to move p is still covered after its entry has been turned to. */
  lemma CoveredByTake(o: Origin, x: World, y: World, f: Finding, p: Path)
    requires Founded(o) && Inv(o, x) && Ready(x, Take(f)) && Effect(x, y, Take(f)) && FromPlan(o, f) && p in o.P
    requires Serves(Take(f), p) && Standing(o, x, p)
    ensures MovesUp(Bucket(o, p)) || MovesDown(Bucket(o, p)) ==> Covered(y, p)
  {
    hide Founded, Inv, Tracked, Scanned, Wf, Addable, Bucket, CanMove, Landed;
    Holders(o, p);
    if f.isFile {
      PlanFile(o, f);
    } else {
      PlanDir(o, f, p);
      if f.bucket.OnlyInRight? {
        assert Ask(f.path) in y.tasks && f.path < p;
      }
    }
  }

  lemma PlacedAt(o: Origin, x: World, p: Path)
    requires Inv(o, x) && p in o.P
    ensures Placed(o, x, p) && Truthful(o, x, p)
  {
    hide Placed, Truthful, Fair, Fresh, Quiet, Tracked;
  }

  lemma NotedByDone(o: Origin, x: World, e: Event, p: Path)
    requires Founded(o) && Inv(o, x) && Ready(x, e) && p in o.P && Noted(o, x, p) && e.Done? && Serves(e, p)
    ensures Noted(o, Apply(o.H, x, e), p)
  {
    hide Founded, Inv, Apply, Effect, Records, Serves, Bucket, Placed, Standing, Ready, Fair, Covered, Noted;
    var y := Apply(o.H, x, e);
    EventEffect(o, x, e);
    EventRecords(o, x, e);
    TaskFair(o, x, e);
    match e.task {
      case Ask(_) => NotedByListing(o, x, y, e, p);
      case Listed(_, _, _) => NotedByListing(o, x, y, e, p);
      case Up(_) => NotedByMove(o, x, y, e, p);
      case Down(_) => NotedByMove(o, x, y, e, p);
      case Erasing(_, _) => NotedByErasing(o, x, y, e, p);
      case Acking(_) => AckServes(e, p);
    }
  }

  lemma AckServes(e: Event, p: Path)
    requires Serves(e, p)
    ensures !(e.Done? && e.task.Acking?)
  {
  }

  lemma TaskFair(o: Origin, x: World, e: Event)
    requires Inv(o, x) && Ready(x, e) && e.Done?
    ensures Fair(o, e.task) && (e.task.Listed? ==> Clear(x, e.task.path))
  {
    hide Tracked, Placed, Fresh, Truthful, Fair, Wf, Clear;
    assert Quiet(x, e.task);
  }

  /** A directory asked for or listed: what was decided below it is still covered, and no entry has changed. */
  lemma NotedByListing(o: Origin, x: World, y: World, e: Event, p: Path)
    requires Founded(o) && Inv(o, x) && Ready(x, e) && p in o.P && Noted(o, x, p) && e.Done? && Serves(e, p)
    requires Effect(x, y, e) && Records(x, y, e) && AsksFor(e.task) && Fair(o, e.task)
    ensures Noted(o, y, p)
  {
    hide Founded, Inv, Tracked, Scanned, Wf, Addable, Bucket;
    Holders(o, p);
    PlanDir(o, Finding(OnlyInRight, false, e.task.path, 0), p);
    match e.task {
      case Ask(d) =>
        var l := ListingBelow(x.server, d);
        assert l in Followed(x.server, e.task) && l in y.tasks && AsksFor(l);
      case Listed(d, files, _) =>
        assert p in files ==> Down(p) in y.tasks;
    }
  }

  lemma NotedByMove(o: Origin, x: World, y: World, e: Event, p: Path)
    requires Founded(o) && Inv(o, x) && Ready(x, e) && p in o.P && Noted(o, x, p) && e.Done? && Serves(e, p)
    requires Effect(x, y, e) && Records(x, y, e) && (e.task.Up? || e.task.Down?) && Fair(o, e.task)
    ensures Noted(o, y, p)
  {
    hide Founded, Inv, Tracked, Scanned, Wf, Addable, Bucket, Covered, Effect, Movable, Followed;
    Holders(o, p);
    InvTracked(o, x);
    Sides(o);
    TrackedFile(o.H, o.P, o.client, p);
    TrackedFile(o.H, o.P, o.server, p);
    EffectTombs(x, y, e);
  }

  lemma EffectTombs(x: World, y: World, e: Event)
    requires Ready(x, e) && Effect(x, y, e) && e.Done? && !e.task.Acking?
    ensures y.client.db.tombs == x.client.db.tombs
  {
    hide Wf, Addable, Movable, Followed;
  }

  lemma NotedByErasing(o: Origin, x: World, y: World, e: Event, p: Path)
    requires Founded(o) && Inv(o, x) && Ready(x, e) && p in o.P && Noted(o, x, p) && e.Done? && Serves(e, p)
    requires Effect(x, y, e) && Records(x, y, e) && e.task.Erasing? && Fair(o, e.task)
    ensures Noted(o, y, p)
  {
    hide Founded, Inv, Tracked, Scanned, Wf, Addable, Bucket, Covered, Effect, Movable, Followed;
  }
}
