/** The decision both negotiations share: what to do about one path, and the plan it goes into. */
module SyncCommon {
  import opened Common
  import opened Paths

  /** One path on one side; at most one of the two times is set. */
  datatype SideState = SideState(mtime: Option<Time>, deletedAt: Option<Time>, isDirectory: bool, hash: Bytes) {
    predicate Present() {
      mtime.Some? || deletedAt.Some?
    }

    predicate IsTombstone() {
      deletedAt.Some?
    }

    predicate IsLive() {
      mtime.Some?
    }
  }

  /** A listed file or tombstone; a tombstone carries its time in the mtime field. */
  datatype FileEntry = FileEntry(path: Path, mtime: Time, deleted: bool, hash: Bytes)

  const ABSENT := SideState(None, None, false, [])

  function Live(mtime: Time, isDirectory: bool, hash: Bytes): SideState {
    SideState(Some(mtime), None, isDirectory, hash)
  }

  function Tombstone(at: Time): SideState {
    SideState(None, Some(at), false, [])
  }

  /** Exactly one of the two times, or neither. */
  predicate Proper(s: SideState) {
    s.mtime.None? || s.deletedAt.None?
  }

  datatype DiffBucket =
    | InSync
    | OnlyInLeft
    | OnlyInRight
    | ModifiedWinsLeft
    | ModifiedWinsRight
    | DeletionWinsLeft
    | DeletionWinsRight
    | NeedsDirectoryCheck

  /** Left is the client, right the server. */
  function ClassifyPath(left: SideState, right: SideState): (b: DiffBucket)
    requires Proper(left) && Proper(right)
  {
    if !left.Present() && !right.Present() then InSync
    else if left.Present() && !right.Present() then
      if left.IsTombstone() then InSync else OnlyInLeft
    else if !left.Present() && right.Present() then
      if right.IsTombstone() then InSync else OnlyInRight
    else if left.IsTombstone() && right.IsTombstone() then InSync
    else if left.IsTombstone() && !right.IsTombstone() then
      if left.deletedAt.value > right.mtime.value then DeletionWinsLeft else OnlyInRight
    else if !left.IsTombstone() && right.IsTombstone() then
      if right.deletedAt.value > left.mtime.value then DeletionWinsRight else OnlyInLeft
    else if left.isDirectory && right.isDirectory then NeedsDirectoryCheck
    else if left.hash != [] && left.hash == right.hash then InSync
    else if left.mtime.value > right.mtime.value then ModifiedWinsLeft
    else ModifiedWinsRight
  }

  /** A side as the other end of the connection sees it. */
  function Mirror(b: DiffBucket): DiffBucket {
    match b
    case OnlyInLeft => OnlyInRight
    case OnlyInRight => OnlyInLeft
    case ModifiedWinsLeft => ModifiedWinsRight
    case ModifiedWinsRight => ModifiedWinsLeft
    case DeletionWinsLeft => DeletionWinsRight
    case DeletionWinsRight => DeletionWinsLeft
    case _ => b
  }

  /** The decision treats the two sides alike: swapping them mirrors the bucket, except that
      two live files of the same age go the server's way from either end. */
  lemma ClassifyMirrors(l: SideState, r: SideState)
    requires Proper(l) && Proper(r)
    ensures ClassifyPath(r, l) == Mirror(ClassifyPath(l, r))
      <==> !(l.IsLive() && r.IsLive() && !(l.isDirectory && r.isDirectory) && l.mtime == r.mtime
             && !(l.hash != [] && l.hash == r.hash))
  {
  }

  // ----- the plan -----

  datatype TimedFileEntry = TimedFileEntry(path: Path, mtime: Time)

  /** The six buckets, and the directories still to be compared. */
  datatype Plan = Plan(
    onlyInLeft: seq<(bool, Path)>,
    onlyInRight: seq<(bool, Path)>,
    modifiedWinsLeft: seq<TimedFileEntry>,
    modifiedWinsRight: seq<TimedFileEntry>,
    deletionWinsLeft: seq<TimedFileEntry>,
    deletionWinsRight: seq<TimedFileEntry>,
    directoriesToCheck: seq<Path>)

  const NO_PLAN := Plan([], [], [], [], [], [], [])

  /** One classified path: its bucket, whether it names a file, and the time that goes along. */
  datatype Finding = Finding(bucket: DiffBucket, isFile: bool, path: Path, time: Time)

  function IsFileFor(left: SideState, right: SideState): bool {
    if left.IsLive() then !left.isDirectory else if right.IsLive() then !right.isDirectory else true
  }

  function Classified(path: Path, left: SideState, right: SideState): Finding
    requires Proper(left) && Proper(right)
  {
    var b := ClassifyPath(left, right);
    match b
    case OnlyInLeft => Finding(b, IsFileFor(left, right), path, 0)
    case OnlyInRight => Finding(b, IsFileFor(left, right), path, 0)
    case ModifiedWinsLeft => Finding(b, true, path, left.mtime.value)
    case ModifiedWinsRight => Finding(b, true, path, right.mtime.value)
    case DeletionWinsLeft => Finding(b, true, path, left.deletedAt.value)
    case DeletionWinsRight => Finding(b, true, path, right.deletedAt.value)
    case _ => Finding(b, true, path, 0)
  }

  /** The verdict bucket by bucket: a side wins with the later version, a deletion must be strictly later than
      the live file, two live files of one age go the server's way; an equal hash tells only if it is not empty. */
  lemma ClassifiedMeans(p: Path, l: SideState, r: SideState)
    requires Proper(l) && Proper(r)
    ensures var f := Classified(p, l, r);
      && f.path == p
      && (f.bucket.OnlyInLeft? <==> l.mtime.Some? && r.mtime.None? && !(r.deletedAt.Some? && Newer(r, l)))
      && (f.bucket.OnlyInRight? <==> r.mtime.Some? && l.mtime.None? && !(l.deletedAt.Some? && Newer(l, r)))
      && (f.bucket.DeletionWinsLeft? <==> l.deletedAt.Some? && r.mtime.Some? && Newer(l, r))
      && (f.bucket.DeletionWinsRight? <==> r.deletedAt.Some? && l.mtime.Some? && Newer(r, l))
      && (f.bucket.NeedsDirectoryCheck? <==> BothLive(l, r) && l.isDirectory && r.isDirectory)
      && (f.bucket.ModifiedWinsLeft? <==> Rivals(l, r) && Newer(l, r))
      && (f.bucket.ModifiedWinsRight? <==> Rivals(l, r) && !Newer(l, r))
      && (f.bucket.InSync? <==>
           || (l.mtime.None? && r.mtime.None?)
           || (BothLive(l, r) && !(l.isDirectory && r.isDirectory) && l.hash == r.hash != []))
      && (f.bucket.ModifiedWinsLeft? || f.bucket.DeletionWinsLeft? ==> f.time == When(l))
      && (f.bucket.ModifiedWinsRight? || f.bucket.DeletionWinsRight? ==> f.time == When(r))
      && (!f.isFile <==>
           || (f.bucket.OnlyInLeft? && l.isDirectory)
           || (f.bucket.OnlyInRight? && r.isDirectory))
  {
  }

  /** When a side last had something happen to the path. */
  ghost function When(s: SideState): Time {
    if s.mtime.Some? then s.mtime.value else if s.deletedAt.Some? then s.deletedAt.value else 0
  }

  ghost predicate Newer(a: SideState, b: SideState) {
    When(a) > When(b)
  }

  ghost predicate BothLive(l: SideState, r: SideState) {
    l.mtime.Some? && r.mtime.Some?
  }

  /** Two live versions no equal hash tells to be the same. */
  ghost predicate Rivals(l: SideState, r: SideState) {
    BothLive(l, r) && !(l.isDirectory && r.isDirectory) && !(l.hash == r.hash && l.hash != [])
  }

  function Append(plan: Plan, f: Finding): Plan {
    match f.bucket
    case InSync => plan
    case OnlyInLeft => plan.(onlyInLeft := plan.onlyInLeft + [(f.isFile, f.path)])
    case OnlyInRight => plan.(onlyInRight := plan.onlyInRight + [(f.isFile, f.path)])
    case ModifiedWinsLeft => plan.(modifiedWinsLeft := plan.modifiedWinsLeft + [TimedFileEntry(f.path, f.time)])
    case ModifiedWinsRight => plan.(modifiedWinsRight := plan.modifiedWinsRight + [TimedFileEntry(f.path, f.time)])
    case DeletionWinsLeft => plan.(deletionWinsLeft := plan.deletionWinsLeft + [TimedFileEntry(f.path, f.time)])
    case DeletionWinsRight => plan.(deletionWinsRight := plan.deletionWinsRight + [TimedFileEntry(f.path, f.time)])
    case NeedsDirectoryCheck => plan.(directoriesToCheck := plan.directoriesToCheck + [f.path])
  }

  /** The finding is recorded in its bucket. */
  predicate Has(plan: Plan, f: Finding) {
    match f.bucket
    case InSync => false
    case OnlyInLeft => (f.isFile, f.path) in plan.onlyInLeft && f.time == 0
    case OnlyInRight => (f.isFile, f.path) in plan.onlyInRight && f.time == 0
    case ModifiedWinsLeft => TimedFileEntry(f.path, f.time) in plan.modifiedWinsLeft && f.isFile
    case ModifiedWinsRight => TimedFileEntry(f.path, f.time) in plan.modifiedWinsRight && f.isFile
    case DeletionWinsLeft => TimedFileEntry(f.path, f.time) in plan.deletionWinsLeft && f.isFile
    case DeletionWinsRight => TimedFileEntry(f.path, f.time) in plan.deletionWinsRight && f.isFile
    case NeedsDirectoryCheck => f.path in plan.directoriesToCheck && f.isFile && f.time == 0
  }

  lemma AppendHas(plan: Plan, path: Path, left: SideState, right: SideState, g: Finding)
    requires Proper(left) && Proper(right)
    ensures var f := Classified(path, left, right);
      Has(Append(plan, f), g) <==> Has(plan, g) || (g == f && f.bucket != InSync)
  {
  }

  // ----- how often a path occurs -----

  function FlaggedCount(s: seq<(bool, Path)>, p: Path): nat {
    if s == [] then 0 else FlaggedCount(s[..|s| - 1], p) + if s[|s| - 1].1 == p then 1 else 0
  }

  function TimedCount(s: seq<TimedFileEntry>, p: Path): nat {
    if s == [] then 0 else TimedCount(s[..|s| - 1], p) + if s[|s| - 1].path == p then 1 else 0
  }

  function PathCount(s: seq<Path>, p: Path): nat {
    if s == [] then 0 else PathCount(s[..|s| - 1], p) + if s[|s| - 1] == p then 1 else 0
  }

  lemma {:induction false} PathCountIn(s: seq<Path>, p: Path)
    ensures PathCount(s, p) > 0 <==> p in s
  {
    if s != [] {
      PathCountIn(s[..|s| - 1], p);
      assert s == s[..|s| - 1] + [s[|s| - 1]];
    }
  }

  lemma {:induction false} PathCountNoDup(s: seq<Path>)
    requires forall p :: PathCount(s, p) <= 1
    ensures NoDup(s)
  {
    if s != [] {
      var t, x := s[..|s| - 1], s[|s| - 1];
      assert forall p :: PathCount(s, p) == PathCount(t, p) + if x == p then 1 else 0;
      PathCountNoDup(t);
      PathCountIn(t, x);
      assert PathCount(s, x) <= 1;
    }
  }

  /** The buckets' mentions of a path. */
  function Bucketed(plan: Plan, p: Path): nat {
    FlaggedCount(plan.onlyInLeft, p) + FlaggedCount(plan.onlyInRight, p)
    + TimedCount(plan.modifiedWinsLeft, p) + TimedCount(plan.modifiedWinsRight, p)
    + TimedCount(plan.deletionWinsLeft, p) + TimedCount(plan.deletionWinsRight, p)
  }

  /** Every mention of a path, in a bucket or among the directories to check. */
  function Mentions(plan: Plan, p: Path): nat {
    Bucketed(plan, p) + PathCount(plan.directoriesToCheck, p)
  }

  lemma FlaggedSnoc(s: seq<(bool, Path)>, e: (bool, Path), p: Path)
    ensures FlaggedCount(s + [e], p) == FlaggedCount(s, p) + if e.1 == p then 1 else 0
  {
    assert (s + [e])[..|s + [e]| - 1] == s;
  }

  lemma TimedSnoc(s: seq<TimedFileEntry>, e: TimedFileEntry, p: Path)
    ensures TimedCount(s + [e], p) == TimedCount(s, p) + if e.path == p then 1 else 0
  {
    assert (s + [e])[..|s + [e]| - 1] == s;
  }

  lemma PathSnoc(s: seq<Path>, e: Path, p: Path)
    ensures PathCount(s + [e], p) == PathCount(s, p) + if e == p then 1 else 0
  {
    assert (s + [e])[..|s + [e]| - 1] == s;
  }

  lemma AppendMentions(plan: Plan, f: Finding, p: Path)
    ensures Mentions(Append(plan, f), p) == Mentions(plan, p) + if p == f.path && !f.bucket.InSync? then 1 else 0
  {
    hide FlaggedCount, TimedCount, PathCount;
    var q := Append(plan, f);
    match f.bucket {
      case InSync =>
      case OnlyInLeft => FlaggedSnoc(plan.onlyInLeft, (f.isFile, f.path), p);
      case OnlyInRight => FlaggedSnoc(plan.onlyInRight, (f.isFile, f.path), p);
      case ModifiedWinsLeft => TimedSnoc(plan.modifiedWinsLeft, TimedFileEntry(f.path, f.time), p);
      case ModifiedWinsRight => TimedSnoc(plan.modifiedWinsRight, TimedFileEntry(f.path, f.time), p);
      case DeletionWinsLeft => TimedSnoc(plan.deletionWinsLeft, TimedFileEntry(f.path, f.time), p);
      case DeletionWinsRight => TimedSnoc(plan.deletionWinsRight, TimedFileEntry(f.path, f.time), p);
      case NeedsDirectoryCheck => PathSnoc(plan.directoriesToCheck, f.path, p);
    }
  }

  // ----- classifying a list of paths -----

  /** The verdicts on the paths go into the plan in order. */
  function Collect(verdict: Path -> Finding, paths: seq<Path>, plan: Plan): Plan {
    if paths == [] then plan
    else Append(Collect(verdict, paths[..|paths| - 1], plan), verdict(paths[|paths| - 1]))
  }

  lemma {:induction false} CollectAppend(verdict: Path -> Finding, a: seq<Path>, b: seq<Path>, plan: Plan)
    ensures Collect(verdict, a + b, plan) == Collect(verdict, b, Collect(verdict, a, plan))
  {
    if b == [] {
      assert a + b == a;
    } else {
      assert (a + b)[..|a + b| - 1] == a + b[..|b| - 1];
      CollectAppend(verdict, a, b[..|b| - 1], plan);
    }
  }

  lemma EmptyCollect(verdict: Path -> Finding, plan: Plan)
    ensures Collect(verdict, [], plan) == plan
  {
  }

  lemma CollectNext(verdict: Path -> Finding, paths: seq<Path>, p: Path, plan: Plan)
    ensures Collect(verdict, paths + [p], plan) == Append(Collect(verdict, paths, plan), verdict(p))
  {
    assert (paths + [p])[..|paths + [p]| - 1] == paths;
  }

  /** Verdicts as the classifier makes them: about the path they are asked for. */
  ghost predicate Judges(verdict: Path -> Finding) {
    forall p :: exists l, r :: Proper(l) && Proper(r) && verdict(p) == Classified(p, l, r)
  }

  lemma ClassifiedPath(p: Path, l: SideState, r: SideState)
    requires Proper(l) && Proper(r)
    ensures Classified(p, l, r).path == p
  {
  }

  lemma {:induction false} CollectHas(verdict: Path -> Finding, paths: seq<Path>, plan: Plan, g: Finding)
    requires Judges(verdict)
    ensures Has(Collect(verdict, paths, plan), g) <==>
      Has(plan, g) || (g.path in paths && g == verdict(g.path) && !g.bucket.InSync?)
  {
    if paths != [] {
      hide Has, Append, Classified;
      var p, t := paths[|paths| - 1], paths[..|paths| - 1];
      CollectHas(verdict, t, plan, g);
      var l, r :| Proper(l) && Proper(r) && verdict(p) == Classified(p, l, r);
      AppendHas(Collect(verdict, t, plan), p, l, r, g);
      ClassifiedPath(p, l, r);
      assert paths == t + [p];
    }
  }

  lemma {:induction false} CollectMentions(verdict: Path -> Finding, paths: seq<Path>, plan: Plan, p: Path)
    requires Judges(verdict)
    ensures Mentions(Collect(verdict, paths, plan), p) ==
      Mentions(plan, p) + if verdict(p).bucket.InSync? then 0 else PathCount(paths, p)
  {
    if paths != [] {
      hide Mentions, Append, Classified;
      var q, t := paths[|paths| - 1], paths[..|paths| - 1];
      CollectMentions(verdict, t, plan, p);
      AppendMentions(Collect(verdict, t, plan), verdict(q), p);
      var l, r :| Proper(l) && Proper(r) && verdict(q) == Classified(q, l, r);
      ClassifiedPath(q, l, r);
    }
  }
}
