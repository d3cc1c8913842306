/** What a synchronisation should leave of every file, and which side each verdict favours. */
module Merge {
  import opened Common
  import opened Paths
  import opened TreeView
  import opened TreeRuns
  import opened Index
  import opened SyncCommon
  import opened Negotiation
  import opened TreePlan
  import opened Expansion
  import opened Equivalence
  import opened Replicas

  /** Deleted in the tree, later than the given time. */
  predicate DeletedAfter(db: Db, p: Path, mtime: Time) {
    p in db.tree && db.tree[p].isDeleted && db.tree[p].deletedAt > mtime
  }

  /** The later version survives; a tie goes to the live file over a deletion, and to the
      server's file over the client's. */
  function Merged(c: Replica, s: Replica, p: Path): Option<Bytes>
    requires p in c.files ==> p in c.db.mtimes
    requires p in s.files ==> p in s.db.mtimes
  {
    if p in c.files && p in s.files then
      if c.db.mtimes[p] > s.db.mtimes[p] then Held(c, p) else Held(s, p)
    else if p in c.files then
      if DeletedAfter(s.db, p, c.db.mtimes[p]) then None else Held(c, p)
    else if p in s.files then
      if DeletedAfter(c.db, p, s.db.mtimes[p]) then None else Held(s, p)
    else None
  }

  /** Two different contents of one file have different digests. */
  ghost predicate DigestTells(H: Hasher, c: Replica, s: Replica) {
    forall p :: p in c.files && p in s.files && H.digest(c.files[p]) == H.digest(s.files[p]) ==>
      c.files[p] == s.files[p]
  }

  predicate LeftWins(b: DiffBucket) {
    b.OnlyInLeft? || b.ModifiedWinsLeft? || b.DeletionWinsLeft?
  }

  predicate RightWins(b: DiffBucket) {
    b.OnlyInRight? || b.ModifiedWinsRight? || b.DeletionWinsRight?
  }

  /** An equal hash on the way to a file whose contents differ. */
  ghost predicate Overlooked(c: Replica, s: Replica, p: Path) {
    Hidden(c.db.tree, s.db.tree, p) && Held(c, p) != Held(s, p)
  }

  /** The classifier's verdict on a path, read off the two trees. */
  ghost function BucketAt(c: Replica, s: Replica, p: Path): DiffBucket {
    Verdict(c.db.tree, s.db.tree, p).bucket
  }

  /** The side a verdict favours holds the file as it should be; where it favours none, or both hold the
      same, both do. */
  lemma DecisionMeaning(H: Hasher, P: iset<Path>, c: Replica, s: Replica, p: Path)
    requires Tracked(H, P, c) && Tracked(H, P, s) && p in P
    ensures p in c.files ==> p in c.db.mtimes
    ensures p in s.files ==> p in s.db.mtimes
    ensures var b := BucketAt(c, s, p);
      && !b.NeedsDirectoryCheck?
      && (LeftWins(b) ==> Merged(c, s, p) == Held(c, p))
      && (RightWins(b) ==> Merged(c, s, p) == Held(s, p))
      && (b.InSync? || Held(c, p) == Held(s, p) ==> Merged(c, s, p) == Held(c, p) == Held(s, p))
  {
    hide Tracked, Wf;
    TrackedFile(H, P, c, p);
    TrackedFile(H, P, s, p);
    TrackedKind(H, P, c, p);
    TrackedKind(H, P, s, p);
  }

  /** Where equal hashes mean equal contents nothing is overlooked. */
  lemma NoneOverlooked(H: Hasher, P: iset<Path>, c: Replica, s: Replica, p: Path)
    requires Scanned(H, P, c) && Scanned(H, P, s) && DigestTells(H, c, s) && HashesTell(c.db.tree, s.db.tree)
    ensures !Overlooked(c, s, p)
  {
    hide Scanned;
    ScannedFile(H, P, c, p);
    ScannedFile(H, P, s, p);
    if Hidden(c.db.tree, s.db.tree, p) {
      var q :| q <= p && SameHash(c.db.tree, s.db.tree, q);
      assert p in c.db.tree <==> p in s.db.tree;
      if p in c.files || p in s.files {
        ScannedTracked(H, P, c);
        ScannedTracked(H, P, s);
        TrackedKind(H, P, c, p);
        TrackedKind(H, P, s, p);
      }
    }
  }

  lemma TrackedKind(H: Hasher, P: iset<Path>, r: Replica, p: Path)
    requires Tracked(H, P, r)
    ensures p in r.db.tree ==> (r.db.tree[p].kind.File? <==> p in P)
  {
  }
}
