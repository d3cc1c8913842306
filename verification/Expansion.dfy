/** The plan file by file: directory entries stand for the live files beneath them. */
module Expansion {
  import opened Common
  import opened Paths
  import opened TreeView
  import opened TreeRuns
  import opened Index
  import opened SyncCommon
  import opened Negotiation
  import opened TreePlan

  /** One file to move or delete, in a given direction. */
  datatype Item = Item(bucket: DiffBucket, path: Path, time: Time)

  /** A directory only the client has is uploaded file by file, one only the server has is
      listed and downloaded file by file. */
  ghost predicate InExpanded(plan: Plan, vc: View, vs: View, it: Item) {
    || Has(plan, Finding(it.bucket, true, it.path, it.time))
    || (it.bucket.OnlyInLeft? && it.time == 0 && LiveFile(vc, it.path)
        && exists d :: d <= it.path && Has(plan, Finding(OnlyInLeft, false, d, 0)))
    || (it.bucket.OnlyInRight? && it.time == 0 && LiveFile(vs, it.path)
        && exists d :: d < it.path && Has(plan, Finding(OnlyInRight, false, d, 0)))
  }

  /** What the two trees alone say about the file p. */
  ghost predicate Visible(vc: View, vs: View, it: Item) {
    && !Hidden(vc, vs, it.path) && !it.bucket.InSync?
    && Verdict(vc, vs, it.path) == Finding(it.bucket, true, it.path, it.time)
  }

  ghost predicate FilePath(vc: View, vs: View, p: Path) {
    (p in vc && vc[p].kind.File?) || (p in vs && vs[p].kind.File?)
  }

  /** On clash-free trees a path is a file on both sides or a directory on both sides. */
  lemma SameKind(P: iset<Path>, vc: View, vs: View, p: Path)
    requires Fits(vc, P) && Fits(vs, P) && p in vc && p in vs
    ensures vc[p].kind == vs[p].kind
  {
  }

  lemma NotHiddenPrefix(vc: View, vs: View, q: Path, p: Path)
    requires !Hidden(vc, vs, p) && q <= p
    ensures !Hidden(vc, vs, q) && !SameHash(vc, vs, q)
  {
  }

  /** Common directories all the way to d, none hidden, means d is looked into. */
  lemma CommonVisited(vc: View, vs: View, d: Path)
    requires !Hidden(vc, vs, d) && forall q :: q <= d ==> CommonDir(vc, vs, q)
    ensures Visited(vc, vs, d)
  {
  }

  /** The first name on the way to a file that is not a directory on both sides. */
  lemma {:induction false} FirstSplit(vc: View, vs: View, p: Path, n: nat) returns (q: Path)
    requires Wf(vc) && Wf(vs) && n <= |p| && !CommonDir(vc, vs, p)
    requires forall x :: x < p[..n] ==> CommonDir(vc, vs, x)
    ensures q != [] && q <= p && !CommonDir(vc, vs, q)
    ensures forall x :: x <= Parent(q) ==> CommonDir(vc, vs, x)
    decreases |p| - n
  {
    if CommonDir(vc, vs, p[..n]) {
      assert n < |p| by { assert p[..|p|] == p; }
      forall x | x < p[..n + 1] ensures CommonDir(vc, vs, x) {
        assert x <= p[..n];
        assert x == p[..n] || x < p[..n];
      }
      q := FirstSplit(vc, vs, p, n + 1);
    } else {
      q := p[..n];
      assert CommonDir(vc, vs, []);
      forall x | x <= Parent(q) ensures CommonDir(vc, vs, x) {
        PrefixOfParent(x, q);
      }
    }
  }

  /** Every visible item is planned, directly or through a directory entry. */
  lemma VisiblePlanned(P: iset<Path>, vc: View, vs: View, it: Item)
    requires ClashFree(P) && Fits(vc, P) && Fits(vs, P) && FilePath(vc, vs, it.path) && Visible(vc, vs, it)
    ensures InExpanded(MerklePlan(vc, vs), vc, vs, it)
  {
    hide MerklePlan, Wf, Hidden;
    var p := it.path;
    assert !CommonDir(vc, vs, p);
    assert p[..0] == [];
    var q := FirstSplit(vc, vs, p, 0);
    PrefixOfParent(Parent(q), q);
    NotHiddenPrefix(vc, vs, q, p);
    NotHiddenPrefix(vc, vs, Parent(q), p);
    CommonVisited(vc, vs, Parent(q));
    SplitKnown(P, vc, vs, q, p);
    if q != p {
      SplitVerdict(P, vc, vs, q, it);
    }
    assert Found(vc, vs, q);
    hide Visited;
    assert Plannable(vc, vs, q);
    PlanExact(vc, vs, Verdict(vc, vs, q));
  }

  /** Strictly above a visible file the splitting directory goes where the file goes. */
  lemma SplitVerdict(P: iset<Path>, vc: View, vs: View, q: Path, it: Item)
    requires ClashFree(P) && Fits(vc, P) && Fits(vs, P) && FilePath(vc, vs, it.path)
    requires q < it.path && !CommonDir(vc, vs, q) && Visible(vc, vs, it)
    ensures Verdict(vc, vs, q) == Finding(it.bucket, false, q, 0) && it.time == 0
    ensures (it.bucket.OnlyInLeft? && LiveFile(vc, it.path)) || (it.bucket.OnlyInRight? && LiveFile(vs, it.path))
  {
    SplitKnown(P, vc, vs, q, it.path);
  }

  /** The splitting name is known on some side; strictly above the file, it is a directory there
      and unknown on the other. */
  lemma SplitKnown(P: iset<Path>, vc: View, vs: View, q: Path, p: Path)
    requires ClashFree(P) && Fits(vc, P) && Fits(vs, P) && FilePath(vc, vs, p)
    requires q <= p && !CommonDir(vc, vs, q)
    ensures q in vc || q in vs
    ensures q < p ==>
      || (q in vc && vc[q].kind.Directory? && q !in vs && p !in vs)
      || (q in vs && vs[q].kind.Directory? && q !in vc && p !in vc)
  {
    if p in vc { PrefixIn(vc, q, p); }
    if p in vs { PrefixIn(vs, q, p); }
    if q in vc && q in vs { SameKind(P, vc, vs, q); }
  }

  /** Every planned item is visible. */
  lemma PlannedVisible(P: iset<Path>, vc: View, vs: View, it: Item)
    requires ClashFree(P) && Fits(vc, P) && Fits(vs, P) && !it.bucket.NeedsDirectoryCheck?
    requires InExpanded(MerklePlan(vc, vs), vc, vs, it)
    ensures FilePath(vc, vs, it.path) && Visible(vc, vs, it)
  {
    hide MerklePlan, Wf;
    var plan, p := MerklePlan(vc, vs), it.path;
    if Has(plan, Finding(it.bucket, true, p, it.time)) {
      PlanExact(vc, vs, Finding(it.bucket, true, p, it.time));
      PlannableNotHidden(vc, vs, p);
      PlannedFile(P, vc, vs, p);
    } else if it.bucket.OnlyInLeft? {
      var d :| d <= p && Has(plan, Finding(OnlyInLeft, false, d, 0));
      PlanExact(vc, vs, Finding(OnlyInLeft, false, d, 0));
      PlannableNotHidden(vc, vs, d);
      PlannedDir(P, vc, vs, d, p);
    } else {
      var d :| d < p && Has(plan, Finding(OnlyInRight, false, d, 0));
      PlanExact(vc, vs, Finding(OnlyInRight, false, d, 0));
      PlannableNotHidden(vc, vs, d);
      PlannedDir(P, vc, vs, d, p);
    }
  }

  lemma PlannableNotHidden(vc: View, vs: View, p: Path)
    requires Plannable(vc, vs, p)
    ensures !Hidden(vc, vs, p)
  {
    forall q | q <= p ensures !SameHash(vc, vs, q) {
      PrefixOfParent(q, p);
      assert q == p || q < p;
    }
  }

  lemma PlannedFile(P: iset<Path>, vc: View, vs: View, p: Path)
    requires Fits(vc, P) && Fits(vs, P) && Plannable(vc, vs, p) && Verdict(vc, vs, p).isFile
    ensures FilePath(vc, vs, p)
  {
    hide Visited, Wf;
    if p in vc && p in vs { SameKind(P, vc, vs, p); }
  }

  /** Below a directory one side alone has, the other side has nothing. */
  lemma PlannedDir(P: iset<Path>, vc: View, vs: View, d: Path, p: Path)
    requires Fits(vc, P) && Fits(vs, P) && !Hidden(vc, vs, d) && d <= p && !Verdict(vc, vs, d).isFile
    requires Verdict(vc, vs, d).bucket.OnlyInLeft? ==> LiveFile(vc, p)
    requires Verdict(vc, vs, d).bucket.OnlyInRight? ==> LiveFile(vs, p)
    requires Verdict(vc, vs, d).bucket.OnlyInLeft? || Verdict(vc, vs, d).bucket.OnlyInRight?
    ensures FilePath(vc, vs, p) && !Hidden(vc, vs, p)
    ensures Verdict(vc, vs, p) == Finding(Verdict(vc, vs, d).bucket, true, p, 0)
  {
    if d in vc && d in vs { SameKind(P, vc, vs, d); }
    if p in vc { PrefixIn(vc, d, p); }
    if p in vs { PrefixIn(vs, d, p); }
    forall q | q <= p ensures !SameHash(vc, vs, q) {
      if q <= d {
        assert !SameHash(vc, vs, q);
      } else {
        assert d <= q;
        if q in vc { PrefixIn(vc, d, q); }
        if q in vs { PrefixIn(vs, d, q); }
      }
    }
  }

  /** Exactly the visible files are planned: those that differ, with no equal hash on the way
      to them, each with the verdict on the two trees. */
  lemma ExpandedExact(P: iset<Path>, vc: View, vs: View, it: Item)
    requires ClashFree(P) && Fits(vc, P) && Fits(vs, P) && !it.bucket.NeedsDirectoryCheck?
    ensures InExpanded(MerklePlan(vc, vs), vc, vs, it) <==> FilePath(vc, vs, it.path) && Visible(vc, vs, it)
  {
    if InExpanded(MerklePlan(vc, vs), vc, vs, it) {
      PlannedVisible(P, vc, vs, it);
    }
    if FilePath(vc, vs, it.path) && Visible(vc, vs, it) {
      VisiblePlanned(P, vc, vs, it);
    }
  }
}
