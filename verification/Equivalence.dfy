/** When the tree negotiation plans exactly what the simple one does. */
module Equivalence {
  import opened Common
  import opened Paths
  import opened TreeView
  import opened TreeRuns
  import opened Index
  import opened SyncCommon
  import opened Negotiation
  import opened NegotiationRun
  import opened TreePlan
  import opened Expansion
  import opened NaiveSync

  ghost predicate NaiveItem(c: Db, s: Db, it: Item) {
    !it.bucket.InSync? && NaiveVerdict(c, s, it.path) == Finding(it.bucket, true, it.path, it.time)
  }

  ghost predicate TreeItem(c: Db, s: Db, it: Item) {
    FilePath(c.tree, s.tree, it.path) && Visible(c.tree, s.tree, it)
  }

  /** A tracked file without a recorded deletion. */
  predicate Recorded(db: Db, p: Path) {
    p in db.mtimes && p !in db.tombs
  }

  /** Both databases track the file under one hash that is not empty, or neither tracks it. */
  predicate SameRecord(c: Db, s: Db, p: Path) {
    if Recorded(c, p) && Recorded(s, p) then
      p in c.hashes && p in s.hashes && c.hashes[p] == s.hashes[p] != []
    else !Recorded(c, p) && !Recorded(s, p)
  }

  /** The simple negotiation leaves alone exactly the paths with equal records. */
  lemma SameRecordInSync(c: Db, s: Db, p: Path)
    ensures SameRecord(c, s, p) <==> NaiveVerdict(c, s, p).bucket.InSync?
  {
  }

  /** An equal hash on the way to p keeps the tree negotiation from a file whose records differ. */
  ghost predicate Misses(c: Db, s: Db, p: Path) {
    Hidden(c.tree, s.tree, p) && !SameRecord(c, s, p)
  }

  /** Recorded again after its deletion: the maps still hold the tombstone, the tree does not. */
  predicate Shadowed(db: Db, p: Path) {
    p in db.tombs && p in db.mtimes
  }

  /** A deletion recorded for a path the tree never held, later than the other side's file. */
  predicate LateOrphan(db: Db, other: Db, p: Path) {
    p in db.tombs && p !in db.tree && p in other.mtimes && db.tombs[p] > other.mtimes[p]
  }

  /** A leftover tombstone in a map misleads the simple negotiation about p. */
  ghost predicate Stale(c: Db, s: Db, p: Path) {
    !Hidden(c.tree, s.tree, p) && (Shadowed(c, p) || Shadowed(s, p) || LateOrphan(c, s, p) || LateOrphan(s, c, p))
  }

  /** A path's state in the tree, read off the maps where no tombstone is left over. */
  lemma TreeStates(H: Hasher, P: iset<Path>, db: Db, p: Path)
    requires Agrees(H, P, db)
    ensures p in db.mtimes ==> p in db.hashes && p in db.tree && db.tree[p].kind.File?
    ensures p in db.mtimes ==> NodeState(db.tree, p) == Live(db.mtimes[p], false, []) && db.tree[p].hash == db.hashes[p]
    ensures p in db.tree ==> (db.tree[p].kind.File? <==> p in P)
    ensures p !in db.mtimes && p in db.tree && db.tree[p].kind.File? ==>
      p in db.tombs && NodeState(db.tree, p) == Tombstone(db.tombs[p])
    ensures p in db.tree && db.tree[p].kind.Directory? ==> p !in db.mtimes && p !in db.tombs
    ensures p !in db.tree ==> p !in db.mtimes
  {
    assert AgreesAt(db, p);
    hide Wf, HashOk;
  }

  /** Off the two failing families the verdicts coincide. */
  lemma VerdictsMeet(H: Hasher, P: iset<Path>, c: Db, s: Db, it: Item)
    requires Agrees(H, P, c) && Agrees(H, P, s) && !Misses(c, s, it.path) && !Stale(c, s, it.path)
    ensures TreeItem(c, s, it) <==> NaiveItem(c, s, it)
  {
    hide Agrees;
    var p := it.path;
    SameRecordInSync(c, s, p);
    hide SameRecord;
    TreeStates(H, P, c, p);
    TreeStates(H, P, s, p);
    if !Hidden(c.tree, s.tree, p) {
      assert p <= p;
      assert !SameHash(c.tree, s.tree, p);
    }
    hide Hidden;
  }

  /** On each of them some item is on one plan only. */
  lemma VerdictsPart(H: Hasher, P: iset<Path>, c: Db, s: Db, p: Path) returns (it: Item)
    requires Agrees(H, P, c) && Agrees(H, P, s) && (Misses(c, s, p) || Stale(c, s, p))
    ensures it.path == p && !it.bucket.NeedsDirectoryCheck? && TreeItem(c, s, it) != NaiveItem(c, s, it)
  {
    hide Agrees;
    SameRecordInSync(c, s, p);
    hide SameRecord;
    TreeStates(H, P, c, p);
    TreeStates(H, P, s, p);
    if !Hidden(c.tree, s.tree, p) {
      assert p <= p;
      assert !SameHash(c.tree, s.tree, p);
    }
    hide Hidden;
    var n, t := NaiveVerdict(c, s, p), Verdict(c.tree, s.tree, p);
    it := if !n.bucket.InSync? then Item(n.bucket, p, n.time) else Item(t.bucket, p, t.time);
  }

  /** The fast negotiation plans file by file exactly what the simple one plans, if and only if
      no differing path lies at or below a node whose hashes agree and no leftover tombstone
      misleads the simple one. */
  lemma MerkleIsNaive(H: Hasher, P: iset<Path>, c: Db, s: Db)
    requires ClashFree(P) && Agrees(H, P, c) && Agrees(H, P, s)
    ensures (forall it: Item :: !it.bucket.NeedsDirectoryCheck? ==>
              (InExpanded(MerklePlan(c.tree, s.tree), c.tree, s.tree, it) <==> NaiveItem(c, s, it)))
      <==> (forall p :: !Misses(c, s, p) && !Stale(c, s, p))
  {
    hide Agrees, Misses, Stale, NaiveItem, TreeItem, InExpanded, MerklePlan, Wf;
    AgreesFits(H, P, c);
    AgreesFits(H, P, s);
    forall it: Item | !it.bucket.NeedsDirectoryCheck?
      ensures InExpanded(MerklePlan(c.tree, s.tree), c.tree, s.tree, it) <==> TreeItem(c, s, it)
    {
      TreeItemExact(P, c, s, it);
    }
    if forall p :: !Misses(c, s, p) && !Stale(c, s, p) {
      forall it: Item | !it.bucket.NeedsDirectoryCheck? ensures TreeItem(c, s, it) <==> NaiveItem(c, s, it) {
        VerdictsMeet(H, P, c, s, it);
      }
    }
    if !forall p :: !Misses(c, s, p) && !Stale(c, s, p) {
      var p :| Misses(c, s, p) || Stale(c, s, p);
      var it := VerdictsPart(H, P, c, s, p);
    }
  }

  lemma AgreesFits(H: Hasher, P: iset<Path>, db: Db)
    requires Agrees(H, P, db)
    ensures Fits(db.tree, P) && HashOk(H, db.tree)
  {
  }

  lemma TreeItemExact(P: iset<Path>, c: Db, s: Db, it: Item)
    requires ClashFree(P) && Fits(c.tree, P) && Fits(s.tree, P) && !it.bucket.NeedsDirectoryCheck?
    ensures InExpanded(MerklePlan(c.tree, s.tree), c.tree, s.tree, it) <==> TreeItem(c, s, it)
  {
    ExpandedExact(P, c.tree, s.tree, it);
  }

  // ----- histories on which the two agree, and one on which they do not -----

  /** Every recorded tombstone is a tombstone of the tree: nothing was recorded again after its
      deletion, nothing deleted that was never recorded. */
  ghost predicate NoLeftovers(db: Db) {
    forall p :: p in db.tombs ==> p !in db.mtimes && p in db.tree
  }

  /** A file is recorded before it is deleted and never afterwards. */
  ghost predicate Tidy(ops: seq<Op>) {
    && (forall i, j :: 0 <= i < j < |ops| && ops[i].Del? && ops[j].Put? ==> ops[i].path != ops[j].path)
    && (forall j :: 0 <= j < |ops| && ops[j].Del? ==>
      exists i :: 0 <= i < j && ops[i].Put? && ops[i].path == ops[j].path)
  }

  lemma TidyPrefix(ops: seq<Op>)
    requires Tidy(ops) && ops != []
    ensures Tidy(ops[..|ops| - 1])
  {
    var t := ops[..|ops| - 1];
    forall j | 0 <= j < |t| && t[j].Del? ensures exists i :: 0 <= i < j && t[i].Put? && t[i].path == t[j].path {
      assert ops[j].Del?;
      var i :| 0 <= i < j && ops[i].Put? && ops[i].path == ops[j].path;
      assert t[i] == ops[i];
    }
  }

  /** The deletions made are the tombstones recorded, the files recorded are in the tree. */
  ghost predicate Traces(db: Db, ops: seq<Op>) {
    && (forall p :: p in db.tombs ==> exists i :: 0 <= i < |ops| && ops[i].Del? && ops[i].path == p)
    && (forall i :: 0 <= i < |ops| && ops[i].Put? ==> ops[i].path in db.tree)
  }

  lemma TracesStep(db: Db, d: Db, ops: seq<Op>)
    requires ops != [] && Traces(db, ops[..|ops| - 1]) && MapsStep(db, d, ops[|ops| - 1])
    requires db.tree.Keys <= d.tree.Keys && (ops[|ops| - 1].Put? ==> ops[|ops| - 1].path in d.tree)
    ensures Traces(d, ops)
  {
    var t, op := ops[..|ops| - 1], ops[|ops| - 1];
    forall p | p in d.tombs ensures exists i :: 0 <= i < |ops| && ops[i].Del? && ops[i].path == p {
      if p in db.tombs {
        var i :| 0 <= i < |t| && t[i].Del? && t[i].path == p;
        assert ops[i] == t[i];
      } else {
        assert ops[|ops| - 1].Del?;
      }
    }
    forall i | 0 <= i < |ops| && ops[i].Put? ensures ops[i].path in d.tree {
      if i < |t| { assert t[i] == ops[i]; }
    }
  }

  lemma LeftoversStep(db: Db, d: Db, ops: seq<Op>)
    requires ops != [] && Tidy(ops) && Traces(db, ops[..|ops| - 1]) && MapsStep(db, d, ops[|ops| - 1])
    requires NoLeftovers(db) && db.tree.Keys <= d.tree.Keys
    ensures NoLeftovers(d)
  {
    var t, op := ops[..|ops| - 1], ops[|ops| - 1];
    if op.Del? {
      var i :| 0 <= i < |ops| - 1 && ops[i].Put? && ops[i].path == op.path;
      assert t[i] == ops[i];
    } else {
      assert forall i :: 0 <= i < |t| ==> t[i] == ops[i];
      assert op.path !in db.tombs;
    }
  }

  lemma {:induction false} TidyNoLeftovers(H: Hasher, P: iset<Path>, ops: seq<Op>)
    requires ClashFree(P) && (forall op :: op in ops ==> op.path in P) && Tidy(ops)
    ensures NoLeftovers(RunDb(H, P, ops)) && Traces(RunDb(H, P, ops), ops)
  {
    hide Wf, HashOk, Fits, Agrees, Traces, NoLeftovers, Tidy, MapsStep, Record;
    if ops == [] {
      EmptyTraces(H);
    } else {
      var t, op := ops[..|ops| - 1], ops[|ops| - 1];
      TidyPrefix(ops);
      TidyNoLeftovers(H, P, t);
      RecordGrows(H, P, RunDb(H, P, t), op);
      TracesStep(RunDb(H, P, t), RunDb(H, P, ops), ops);
      LeftoversStep(RunDb(H, P, t), RunDb(H, P, ops), ops);
    }
  }

  lemma EmptyTraces(H: Hasher)
    ensures NoLeftovers(EmptyDb(H)) && Traces(EmptyDb(H), [])
  {
  }

  /** A call keeps every node; a recorded file has one. */
  lemma RecordGrows(H: Hasher, P: iset<Path>, db: Db, op: Op)
    requires ClashFree(P) && op.path in P && Agrees(H, P, db)
    ensures op.Put? ==> Addable(db.tree, op.path)
    ensures db.tree.Keys <= Record(H, db, op).tree.Keys
    ensures op.Put? ==> op.path in Record(H, db, op).tree
    ensures MapsStep(db, Record(H, db, op), op)
  {
    hide Wf, HashOk, AddView, DeleteView;
    EditGrows(H, P, db.tree, op);
    StepFile(H, P, db.tree, op, op.path);
    assert Record(H, db, op).tree == Step(H, db.tree, op);
  }

  /** An equal hash at a path means the same names, flags and hashes below it. */
  ghost predicate HashesTell(vc: View, vs: View) {
    forall q, p :: SameHash(vc, vs, q) && q <= p ==>
      (p in vc <==> p in vs) && (p in vc ==> vc[p].hash == vs[p].hash && vc[p].isDeleted == vs[p].isDeleted)
  }

  /** Hashes of one fixed length without a collision at hand tell the subtrees apart wherever
      equal hashes come with the same names in the same order. */
  lemma SoundHashesTell(H: Hasher, P: iset<Path>, vc: View, vs: View, size: nat)
    requires Fits(vc, P) && Fits(vs, P) && HashOk(H, vc) && HashOk(H, vs)
    requires FixedLength(vc, size) && FixedLength(vs, size)
    requires forall q :: SameHash(vc, vs, q) ==> SameShape(vc, vs, q) && NoCollision(H, vc, vs, q)
    ensures HashesTell(vc, vs)
  {
    forall q, p | SameHash(vc, vs, q) && q <= p
      ensures (p in vc <==> p in vs) && (p in vc ==> vc[p].hash == vs[p].hash && vc[p].isDeleted == vs[p].isDeleted)
    {
      if p in vc {
        FitsExposed(vc, P, p);
        FitsExposed(vs, P, p);
        EqualHashEqualBelow(H, vc, vs, q, p, size);
      }
    }
  }

  ghost predicate ContentHashed(db: Db) {
    forall p :: p in db.hashes ==> db.hashes[p] != []
  }

  /** The usual case: tidy histories, contents with non-empty hashes, and hashes that tell the
      subtrees apart. Then both negotiations plan the same files with the same times. */
  lemma MerkleIsNaiveOnTidyHistories(H: Hasher, P: iset<Path>, clientOps: seq<Op>, serverOps: seq<Op>, it: Item)
    requires ClashFree(P) && (forall op :: op in clientOps ==> op.path in P)
    requires (forall op :: op in serverOps ==> op.path in P)
    requires Tidy(clientOps) && Tidy(serverOps) && !it.bucket.NeedsDirectoryCheck?
    requires ContentHashed(RunDb(H, P, clientOps)) && ContentHashed(RunDb(H, P, serverOps))
    requires HashesTell(RunDb(H, P, clientOps).tree, RunDb(H, P, serverOps).tree)
    ensures var c, s := RunDb(H, P, clientOps), RunDb(H, P, serverOps);
      InExpanded(MerklePlan(c.tree, s.tree), c.tree, s.tree, it) <==> NaiveItem(c, s, it)
  {
    hide Wf, HashOk, Fits, Agrees, Misses, Stale, InExpanded, MerklePlan, NaiveItem, HashesTell, NoLeftovers;
    hide ContentHashed, RunDb;
    TidyNoLeftovers(H, P, clientOps);
    TidyNoLeftovers(H, P, serverOps);
    var c, s := RunDb(H, P, clientOps), RunDb(H, P, serverOps);
    forall p ensures !Misses(c, s, p) && !Stale(c, s, p) {
      NothingMissed(H, P, c, s, p);
    }
    MerkleIsNaive(H, P, c, s);
  }

  lemma NothingMissed(H: Hasher, P: iset<Path>, c: Db, s: Db, p: Path)
    requires Agrees(H, P, c) && Agrees(H, P, s) && NoLeftovers(c) && NoLeftovers(s)
    requires ContentHashed(c) && ContentHashed(s) && HashesTell(c.tree, s.tree)
    ensures !Misses(c, s, p) && !Stale(c, s, p)
  {
    hide Agrees;
    TreeStates(H, P, c, p);
    TreeStates(H, P, s, p);
    if Hidden(c.tree, s.tree, p) {
      var q :| q <= p && SameHash(c.tree, s.tree, q);
    }
  }

  /** Renaming a file inside a directory keeps the directory's hash: the root hashes agree, the
      tree negotiation stops with an empty plan, and the simple one still has work to do. */
  lemma RenameGoesUnseen(H: Hasher, a: Name, b: Name, mtime: Time, hash: Bytes)
    requires a != b
    ensures var P := iset{[a], [b]};
      ClashFree(P) && var c, s := RunDb(H, P, [Put([a], mtime, hash)]), RunDb(H, P, [Put([b], mtime, hash)]);
      && MerklePlan(c.tree, s.tree) == NO_PLAN
      && NaiveItem(c, s, Item(OnlyInLeft, [a], 0)) && NaiveItem(c, s, Item(OnlyInRight, [b], 0))
  {
    var P := iset{[a], [b]};
    assert ClashFree(P);
    RunOne(H, P, Put([a], mtime, hash));
    RunOne(H, P, Put([b], mtime, hash));
    var c, s := RunDb(H, P, [Put([a], mtime, hash)]), RunDb(H, P, [Put([b], mtime, hash)]);
    RenameKeepsRootHash(H, a, b, mtime, hash);
    hide AddView, Wf, Agrees, RunDb;
    assert [a] != [b] by { assert [a][0] == a && [b][0] == b; }
    RenameItems(c, s, [a], [b], mtime, hash);
  }

  lemma RenameItems(c: Db, s: Db, p: Path, q: Path, mtime: Time, hash: Bytes)
    requires p != q && c.mtimes == map[p := mtime] && s.mtimes == map[q := mtime] && c.tombs == s.tombs == map[]
    ensures NaiveItem(c, s, Item(OnlyInLeft, p, 0)) && NaiveItem(c, s, Item(OnlyInRight, q, 0))
  {
  }

  /** One file recorded, deleted, and recorded again. */
  function Again(p: Path, was: Time, at: Time, now: Time, hash: Bytes): seq<Op> {
    ([Put(p, was, hash)] + [Del(p, at)]) + [Put(p, now, hash)]
  }

  ghost predicate HistoryOf(P: iset<Path>, ops: seq<Op>) {
    ClashFree(P) && forall op :: op in ops ==> op.path in P
  }

  lemma RunSnoc(H: Hasher, P: iset<Path>, ops: seq<Op>, op: Op)
    requires HistoryOf(P, ops) && op.path in P
    ensures HistoryOf(P, ops + [op]) && MapsStep(RunDb(H, P, ops), RunDb(H, P, ops + [op]), op)
  {
    hide Record, Agrees, MapsStep;
    assert (ops + [op])[..|ops + [op]| - 1] == ops;
    RecordGrows(H, P, RunDb(H, P, ops), op);
  }

  lemma EmptyRun(H: Hasher, P: iset<Path>)
    requires ClashFree(P)
    ensures HistoryOf(P, []) && RunDb(H, P, []) == EmptyDb(H)
  {
  }

  lemma AfterOne(H: Hasher, p: Path, was: Time, hash: Bytes)
    requires p != []
    ensures HistoryOf(iset{p}, [Put(p, was, hash)])
    ensures var c := RunDb(H, iset{p}, [Put(p, was, hash)]); c.mtimes == map[p := was] && c.tombs == map[]
  {
    hide RunDb, Wf;
    assert ClashFree(iset{p});
    EmptyRun(H, iset{p});
    hide ClashFree;
    RunSnoc(H, iset{p}, [], Put(p, was, hash));
    assert [] + [Put(p, was, hash)] == [Put(p, was, hash)];
  }

  lemma AfterAgain(H: Hasher, p: Path, was: Time, at: Time, now: Time, hash: Bytes)
    requires p != []
    ensures HistoryOf(iset{p}, Again(p, was, at, now, hash))
    ensures var s := RunDb(H, iset{p}, Again(p, was, at, now, hash));
      s.mtimes == map[p := now] && s.tombs == map[p := at]
  {
    hide RunDb, Wf, HistoryOf, ClashFree;
    AfterOne(H, p, was, hash);
    RunSnoc(H, iset{p}, [Put(p, was, hash)], Del(p, at));
    RunSnoc(H, iset{p}, [Put(p, was, hash)] + [Del(p, at)], Put(p, now, hash));
  }

  lemma AgainItem(c: Db, s: Db, p: Path, was: Time, at: Time, now: Time)
    requires c.mtimes == map[p := was] && c.tombs == map[] && s.mtimes == map[p := now] && s.tombs == map[p := at]
    requires was < at
    ensures Shadowed(s, p) && NaiveItem(c, s, Item(DeletionWinsRight, p, at))
    ensures !NaiveVerdict(c, s, p).bucket.InSync?
  {
  }

  /** Such a file keeps its tombstone. If another side holds it from before the deletion, the simple negotiation
      plans it twice, and plans to delete that copy instead of bringing it up to date. */
  lemma RecordedAgain(
      H: Hasher, p: Path, was: Time, at: Time, now: Time, hash: Bytes, es: seq<FileEntry>, order: seq<Path>)
    requires p != [] && was < at
    ensures HistoryOf(iset{p}, [Put(p, was, hash)]) && HistoryOf(iset{p}, Again(p, was, at, now, hash))
    ensures var c := RunDb(H, iset{p}, [Put(p, was, hash)]);
      var s := RunDb(H, iset{p}, Again(p, was, at, now, hash));
      && Shadowed(s, p) && NaiveItem(c, s, Item(DeletionWinsRight, p, at))
      && (ListingOf(s, es) && Unlisted(c, es, order) ==>
            Mentions(Collect(ListedVerdict(c, es), PathsOf(es) + order, NO_PLAN), p) > 1)
  {
    hide RunDb, ListingOf, Unlisted, ListedVerdict, Collect, Mentions, PathsOf, Wf, Agrees, NaiveVerdict, NaiveItem;
    AfterOne(H, p, was, hash);
    AfterAgain(H, p, was, at, now, hash);
    var c := RunDb(H, iset{p}, [Put(p, was, hash)]);
    var s := RunDb(H, iset{p}, Again(p, was, at, now, hash));
    AgainItem(c, s, p, was, at, now);
    if ListingOf(s, es) && Unlisted(c, es, order) {
      NaiveTwice(c, s, es, order, p);
    }
  }

  lemma RunOne(H: Hasher, P: iset<Path>, op: Op)
    requires ClashFree(P) && op.path in P
    ensures op.Put? ==> Addable(Empty(H), op.path)
    ensures Wf(Empty(H)) && RunDb(H, P, [op]) == Record(H, EmptyDb(H), op)
  {
    EmptyOk(H, P);
    FitsAddable(Empty(H), P, op.path);
    hide Agrees, Record;
    assert [op][..0] == [];
    assert RunDb(H, P, []) == EmptyDb(H);
  }
}
