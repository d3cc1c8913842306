/** One user's slice of the metadata database: the flat maps and the tree that indexes them. */
module Index {
  import opened Common
  import opened Paths
  import opened TreeView
  import opened TreeRuns

  datatype Db = Db(mtimes: map<Path, Time>, hashes: map<Path, Bytes>, tombs: map<Path, Time>, tree: View)

  ghost function EmptyDb(H: Hasher): Db {
    Db(map[], map[], map[], Empty(H))
  }

  predicate LiveFile(v: View, p: Path) {
    p in v && v[p].kind.File? && !v[p].isDeleted
  }

  /** The agreement at one path: live in the tree exactly when tracked, with the same time and
      hash, and a tombstone carries the recorded time. */
  ghost predicate AgreesAt(db: Db, p: Path) {
    && (p in db.mtimes <==> LiveFile(db.tree, p))
    && (p in db.hashes <==> p in db.mtimes)
    && (p in db.mtimes ==> db.tree[p].mtime == db.mtimes[p] && db.tree[p].hash == db.hashes[p])
    && (p in db.tree && db.tree[p].isDeleted ==> p in db.tombs && db.tree[p].deletedAt == db.tombs[p])
  }

  /** The tree indexes exactly what the maps record. */
  ghost predicate Agrees(H: Hasher, P: iset<Path>, db: Db) {
    Fits(db.tree, P) && HashOk(H, db.tree) && (forall p :: p in db.tombs ==> p in P) && forall p :: AgreesAt(db, p)
  }

  ghost function RecordFile(H: Hasher, db: Db, p: Path, mtime: Time, hash: Bytes): Db
    requires Wf(db.tree) && Addable(db.tree, p)
  {
    Db(db.mtimes[p := mtime], db.hashes[p := hash], db.tombs, AddView(H, db.tree, p, mtime, hash))
  }

  ghost function RecordDeletion(H: Hasher, db: Db, p: Path, at: Time): Db
    requires Wf(db.tree) && p != []
  {
    Db(db.mtimes - {p}, db.hashes - {p}, db.tombs[p := at], DeleteView(H, db.tree, p, at))
  }

  ghost function Record(H: Hasher, db: Db, op: Op): Db
    requires Wf(db.tree) && op.path != [] && (op.Put? ==> Addable(db.tree, op.path))
  {
    match op
    case Put(p, mtime, hash) => RecordFile(H, db, p, mtime, hash)
    case Del(p, at) => RecordDeletion(H, db, p, at)
  }

  /** The database d is db after one call. */
  ghost predicate OneCall(H: Hasher, db: Db, d: Db, op: Op) {
    Wf(db.tree) && op.path != [] && (op.Put? ==> Addable(db.tree, op.path)) && d == Record(H, db, op)
  }

  lemma EmptyAgrees(H: Hasher, P: iset<Path>)
    requires ClashFree(P)
    ensures Agrees(H, P, EmptyDb(H))
  {
    EmptyOk(H, P);
  }

  /** What a call does to the file-level content at p. */
  ghost predicate StepFacts(v: View, w: View, op: Op, p: Path) {
    && (p != op.path ==> (LiveFile(w, p) <==> LiveFile(v, p)))
    && (p != op.path && p in w && w[p].isDeleted ==> p in v && v[p].isDeleted && w[p].deletedAt == v[p].deletedAt)
    && (p != op.path && LiveFile(v, p) ==> w[p].mtime == v[p].mtime && w[p].hash == v[p].hash)
    && (p == op.path && p in w ==> w[p].kind.File?)
    && (p == op.path && op.Put? ==> LiveFile(w, p) && w[p].mtime == op.mtime && w[p].hash == op.hash)
    && (p == op.path && op.Del? ==> !LiveFile(w, p))
    && (p == op.path && op.Del? && p in w ==> w[p].isDeleted && w[p].deletedAt == op.at)
  }

  lemma StepFile(H: Hasher, P: iset<Path>, v: View, op: Op, p: Path)
    requires ClashFree(P) && Fits(v, P) && HashOk(H, v) && op.path in P
    ensures op.Put? ==> Addable(v, op.path)
    ensures StepFacts(v, Step(H, v, op), op, p)
  {
    StepEffect(H, P, v, op, p);
    FitsAddable(v, P, op.path);
    if p in v && v[p].kind.File? && p != op.path {
      assert !(p < op.path);
    }
  }

  /** The maps after a call, whatever the tree. */
  predicate MapsStep(db: Db, d: Db, op: Op) {
    match op
    case Put(p, mtime, hash) =>
      d.mtimes == db.mtimes[p := mtime] && d.hashes == db.hashes[p := hash] && d.tombs == db.tombs
    case Del(p, at) =>
      d.mtimes == db.mtimes - {p} && d.hashes == db.hashes - {p} && d.tombs == db.tombs[p := at]
  }

  lemma AgreesNext(db: Db, d: Db, op: Op, p: Path)
    requires AgreesAt(db, p) && MapsStep(db, d, op) && StepFacts(db.tree, d.tree, op, p)
    ensures AgreesAt(d, p)
  {
  }

  lemma RecordMaps(H: Hasher, db: Db, op: Op)
    requires Wf(db.tree) && op.path != [] && (op.Put? ==> Addable(db.tree, op.path))
    ensures Record(H, db, op).tree == Step(H, db.tree, op) && MapsStep(db, Record(H, db, op), op)
  {
    hide Wf, Addable, AddView, DeleteView;
  }

  lemma RecordAt(H: Hasher, P: iset<Path>, db: Db, op: Op, p: Path)
    requires ClashFree(P) && op.path in P && Agrees(H, P, db)
    ensures op.Put? ==> Addable(db.tree, op.path)
    ensures AgreesAt(Record(H, db, op), p) && (p in Record(H, db, op).tombs ==> p in P)
  {
    hide Wf, HashOk, Step, Record, AgreesAt, StepFacts, Addable;
    FitsAddable(db.tree, P, op.path);
    RecordMaps(H, db, op);
    StepFile(H, P, db.tree, op, p);
    assert AgreesAt(db, p);
    AgreesNext(db, Record(H, db, op), op, p);
  }

  /** Recording keeps index and maps in agreement. */
  lemma RecordAgrees(H: Hasher, P: iset<Path>, db: Db, op: Op)
    requires ClashFree(P) && op.path in P && Agrees(H, P, db)
    ensures op.Put? ==> Addable(db.tree, op.path)
    ensures Agrees(H, P, Record(H, db, op))
  {
    hide Wf, HashOk, Step, Record, AgreesAt, MapsStep, Addable;
    FitsAddable(db.tree, P, op.path);
    RecordMaps(H, db, op);
    StepOk(H, P, db.tree, op);
    forall p ensures AgreesAt(Record(H, db, op), p) && (p in Record(H, db, op).tombs ==> p in P) {
      RecordAt(H, P, db, op, p);
    }
  }

  /** The database after a whole history of one user, oldest call first. */
  ghost function RunDb(H: Hasher, P: iset<Path>, ops: seq<Op>): (db: Db)
    requires ClashFree(P) && forall op :: op in ops ==> op.path in P
    ensures Agrees(H, P, db)
  {
    if ops == [] then EmptyAgrees(H, P); EmptyDb(H)
    else
      var db := RunDb(H, P, ops[..|ops| - 1]);
      RecordAgrees(H, P, db, ops[|ops| - 1]);
      Record(H, db, ops[|ops| - 1])
  }
}
