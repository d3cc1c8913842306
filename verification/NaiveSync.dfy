/** The simple negotiation: the server lists everything, the client classifies every path. */
module NaiveSync {
  import opened Common
  import opened Paths
  import opened Index
  import opened SyncCommon
  import opened HashDiff

  function StateOfListed(e: FileEntry): SideState {
    if e.deleted then Tombstone(e.mtime) else Live(e.mtime, false, e.hash)
  }

  /** A path's state in a listing; a later entry replaces an earlier one. */
  function ListState(es: seq<FileEntry>, p: Path): (s: SideState)
    ensures Proper(s)
  {
    if es == [] then ABSENT
    else if es[|es| - 1].path == p then StateOfListed(es[|es| - 1])
    else ListState(es[..|es| - 1], p)
  }

  function PathsOf(es: seq<FileEntry>): seq<Path> {
    seq(|es|, i requires 0 <= i < |es| => es[i].path)
  }

  /** A path's state in the maps; a recorded tombstone counts before a tracked file. */
  function DbState(db: Db, p: Path): (s: SideState)
    ensures Proper(s)
  {
    if p in db.tombs then Tombstone(db.tombs[p])
    else if p in db.mtimes then Live(db.mtimes[p], false, if p in db.hashes then db.hashes[p] else [])
    else ABSENT
  }

  lemma ListNext(es: seq<FileEntry>, e: FileEntry, p: Path)
    ensures ListState(es + [e], p) == if e.path == p then StateOfListed(e) else ListState(es, p)
    ensures PathCount(PathsOf(es + [e]), p) == PathCount(PathsOf(es), p) + if e.path == p then 1 else 0
  {
    assert (es + [e])[..|es + [e]| - 1] == es;
    assert PathsOf(es + [e]) == PathsOf(es) + [e.path];
    PathSnoc(PathsOf(es), e.path, p);
  }

  /** What the listing says of p once the files of `rest` are still to come. */
  function FilesState(db: Db, rest: set<Path>, p: Path): SideState
    requires db.mtimes.Keys == db.hashes.Keys
  {
    if p in db.mtimes && p !in rest then Live(db.mtimes[p], false, db.hashes[p]) else ABSENT
  }

  method ListFiles(db: Db) returns (entries: seq<FileEntry>)
    requires db.mtimes.Keys == db.hashes.Keys
    ensures forall p :: ListState(entries, p) == FilesState(db, {}, p)
    ensures forall p :: PathCount(PathsOf(entries), p) == if p in db.mtimes then 1 else 0
  {
    hide Listed;
    entries := [];
    var rest := db.mtimes.Keys;
    NoneListed(db);
    while rest != {}
      invariant rest <= db.mtimes.Keys && Listed(db, rest, entries)
      decreases |rest|
    {
      var p :| p in rest;
      ListedNext(db, rest, entries, p);
      rest := rest - {p};
      entries := entries + [FileEntry(p, db.mtimes[p], false, db.hashes[p])];
    }
    FilesTold(db, entries);
  }

  /** The files are listed but for those of `rest`. */
  ghost predicate Listed(db: Db, rest: set<Path>, es: seq<FileEntry>)
    requires db.mtimes.Keys == db.hashes.Keys
  {
    && (forall p :: ListState(es, p) == FilesState(db, rest, p))
    && (forall p :: PathCount(PathsOf(es), p) == if p in db.mtimes && p !in rest then 1 else 0)
  }

  lemma NoneListed(db: Db)
    requires db.mtimes.Keys == db.hashes.Keys
    ensures Listed(db, db.mtimes.Keys, [])
  {
  }

  lemma ListedNext(db: Db, rest: set<Path>, es: seq<FileEntry>, p: Path)
    requires db.mtimes.Keys == db.hashes.Keys && Listed(db, rest, es) && p in rest && p in db.mtimes
    ensures Listed(db, rest - {p}, es + [FileEntry(p, db.mtimes[p], false, db.hashes[p])])
  {
    hide ListState, PathCount, PathsOf;
    var e := FileEntry(p, db.mtimes[p], false, db.hashes[p]);
    forall q
      ensures ListState(es + [e], q) == if q == p then StateOfListed(e) else ListState(es, q)
      ensures PathCount(PathsOf(es + [e]), q) == PathCount(PathsOf(es), q) + if q == p then 1 else 0
    {
      ListNext(es, e, q);
    }
  }

  lemma FilesTold(db: Db, es: seq<FileEntry>)
    requires db.mtimes.Keys == db.hashes.Keys && Listed(db, {}, es)
    ensures forall p :: ListState(es, p) == FilesState(db, {}, p)
    ensures forall p :: PathCount(PathsOf(es), p) == if p in db.mtimes then 1 else 0
  {
    hide ListState, PathCount, PathsOf, FilesState;
  }

  /** The server's reply: tracked files, then tombstones, each in no particular order. */
  method ListEverything(db: Db) returns (entries: seq<FileEntry>)
    requires db.mtimes.Keys == db.hashes.Keys
    ensures ListingOf(db, entries)
  {
    hide Halfway;
    entries := ListFiles(db);
    var rest := db.tombs.Keys;
    FilesListed(db, entries);
    while rest != {}
      invariant rest <= db.tombs.Keys && Halfway(db, rest, entries)
      decreases |rest|
    {
      var p :| p in rest;
      HalfwayNext(db, rest, entries, p);
      rest := rest - {p};
      entries := entries + [FileEntry(p, db.tombs[p], true, [])];
    }
    AllListed(db, entries);
  }

  /** All files listed, and the tombstones but for those of `rest`. */
  ghost predicate Halfway(db: Db, rest: set<Path>, es: seq<FileEntry>)
    requires db.mtimes.Keys == db.hashes.Keys
  {
    && (forall p :: ListState(es, p) == if p in rest then FilesState(db, {}, p) else DbState(db, p))
    && (forall p :: PathCount(PathsOf(es), p) == TrackedCount(db, p) + if p in db.tombs && p !in rest then 1 else 0)
  }

  lemma FilesListed(db: Db, es: seq<FileEntry>)
    requires db.mtimes.Keys == db.hashes.Keys
    requires forall p :: ListState(es, p) == FilesState(db, {}, p)
    requires forall p :: PathCount(PathsOf(es), p) == if p in db.mtimes then 1 else 0
    ensures Halfway(db, db.tombs.Keys, es)
  {
    hide ListState, PathCount, PathsOf;
  }

  lemma HalfwayNext(db: Db, rest: set<Path>, es: seq<FileEntry>, p: Path)
    requires db.mtimes.Keys == db.hashes.Keys && Halfway(db, rest, es) && p in rest && p in db.tombs
    ensures Halfway(db, rest - {p}, es + [FileEntry(p, db.tombs[p], true, [])])
  {
    hide ListState, PathCount, PathsOf, FilesState;
    var e := FileEntry(p, db.tombs[p], true, []);
    forall q
      ensures ListState(es + [e], q) == if q == p then StateOfListed(e) else ListState(es, q)
      ensures PathCount(PathsOf(es + [e]), q) == PathCount(PathsOf(es), q) + if q == p then 1 else 0
    {
      ListNext(es, e, q);
    }
  }

  lemma AllListed(db: Db, es: seq<FileEntry>)
    requires db.mtimes.Keys == db.hashes.Keys && Halfway(db, {}, es)
    ensures ListingOf(db, es)
  {
    hide ListState, PathCount, PathsOf, DbState;
  }

  function TrackedCount(db: Db, p: Path): nat {
    if p in db.mtimes then 1 else 0
  }

  /** A listing that tells every path's state, and mentions it as often as it is recorded. */
  ghost predicate ListingOf(s: Db, es: seq<FileEntry>) {
    && (forall p :: ListState(es, p) == DbState(s, p))
    && (forall p :: PathCount(PathsOf(es), p) == TrackedCount(s, p) + if p in s.tombs then 1 else 0)
  }

  function ListedVerdict(c: Db, es: seq<FileEntry>): Path -> Finding {
    p => Classified(p, DbState(c, p), ListState(es, p))
  }

  /** The tracked files the listing does not mention, once each, in some order. */
  ghost predicate Unlisted(c: Db, es: seq<FileEntry>, order: seq<Path>) {
    NoDup(order) && forall p :: p in order <==> p in c.mtimes && p !in PathsOf(es)
  }

  class NaiveSyncClient {
    var negotiationState: Plan
    var negotiationInProgress: bool

    constructor ()
      ensures negotiationState == NO_PLAN && !negotiationInProgress
    {
      negotiationState, negotiationInProgress := NO_PLAN, false;
    }

    method StartNegotiation()
      modifies this
      ensures negotiationState == NO_PLAN && negotiationInProgress
    {
      negotiationState, negotiationInProgress := NO_PLAN, true;
    }

    /** The last entry of every listed path. */
    static method ServerByPath(es: seq<FileEntry>) returns (m: map<Path, SideState>)
      ensures forall p :: p in m <==> p in PathsOf(es)
      ensures forall p :: p in m ==> m[p] == ListState(es, p)
    {
      m := map[];
      for i := 0 to |es|
        invariant forall p :: p in m <==> p in PathsOf(es[..i])
        invariant forall p :: p in m ==> m[p] == ListState(es[..i], p)
      {
        assert es[..i + 1] == es[..i] + [es[i]];
        assert PathsOf(es[..i + 1]) == PathsOf(es[..i]) + [es[i].path];
        forall p { ListNext(es[..i], es[i], p); }
        m := m[es[i].path := StateOfListed(es[i])];
      }
      assert es[..|es|] == es;
    }

    method ClassifyListed(es: seq<FileEntry>, db: Db, serverByPath: map<Path, SideState>)
      requires forall p :: p in serverByPath <==> p in PathsOf(es)
      requires forall p :: p in serverByPath ==> serverByPath[p] == ListState(es, p)
      modifies this`negotiationState
      ensures negotiationState == Collect(ListedVerdict(db, es), PathsOf(es), old(negotiationState))
    {
      hide Append, Collect, Classified, DbState, ListState;
      ghost var verdict, paths := ListedVerdict(db, es), PathsOf(es);
      EmptyCollect(verdict, negotiationState);
      assert paths[..0] == [];
      for i := 0 to |es|
        invariant negotiationState == Collect(verdict, paths[..i], old(negotiationState))
      {
        var path := es[i].path;
        assert path == paths[i] && path in paths;
        assert paths[..i + 1] == paths[..i] + [path];
        CollectNext(verdict, paths[..i], path, old(negotiationState));
        negotiationState := Append(negotiationState, Classified(path, DbState(db, path), serverByPath[path]));
      }
      assert paths[..|es|] == paths;
    }

    method ClassifyUnlisted(es: seq<FileEntry>, db: Db, serverByPath: map<Path, SideState>)
      returns (ghost order: seq<Path>)
      requires forall p :: p in serverByPath <==> p in PathsOf(es)
      modifies this`negotiationState
      ensures Unlisted(db, es, order)
      ensures negotiationState == Collect(ListedVerdict(db, es), order, old(negotiationState))
    {
      hide Append, Collect, Classified, DbState, ListState, PathsOf;
      EmptyCollect(ListedVerdict(db, es), negotiationState);
      var rest := db.mtimes.Keys;
      order := [];
      while rest != {}
        invariant rest <= db.mtimes.Keys && NoDup(order)
        invariant forall p :: p in order <==> p in db.mtimes && p !in rest && p !in PathsOf(es)
        invariant negotiationState == Collect(ListedVerdict(db, es), order, old(negotiationState))
        decreases |rest|
      {
        var path :| path in rest;
        rest := rest - {path};
        if path !in serverByPath {
          ListedAbsent(es, path);
          CollectNext(ListedVerdict(db, es), order, path, old(negotiationState));
          negotiationState := Append(negotiationState, Classified(path, DbState(db, path), ABSENT));
          order := order + [path];
        }
      }
    }

    /** Classify what the server listed, then the local files it did not mention. */
    method OnMessage(es: seq<FileEntry>, db: Db) returns (ghost order: seq<Path>)
      modifies this
      ensures !negotiationInProgress && Unlisted(db, es, order)
      ensures negotiationState == Collect(ListedVerdict(db, es), PathsOf(es) + order, old(negotiationState))
    {
      var serverByPath := ServerByPath(es);
      ClassifyListed(es, db, serverByPath);
      order := ClassifyUnlisted(es, db, serverByPath);
      CollectAppend(ListedVerdict(db, es), PathsOf(es), order, old(negotiationState));
      negotiationInProgress := false;
    }
  }

  lemma {:induction false} ListedAbsent(es: seq<FileEntry>, p: Path)
    ensures p !in PathsOf(es) ==> ListState(es, p) == ABSENT
  {
    if es != [] {
      var t := es[..|es| - 1];
      ListedAbsent(t, p);
      assert es == t + [es[|es| - 1]];
      assert PathsOf(es) == PathsOf(t) + [es[|es| - 1].path];
    }
  }

  // ----- the plan of the simple negotiation -----

  ghost function NaiveVerdict(c: Db, s: Db, p: Path): Finding {
    Classified(p, DbState(c, p), DbState(s, p))
  }

  /** The simple plan holds the verdict on the two databases for every path it moves. */
  lemma NaiveExact(c: Db, s: Db, es: seq<FileEntry>, order: seq<Path>, g: Finding)
    requires ListingOf(s, es) && Unlisted(c, es, order)
    ensures Has(Collect(ListedVerdict(c, es), PathsOf(es) + order, NO_PLAN), g) <==>
      g == NaiveVerdict(c, s, g.path) && !g.bucket.InSync?
  {
    var verdict, p := ListedVerdict(c, es), g.path;
    assert Judges(verdict) by {
      forall q ensures exists l, r :: Proper(l) && Proper(r) && verdict(q) == Classified(q, l, r) {
        var l, r := DbState(c, q), ListState(es, q);
        assert verdict(q) == Classified(q, l, r);
      }
    }
    CollectHas(verdict, PathsOf(es) + order, NO_PLAN, g);
    PathCountIn(PathsOf(es), p);
    assert verdict(p) == NaiveVerdict(c, s, p);
  }

  /** A path is planned twice exactly when the server both tracks it and remembers its deletion
      and the client still has something to do about it. */
  lemma NaiveTwice(c: Db, s: Db, es: seq<FileEntry>, order: seq<Path>, p: Path)
    requires ListingOf(s, es) && Unlisted(c, es, order)
    ensures Mentions(Collect(ListedVerdict(c, es), PathsOf(es) + order, NO_PLAN), p) > 1 <==>
      p in s.mtimes && p in s.tombs && !NaiveVerdict(c, s, p).bucket.InSync?
  {
    var verdict := ListedVerdict(c, es);
    assert Judges(verdict) by {
      forall q ensures exists l, r :: Proper(l) && Proper(r) && verdict(q) == Classified(q, l, r) {
        var l, r := DbState(c, q), ListState(es, q);
        assert verdict(q) == Classified(q, l, r);
      }
    }
    CollectMentions(verdict, PathsOf(es) + order, NO_PLAN, p);
    PathCountAdds(PathsOf(es), order, p);
    PathCountIn(PathsOf(es), p);
    NoDupCount(order, p);
    assert verdict(p) == NaiveVerdict(c, s, p);
  }

  lemma {:induction false} NoDupCount(s: seq<Path>, p: Path)
    requires NoDup(s)
    ensures PathCount(s, p) == if p in s then 1 else 0
  {
    if s != [] {
      var t := s[..|s| - 1];
      assert s == t + [s[|s| - 1]];
      NoDupCount(t, p);
    }
  }
}
