/** Comparing two listings of one directory. */
module HashDiff {
  import opened Common
  import opened Paths
  import opened SyncCommon

  type PathHash = (Path, Bytes)

  datatype TreeDiff = TreeDiff(onlyInLeft: seq<Path>, onlyInRight: seq<Path>, modified: seq<Path>)

  predicate Lists(l: seq<PathHash>, p: Path) {
    exists i :: 0 <= i < |l| && l[i].0 == p
  }

  /** The hash a map built from the listing holds: a later entry replaces an earlier one. */
  function HashIn(l: seq<PathHash>, p: Path): (h: Bytes)
    requires Lists(l, p)
  {
    if l[|l| - 1].0 == p then l[|l| - 1].1
    else
      assert Lists(l[..|l| - 1], p) by { var i :| 0 <= i < |l| && l[i].0 == p; assert l[..|l| - 1][i].0 == p; }
      HashIn(l[..|l| - 1], p)
  }

  datatype Side = Missing | EmptyThere | EmptyHere | Both | Same

  /** How an entry fares against the other listing. */
  function Compare(e: PathHash, other: seq<PathHash>): Side {
    if !Lists(other, e.0) then Missing
    else if HashIn(other, e.0) == e.1 then Same
    else if HashIn(other, e.0) == [] then EmptyThere
    else if e.1 == [] then EmptyHere
    else Both
  }

  /** The entries that fare in a given way, in order. */
  function Select(l: seq<PathHash>, other: seq<PathHash>, side: Side): seq<Path> {
    if l == [] then []
    else
      var e := l[|l| - 1];
      Select(l[..|l| - 1], other, side) + if Compare(e, other) == side then [e.0] else []
  }

  function Diff(lhs: seq<PathHash>, rhs: seq<PathHash>): TreeDiff {
    TreeDiff(
      Select(lhs, rhs, Missing) + Select(lhs, rhs, EmptyThere),
      Select(rhs, lhs, Missing) + Select(lhs, rhs, EmptyHere),
      Select(lhs, rhs, Both))
  }

  /** The map a loop over the listing builds. */
  function MapOf(l: seq<PathHash>): (m: map<Path, Bytes>)
    ensures forall p :: p in m <==> Lists(l, p)
    ensures forall p :: p in m ==> m[p] == HashIn(l, p)
  {
    if l == [] then map[]
    else
      var e, t := l[|l| - 1], l[..|l| - 1];
      var m := MapOf(t)[e.0 := e.1];
      assert l[|l| - 1].0 == e.0;
      assert forall i :: 0 <= i < |t| ==> l[i] == t[i];
      assert forall p :: Lists(l, p) <==> Lists(t, p) || p == e.0;
      m
  }

  method ToMap(l: seq<PathHash>) returns (m: map<Path, Bytes>)
    ensures forall p :: p in m <==> Lists(l, p)
    ensures forall p :: p in m ==> m[p] == HashIn(l, p)
  {
    m := map[];
    for i := 0 to |l|
      invariant m == MapOf(l[..i])
    {
      assert l[..i + 1][..i] == l[..i];
      m := m[l[i].0 := l[i].1];
    }
    assert l[..|l|] == l;
  }

  lemma SelectNext(l: seq<PathHash>, i: nat, other: seq<PathHash>, side: Side)
    requires i < |l|
    ensures Select(l[..i + 1], other, side) ==
      Select(l[..i], other, side) + if Compare(l[i], other) == side then [l[i].0] else []
  {
    assert l[..i + 1][..i] == l[..i];
  }

  /** The paths of one listing the other lacks. */
  method OnlyIn(l: seq<PathHash>, otherMap: map<Path, Bytes>, ghost other: seq<PathHash>) returns (paths: seq<Path>)
    requires forall p :: p in otherMap <==> Lists(other, p)
    ensures paths == Select(l, other, Missing)
  {
    paths := [];
    for i := 0 to |l|
      invariant paths == Select(l[..i], other, Missing)
    {
      SelectNext(l, i, other, Missing);
      if l[i].0 !in otherMap {
        paths := paths + [l[i].0];
      }
    }
    assert l[..|l|] == l;
  }

  method SymmetricHashDiff(lhs: seq<PathHash>, rhs: seq<PathHash>) returns (result: TreeDiff)
    ensures result == Diff(lhs, rhs)
    ensures DistinctPaths(lhs) && DistinctPaths(rhs) ==> Sorted(lhs, rhs, result)
  {
    var lhsMap := ToMap(lhs);
    var rhsMap := ToMap(rhs);
    var onlyInLeft := OnlyIn(lhs, rhsMap, rhs);
    var onlyInRight := OnlyIn(rhs, lhsMap, lhs);
    var modified := [];
    ghost var l0, r0 := onlyInLeft, onlyInRight;
    for i := 0 to |lhs|
      invariant onlyInLeft == l0 + Select(lhs[..i], rhs, EmptyThere)
      invariant onlyInRight == r0 + Select(lhs[..i], rhs, EmptyHere)
      invariant modified == Select(lhs[..i], rhs, Both)
    {
      var (path, hash) := lhs[i];
      SelectNext(lhs, i, rhs, EmptyThere);
      SelectNext(lhs, i, rhs, EmptyHere);
      SelectNext(lhs, i, rhs, Both);
      if path in rhsMap && rhsMap[path] != hash {
        if rhsMap[path] == [] {
          onlyInLeft := onlyInLeft + [path];
        } else if hash == [] {
          onlyInRight := onlyInRight + [path];
        } else {
          modified := modified + [path];
        }
      }
    }
    assert lhs[..|lhs|] == lhs;
    result := TreeDiff(onlyInLeft, onlyInRight, modified);
    hide Sorted;
    if DistinctPaths(lhs) && DistinctPaths(rhs) { DiffLists(lhs, rhs); }
  }

  // ----- what the diff contains -----

  ghost predicate DistinctPaths(l: seq<PathHash>) {
    forall i, j :: 0 <= i < j < |l| ==> l[i].0 != l[j].0
  }

  /** Listed on one side only, or on both with different hashes. */
  ghost predicate Differs(l: seq<PathHash>, r: seq<PathHash>, p: Path) {
    Lists(l, p) != Lists(r, p) || (Lists(l, p) && HashIn(l, p) != HashIn(r, p))
  }

  function AllPaths(d: TreeDiff): seq<Path> {
    d.onlyInLeft + d.onlyInRight + d.modified
  }

  lemma {:induction false} PathCountAdds(a: seq<Path>, b: seq<Path>, p: Path)
    ensures PathCount(a + b, p) == PathCount(a, p) + PathCount(b, p)
  {
    if b == [] {
      assert a + b == a;
    } else {
      assert (a + b)[..|a + b| - 1] == a + b[..|b| - 1];
      PathCountAdds(a, b[..|b| - 1], p);
    }
  }

  lemma {:induction false} SelectCount(l: seq<PathHash>, other: seq<PathHash>, side: Side, p: Path)
    requires DistinctPaths(l)
    ensures PathCount(Select(l, other, side), p) ==
      if Lists(l, p) && Compare((p, HashIn(l, p)), other) == side then 1 else 0
  {
    if l != [] {
      var e, t := l[|l| - 1], l[..|l| - 1];
      SelectCount(t, other, side, p);
      assert forall i :: 0 <= i < |t| ==> l[i] == t[i];
      assert Lists(l, p) <==> Lists(t, p) || e.0 == p;
      assert Lists(t, e.0) ==> false;
      var rest := if Compare(e, other) == side then [e.0] else [];
      PathCountAdds(Select(t, other, side), rest, p);
    }
  }

  /** The diff of two listings names every differing path once and no other path. */
  lemma DiffExact(l: seq<PathHash>, r: seq<PathHash>, p: Path)
    requires DistinctPaths(l) && DistinctPaths(r)
    ensures PathCount(AllPaths(Diff(l, r)), p) == if Differs(l, r, p) then 1 else 0
  {
    var d := Diff(l, r);
    SelectCount(l, r, Missing, p);
    SelectCount(l, r, EmptyThere, p);
    SelectCount(r, l, Missing, p);
    SelectCount(l, r, EmptyHere, p);
    SelectCount(l, r, Both, p);
    PathCountAdds(d.onlyInLeft + d.onlyInRight, d.modified, p);
    PathCountAdds(d.onlyInLeft, d.onlyInRight, p);
    PathCountAdds(Select(l, r, Missing), Select(l, r, EmptyThere), p);
    PathCountAdds(Select(r, l, Missing), Select(l, r, EmptyHere), p);
  }

  // ----- list by list -----

  /** Listed here with a hash that differs from the one there, which is empty. */
  predicate EmptyOver(l: seq<PathHash>, r: seq<PathHash>, p: Path) {
    Lists(l, p) && Lists(r, p) && HashIn(l, p) != [] && HashIn(r, p) == []
  }

  /** Left: what only the left lists, or the right lists with an empty hash. Right: the mirror image. Modified:
      what both list with different hashes, neither empty. Each path once, in the order of its listing. */
  ghost predicate Sorted(l: seq<PathHash>, r: seq<PathHash>, d: TreeDiff) {
    && NoDup(d.onlyInLeft) && NoDup(d.onlyInRight) && NoDup(d.modified)
    && (forall p :: p in d.onlyInLeft <==> (Lists(l, p) && !Lists(r, p)) || EmptyOver(l, r, p))
    && (forall p :: p in d.onlyInRight <==> (Lists(r, p) && !Lists(l, p)) || EmptyOver(r, l, p))
    && (forall p :: p in d.modified <==>
          Lists(l, p) && Lists(r, p) && HashIn(l, p) != HashIn(r, p) && HashIn(l, p) != [] && HashIn(r, p) != [])
    && (forall i, j :: 0 <= i < j < |d.modified| ==> Before(l, d.modified[i], d.modified[j]))
    && (forall i, j :: 0 <= i < j < |d.onlyInLeft| && Lists(r, d.onlyInLeft[i]) == Lists(r, d.onlyInLeft[j]) ==>
          Before(l, d.onlyInLeft[i], d.onlyInLeft[j]))
    && (forall i, j :: 0 <= i < j < |d.onlyInRight| && Lists(l, d.onlyInRight[i]) == Lists(l, d.onlyInRight[j]) ==>
          Before(if Lists(l, d.onlyInRight[i]) then l else r, d.onlyInRight[i], d.onlyInRight[j]))
  }

  ghost predicate Before(l: seq<PathHash>, p: Path, q: Path) {
    exists i, j :: 0 <= i < j < |l| && l[i].0 == p && l[j].0 == q
  }

  lemma {:induction false} SelectIn(l: seq<PathHash>, other: seq<PathHash>, side: Side, p: Path)
    requires DistinctPaths(l)
    ensures p in Select(l, other, side) <==> Lists(l, p) && Compare((p, HashIn(l, p)), other) == side
  {
    SelectCount(l, other, side, p);
    PathCountIn(Select(l, other, side), p);
  }

  ghost predicate InOrder(l: seq<PathHash>, s: seq<Path>) {
    forall i, j :: 0 <= i < j < |s| ==> s[i] != s[j] && Before(l, s[i], s[j])
  }

  lemma BeforeMore(l: seq<PathHash>, p: Path, q: Path)
    requires l != [] && Before(l[..|l| - 1], p, q)
    ensures Before(l, p, q)
  {
    var t := l[..|l| - 1];
    var i, j :| 0 <= i < j < |t| && t[i].0 == p && t[j].0 == q;
    assert l[i].0 == p && l[j].0 == q;
  }

  lemma BeforeLast(l: seq<PathHash>, p: Path)
    requires l != [] && Lists(l[..|l| - 1], p)
    ensures Before(l, p, l[|l| - 1].0)
  {
    var i :| 0 <= i < |l| - 1 && l[..|l| - 1][i].0 == p;
    assert l[i].0 == p && l[|l| - 1].0 == l[|l| - 1].0;
  }

  /** Selected entries keep the order of the listing. */
  lemma {:induction false} SelectOrder(l: seq<PathHash>, other: seq<PathHash>, side: Side)
    requires DistinctPaths(l)
    ensures InOrder(l, Select(l, other, side))
  {
    if l != [] {
      var e, t := l[|l| - 1], l[..|l| - 1];
      var s, u := Select(l, other, side), Select(t, other, side);
      SelectOrder(t, other, side);
      forall i, j | 0 <= i < j < |s| ensures s[i] != s[j] && Before(l, s[i], s[j]) {
        assert s[i] == u[i];
        SelectIn(t, other, side, u[i]);
        if j < |u| {
          BeforeMore(l, u[i], u[j]);
        } else {
          BeforeLast(l, u[i]);
        }
      }
    }
  }

  lemma AppendedOnce(a: seq<Path>, b: seq<Path>)
    requires NoDup(a) && NoDup(b) && forall p :: p in a ==> p !in b
    ensures NoDup(a + b)
  {
    forall i, j | 0 <= i < j < |a + b| ensures (a + b)[i] != (a + b)[j] {
      assert i < |a| ==> a[i] in a;
      assert j >= |a| ==> b[j - |a|] in b;
    }
  }

  /** The three lists one by one. */
  lemma DiffLists(l: seq<PathHash>, r: seq<PathHash>)
    requires DistinctPaths(l) && DistinctPaths(r)
    ensures Sorted(l, r, Diff(l, r))
  {
    hide Select, HashIn, Lists, Before, DistinctPaths;
    assert forall s, t :: InOrder(t, s) ==> NoDup(s);
    var d := Diff(l, r);
    SelectOrder(l, r, Missing);
    SelectOrder(l, r, EmptyThere);
    SelectOrder(l, r, EmptyHere);
    SelectOrder(l, r, Both);
    SelectOrder(r, l, Missing);
    forall p
      ensures p in Select(l, r, Missing) <==> Lists(l, p) && !Lists(r, p)
      ensures p in Select(r, l, Missing) <==> Lists(r, p) && !Lists(l, p)
      ensures p in Select(l, r, EmptyThere) <==> EmptyOver(l, r, p)
      ensures p in Select(l, r, EmptyHere) <==> EmptyOver(r, l, p)
      ensures p in Select(l, r, Both) <==>
        Lists(l, p) && Lists(r, p) && HashIn(l, p) != HashIn(r, p) && HashIn(l, p) != [] && HashIn(r, p) != []
    {
      SelectIn(l, r, Missing, p);
      SelectIn(r, l, Missing, p);
      SelectIn(l, r, EmptyThere, p);
      SelectIn(l, r, EmptyHere, p);
      SelectIn(l, r, Both, p);
    }
    AppendedOnce(Select(l, r, Missing), Select(l, r, EmptyThere));
    AppendedOnce(Select(r, l, Missing), Select(l, r, EmptyHere));
    var a, b := Select(l, r, Missing), Select(l, r, EmptyThere);
    forall i, j | 0 <= i < j < |a + b| && Lists(r, (a + b)[i]) == Lists(r, (a + b)[j])
      ensures Before(l, (a + b)[i], (a + b)[j])
    {
      assert i < |a| ==> (a + b)[i] in a;
      assert j < |a| ==> (a + b)[j] in a;
      assert i >= |a| ==> (a + b)[i] in b;
      assert j >= |a| ==> (a + b)[j] in b;
    }
    var x, y := Select(r, l, Missing), Select(l, r, EmptyHere);
    forall i, j | 0 <= i < j < |x + y| && Lists(l, (x + y)[i]) == Lists(l, (x + y)[j])
      ensures Before(if Lists(l, (x + y)[i]) then l else r, (x + y)[i], (x + y)[j])
    {
      assert i < |x| ==> (x + y)[i] in x;
      assert j < |x| ==> (x + y)[j] in x;
      assert i >= |x| ==> (x + y)[i] in y;
      assert j >= |x| ==> (x + y)[j] in y;
    }
  }
}
