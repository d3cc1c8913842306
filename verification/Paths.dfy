/** Relative paths: the slash-separated strings of the source, and the lists of
    names they stand for. The tree walks names, the databases key on strings. */
module Paths {
  import opened Common

  type Name = string
  type Path = seq<Name>

  /** A name that survives splitting: not empty and without a slash. */
  predicate ValidName(n: Name) {
    n != "" && '/' !in n
  }

  ghost predicate ValidPath(p: Path) {
    forall n | n in p :: ValidName(n)
  }

  function Child(p: Path, n: Name): Path {
    p + [n]
  }

  function Parent(p: Path): (q: Path)
    requires p != []
    ensures Child(q, Leaf(p)) == p
  {
    p[..|p| - 1]
  }

  function Leaf(p: Path): Name
    requires p != []
  {
    p[|p| - 1]
  }

  /** The step from p towards a path q strictly below it. */
  function Towards(p: Path, q: Path): Path
    requires p < q
  {
    q[..|p| + 1]
  }

  lemma ChildFacts(p: Path, n: Name)
    ensures Parent(Child(p, n)) == p && Leaf(Child(p, n)) == n && p < Child(p, n)
  {
  }

  lemma BelowChild(p: Path, n: Name, q: Path)
    ensures Child(p, n) <= q ==> p < q && Towards(p, q) == Child(p, n)
    ensures p < q ==> Towards(p, q) == Child(p, q[|p|]) && Towards(p, q) <= q
  {
  }

  /** A prefix of a non-empty path is the path itself or a prefix of its parent. */
  lemma PrefixOfParent(q: Path, p: Path)
    requires p != []
    ensures q < p <==> q <= Parent(p)
  {
  }

  function Join(p: Path): string {
    if p == [] then "" else if |p| == 1 then p[0] else p[0] + "/" + Join(p[1..])
  }

  function Flush(word: string): Path {
    if word == "" then [] else [word]
  }

  /** Splitting at slashes with empty parts skipped; `word` is the part read so far. */
  function Split(s: string, word: string := ""): (p: Path)
    requires '/' !in word
    ensures ValidPath(p)
  {
    if s == "" then Flush(word)
    else if s[0] == '/' then Flush(word) + Split(s[1..], "")
    else Split(s[1..], word + [s[0]])
  }

  lemma {:induction false} SplitWord(w: string, rest: string, word: string)
    requires '/' !in w && '/' !in word
    ensures Split(w + rest, word) == Split(rest, word + w)
  {
    if w == "" {
      assert w + rest == rest && word + w == word;
    } else {
      assert (w + rest)[0] == w[0] && (w + rest)[1..] == w[1..] + rest;
      SplitWord(w[1..], rest, word + [w[0]]);
      assert word + [w[0]] + w[1..] == word + w;
    }
  }

  lemma {:induction false} SplitSlash(a: string, rest: string, word: string)
    requires '/' !in word
    ensures Split(a + "/" + rest, word) == Split(a, word) + Split(rest, "")
  {
    if a == "" {
      assert a + "/" + rest == "/" + rest;
      assert ("/" + rest)[1..] == rest;
    } else {
      assert (a + "/" + rest)[0] == a[0] && (a + "/" + rest)[1..] == a[1..] + "/" + rest;
      if a[0] == '/' {
        SplitSlash(a[1..], rest, "");
        assert Flush(word) + (Split(a[1..], "") + Split(rest, "")) == Split(a, word) + Split(rest, "");
      } else {
        SplitSlash(a[1..], rest, word + [a[0]]);
      }
    }
  }

  /** Splitting undoes joining, so a path and its string carry the same information. */
  lemma {:induction false} SplitJoin(p: Path)
    requires ValidPath(p)
    ensures Split(Join(p)) == p
  {
    if p == [] {
    } else if |p| == 1 {
      assert p[0] in p;
      SplitWord(p[0], "", "");
      assert p[0] + "" == p[0] && "" + p[0] == p[0];
      assert p == [p[0]];
    } else {
      assert p[0] in p;
      SplitSlash(p[0], Join(p[1..]), "");
      SplitWord(p[0], "", "");
      assert p[0] + "" == p[0] && "" + p[0] == p[0];
      SplitJoin(p[1..]);
      assert p == [p[0]] + p[1..];
    }
  }

  lemma JoinInjective(p: Path, q: Path)
    requires ValidPath(p) && ValidPath(q) && Join(p) == Join(q)
    ensures p == q
  {
    SplitJoin(p);
    SplitJoin(q);
  }

  lemma {:induction false} JoinAppend(d: Path, e: Path)
    requires d != [] && e != []
    ensures Join(d + e) == Join(d) + "/" + Join(e)
  {
    if |d| == 1 {
      assert (d + e)[1..] == e;
    } else {
      assert (d + e)[1..] == d[1..] + e;
      JoinAppend(d[1..], e);
      assert Join(d + e) == d[0] + "/" + (Join(d[1..]) + "/" + Join(e));
    }
  }

  /** The string test "starts with dir + slash" is exactly "lies strictly below dir". */
  lemma StartsWithIsBelow(d: Path, q: Path)
    requires d != [] && ValidPath(d) && ValidPath(q)
    ensures Join(d) + "/" <= Join(q) <==> d < q
  {
    if d < q {
      JoinAppend(d, q[|d|..]);
      assert d + q[|d|..] == q;
      assert Join(q) == (Join(d) + "/") + Join(q[|d|..]);
    }
    if Join(d) + "/" <= Join(q) {
      var rest := Join(q)[|Join(d)| + 1..];
      assert Join(q) == Join(d) + "/" + rest;
      SplitSlash(Join(d), rest, "");
      SplitJoin(d);
      SplitJoin(q);
      assert q == d + Split(rest);
      assert |Join(q)| > |Join(d)|;
      assert q != d;
      assert q[..|d|] == d;
      assert |Split(rest)| == 0 ==> q == d;
    }
  }

  // ----- database keys -----

  function Key(user: string, path: string): string {
    user + "/" + path
  }

  function MakeKey(user: string, path: Path): string {
    Key(user, Join(path))
  }

  /** Slash-free users own disjoint key ranges. */
  lemma KeysApart(u: string, v: string, p: Path)
    requires '/' !in u && '/' !in v
    ensures v + "/" <= MakeKey(u, p) <==> u == v
  {
    var key := MakeKey(u, p);
    assert key == u + ("/" + Join(p));
    assert key[|u|] == '/' && key[..|u|] == u;
    if v + "/" <= key {
      assert key[|v|] == (v + "/")[|v|] && key[..|v|] == v;
      assert forall i :: 0 <= i < |u| ==> key[i] == u[i] && u[i] in u;
      assert forall i :: 0 <= i < |v| ==> key[i] == v[i] && v[i] in v;
      assert |u| == |v|;
    }
    if u == v {
      assert key[..|u| + 1] == v + "/";
    }
  }

  lemma KeyInjective(u: string, p: Path, v: string, q: Path)
    requires '/' !in u && '/' !in v && ValidPath(p) && ValidPath(q)
    requires MakeKey(u, p) == MakeKey(v, q)
    ensures u == v && p == q
  {
    KeysApart(u, v, p);
    KeysApart(v, v, q);
    assert Join(p) == MakeKey(u, p)[|u| + 1..];
    assert Join(q) == MakeKey(v, q)[|v| + 1..];
    JoinInjective(p, q);
  }
}
