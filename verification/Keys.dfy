/** Every user's paths inside the flat maps: keys are the user, a slash and the path. */
module Keys {
  import opened Common
  import opened Paths

  predicate Slashless(user: string) {
    '/' !in user
  }

  /** The path string is the joined form of its own parts. */
  predicate Canonical(path: string) {
    Join(Split(path)) == path
  }

  /** A user without slashes and a path string in the form keys are made of. */
  ghost predicate Placeable(user: string, path: string) {
    Slashless(user) && Canonical(path) && ValidPath(Split(path))
  }

  /** Two user ids share keys exactly if they are equal or one of them continues the other behind a slash;
      that is what an id with a slash can do to the users named by its beginnings. */
  lemma KeysMeet(u: string, v: string)
    ensures (exists x, y :: Key(u, x) == Key(v, y)) <==> u == v || u + "/" <= v || v + "/" <= u
  {
    if u == v {
      assert Key(u, "") == Key(v, "");
    }
    if u + "/" <= v {
      assert v == u + "/" + v[|u| + 1..];
      assert Key(u, v[|u| + 1..] + "/") == Key(v, "");
    }
    if v + "/" <= u {
      assert u == v + "/" + u[|v| + 1..];
      assert Key(u, "") == Key(v, u[|v| + 1..] + "/");
    }
    if x, y :| Key(u, x) == Key(v, y) {
      SharedKey(u, x, v, y);
    }
  }

  lemma SharedKey(u: string, x: string, v: string, y: string)
    requires Key(u, x) == Key(v, y)
    ensures u == v || u + "/" <= v || v + "/" <= u
  {
    var k := Key(u, x);
    assert k == u + ("/" + x) && k == (u + "/") + x && k == v + ("/" + y) && k == (v + "/") + y;
    if |u| < |v| {
      assert k[..|u| + 1] == u + "/" && k[..|v|] == v && v == v[..|u| + 1] + v[|u| + 1..];
      assert v[..|u| + 1] == k[..|u| + 1];
    } else if |v| < |u| {
      assert k[..|v| + 1] == v + "/" && k[..|u|] == u && u == u[..|v| + 1] + u[|v| + 1..];
      assert u[..|v| + 1] == k[..|v| + 1];
    } else {
      assert u == k[..|u|] == v;
    }
  }

  /** Of the map m, the part under one user's keys is s. */
  ghost predicate Faithful<T(!new)>(m: map<string, T>, user: string, s: map<Path, T>) {
    && (forall p :: p in s ==> ValidPath(p))
    && (forall p {:trigger MakeKey(user, p)} :: ValidPath(p) ==> (p in s <==> MakeKey(user, p) in m))
    && (forall p {:trigger s[p]} :: p in s ==> MakeKey(user, p) in m && m[MakeKey(user, p)] == s[p])
    && (forall k :: k in m && user + "/" <= k ==> exists p :: ValidPath(p) && k == MakeKey(user, p))
  }

  lemma KeyOwner(user: string, v: string, p: Path)
    requires Slashless(user) && Slashless(v) && user != v
    ensures !(user + "/" <= MakeKey(v, p))
    ensures forall q :: MakeKey(user, q) != MakeKey(v, p)
  {
    KeysApart(v, user, p);
    forall q ensures MakeKey(user, q) != MakeKey(v, p) {
      KeysApart(user, user, q);
    }
  }

  lemma FaithfulPut<T(!new)>(m: map<string, T>, user: string, s: map<Path, T>, p: Path, x: T)
    requires Slashless(user) && ValidPath(p) && Faithful(m, user, s)
    ensures Faithful(m[MakeKey(user, p) := x], user, s[p := x])
  {
    var n, t := m[MakeKey(user, p) := x], s[p := x];
    forall q | ValidPath(q) ensures MakeKey(user, q) == MakeKey(user, p) ==> q == p {
      if MakeKey(user, q) == MakeKey(user, p) { KeyInjective(user, q, user, p); }
    }
    assert forall q :: q in t ==> ValidPath(q);
    hide MakeKey;
    forall q | q in t ensures MakeKey(user, q) in n && n[MakeKey(user, q)] == t[q] {
      if q != p { assert s[q] == t[q]; }
    }
  }

  lemma FaithfulPutOther<T(!new)>(m: map<string, T>, user: string, s: map<Path, T>, v: string, p: Path, x: T)
    requires Slashless(user) && Slashless(v) && user != v && Faithful(m, user, s)
    ensures Faithful(m[MakeKey(v, p) := x], user, s)
  {
    KeyOwner(user, v, p);
    hide MakeKey;
    var n := m[MakeKey(v, p) := x];
    forall q | q in s ensures MakeKey(user, q) in n && n[MakeKey(user, q)] == s[q] {
    }
  }

  lemma FaithfulRemove<T(!new)>(m: map<string, T>, user: string, s: map<Path, T>, p: Path)
    requires Slashless(user) && ValidPath(p) && Faithful(m, user, s)
    ensures Faithful(m - {MakeKey(user, p)}, user, s - {p})
  {
    var n, t := m - {MakeKey(user, p)}, s - {p};
    forall q | ValidPath(q) ensures MakeKey(user, q) == MakeKey(user, p) ==> q == p {
      if MakeKey(user, q) == MakeKey(user, p) { KeyInjective(user, q, user, p); }
    }
    hide MakeKey;
    forall q | q in t ensures MakeKey(user, q) in n && n[MakeKey(user, q)] == t[q] {
      assert s[q] == t[q];
    }
  }

  lemma FaithfulRemoveOther<T(!new)>(m: map<string, T>, user: string, s: map<Path, T>, v: string, p: Path)
    requires Slashless(user) && Slashless(v) && user != v && Faithful(m, user, s)
    ensures Faithful(m - {MakeKey(v, p)}, user, s)
  {
    KeyOwner(user, v, p);
    hide MakeKey;
    var n := m - {MakeKey(v, p)};
    forall q | q in s ensures MakeKey(user, q) in n && n[MakeKey(user, q)] == s[q] {
    }
  }

  /** No key belongs to the user. */
  ghost predicate Unknown<T>(m: map<string, T>, user: string) {
    forall k :: k in m ==> !(user + "/" <= k)
  }

  lemma FaithfulNone<T(!new)>(m: map<string, T>, user: string)
    requires Unknown(m, user)
    ensures Faithful(m, user, map[])
  {
    forall p ensures MakeKey(user, p) !in m {
      assert user + "/" <= MakeKey(user, p) by { assert MakeKey(user, p) == (user + "/") + Join(p); }
    }
  }

  /** The path part of a key, if the key is the user's. */
  function PathFromKey(user: string, key: string): Option<string> {
    var prefix := user + "/";
    if prefix <= key then Some(key[|prefix|..]) else None
  }

  lemma PathFromOwnKey(user: string, path: string)
    ensures PathFromKey(user, Key(user, path)) == Some(path)
  {
    assert Key(user, path) == (user + "/") + path;
  }

  lemma OwnPathKey(user: string, key: string)
    ensures PathFromKey(user, key).Some? ==> Key(user, PathFromKey(user, key).value) == key
  {
  }

  /** Reading a user's part of a map back: path strings to values. */
  method Extract<T>(m: map<string, T>, user: string) returns (result: map<string, T>)
    ensures forall x :: x in result <==> Key(user, x) in m
    ensures forall x :: x in result && Key(user, x) in m ==> result[x] == m[Key(user, x)]
  {
    result := map[];
    var rest := m.Keys;
    while rest != {}
      invariant rest <= m.Keys
      invariant forall x :: x in result <==> Key(user, x) in m && Key(user, x) !in rest
      invariant forall x :: x in result && Key(user, x) in m ==> result[x] == m[Key(user, x)]
      decreases |rest|
    {
      var key :| key in rest;
      rest := rest - {key};
      var path := PathFromKey(user, key);
      OwnPathKey(user, key);
      forall x | Key(user, x) == key ensures path == Some(x) {
        PathFromOwnKey(user, x);
      }
      if path.Some? {
        result := result[path.value := m[key]];
      }
    }
  }

  /** The strings stand for exactly the recorded paths, with their values. */
  ghost predicate Reads<T(!new)>(result: map<string, T>, s: map<Path, T>) {
    && (forall x :: x in result ==> Canonical(x) && Split(x) in s && result[x] == s[Split(x)])
    && (forall p :: p in s ==> Join(p) in result)
  }

  lemma ExtractReads<T(!new)>(m: map<string, T>, user: string, s: map<Path, T>, result: map<string, T>)
    requires Faithful(m, user, s)
    requires forall x :: x in result <==> Key(user, x) in m
    requires forall x :: x in result && Key(user, x) in m ==> result[x] == m[Key(user, x)]
    ensures Reads(result, s)
  {
    forall x | x in result ensures Canonical(x) && Split(x) in s && result[x] == s[Split(x)] {
      KeyRead(m, user, s, x);
    }
  }

  method ExtractOwn<T(!new)>(m: map<string, T>, user: string, ghost s: map<Path, T>) returns (result: map<string, T>)
    requires Faithful(m, user, s)
    ensures Reads(result, s) && forall p :: p in s ==> Join(p) in result
  {
    hide Faithful;
    result := Extract(m, user);
    ExtractReads(m, user, s, result);
  }

  lemma ReadsAt<T(!new)>(result: map<string, T>, s: map<Path, T>, x: string)
    requires Reads(result, s) && x in result
    ensures Canonical(x) && Join(Split(x)) == x && Split(x) in s && result[x] == s[Split(x)]
  {
  }

  /** Under one user's keys a path string is recorded exactly if it is the joined form of a path of s. */
  lemma KeyRead<T(!new)>(m: map<string, T>, user: string, s: map<Path, T>, x: string)
    requires Faithful(m, user, s)
    ensures Key(user, x) in m <==> Canonical(x) && Split(x) in s
    ensures Key(user, x) in m ==> m[Key(user, x)] == s[Split(x)]
  {
    var k := Key(user, x);
    assert k == (user + "/") + x;
    if k in m {
      var p :| ValidPath(p) && k == MakeKey(user, p);
      PathFromOwnKey(user, x);
      PathFromOwnKey(user, Join(p));
      SplitJoin(p);
    }
    if Canonical(x) && Split(x) in s {
      assert MakeKey(user, Split(x)) == k;
    }
  }
}
