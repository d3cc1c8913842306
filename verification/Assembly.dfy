/** Two ways of putting the parts of a file together: written at their offsets as they arrive,
    or kept and concatenated by number at the end. */
module Assembly {
  import opened Common

  /** Seek and write: a gap reads as zeros, writing nothing changes nothing. */
  function WriteAt(buf: Bytes, offset: nat, bytes: Bytes): Bytes {
    if bytes == [] then buf
    else if offset > |buf| then buf + seq(offset - |buf|, _ => 0 as byte) + bytes
    else if offset + |bytes| >= |buf| then buf[..offset] + bytes
    else buf[..offset] + bytes + buf[offset + |bytes|..]
  }

  /** Byte by byte: what is written stands at its offset, what was there stays elsewhere, a gap is zeros. */
  lemma WriteAtBytes(buf: Bytes, offset: nat, bytes: Bytes, i: nat)
    ensures var w := WriteAt(buf, offset, bytes);
      && |w| == (if bytes == [] then |buf| else Max(|buf|, offset + |bytes|))
      && (offset <= i < offset + |bytes| ==> i < |w| && w[i] == bytes[i - offset])
      && (i < |w| && !(offset <= i < offset + |bytes|) ==> w[i] == if i < |buf| then buf[i] else 0)
  {
  }

  datatype Part = Part(number: nat, bytes: Bytes)

  function Offset(n: nat, chunk: nat): nat
    requires n > 0
  {
    (n - 1) * chunk
  }

  /** The first session: every part goes to its offset when it arrives. */
  function Assembled(arrived: seq<Part>, chunk: nat): Bytes
    requires forall x :: x in arrived ==> x.number > 0
  {
    if arrived == [] then []
    else
      var x := arrived[|arrived| - 1];
      WriteAt(Assembled(arrived[..|arrived| - 1], chunk), Offset(x.number, chunk), x.bytes)
  }

  function InsertPart(x: Part, s: seq<Part>): seq<Part> {
    if s == [] || x.number < s[0].number then [x] + s else [s[0]] + InsertPart(x, s[1..])
  }

  /** The parts by ascending number, equal numbers in order of arrival. */
  function SortedParts(arrived: seq<Part>): seq<Part> {
    if arrived == [] then [] else InsertPart(arrived[|arrived| - 1], SortedParts(arrived[..|arrived| - 1]))
  }

  function Contents(s: seq<Part>): Bytes {
    if s == [] then [] else Contents(s[..|s| - 1]) + s[|s| - 1].bytes
  }

  ghost predicate Ascending(s: seq<Part>) {
    forall i, j :: 0 <= i < j < |s| ==> s[i].number <= s[j].number
  }

  lemma {:induction false} InsertMembers(x: Part, s: seq<Part>, y: Part)
    ensures y in InsertPart(x, s) <==> y in s || y == x
  {
    if s != [] && x.number >= s[0].number {
      InsertMembers(x, s[1..], y);
      assert s == [s[0]] + s[1..];
    }
  }

  lemma {:induction false} InsertKeeps(x: Part, s: seq<Part>)
    ensures multiset(InsertPart(x, s)) == multiset(s) + multiset{x}
  {
    if s != [] && x.number >= s[0].number {
      InsertKeeps(x, s[1..]);
      assert s == [s[0]] + s[1..];
    }
  }

  lemma {:induction false} InsertAscends(x: Part, s: seq<Part>)
    requires Ascending(s)
    ensures Ascending(InsertPart(x, s))
  {
    if s != [] && x.number >= s[0].number {
      var r := InsertPart(x, s[1..]);
      InsertAscends(x, s[1..]);
      forall i | 0 <= i < |r| ensures s[0].number <= r[i].number {
        InsertMembers(x, s[1..], r[i]);
      }
    }
  }

  lemma {:induction false} SortAscends(arrived: seq<Part>)
    ensures Ascending(SortedParts(arrived)) && multiset(SortedParts(arrived)) == multiset(arrived)
  {
    if arrived != [] {
      var t, x := arrived[..|arrived| - 1], arrived[|arrived| - 1];
      assert arrived == t + [x];
      SortAscends(t);
      InsertAscends(x, SortedParts(t));
      InsertKeeps(x, SortedParts(t));
    }
  }

  /** The parts 1..k of one file, each once, in any order, all but the last of full size. */
  ghost predicate Complete(arrived: seq<Part>, chunk: nat) {
    && (forall x :: x in arrived ==> 1 <= x.number <= |arrived|)
    && (forall i, j :: 0 <= i < j < |arrived| ==> arrived[i].number != arrived[j].number)
    && (forall x :: x in arrived && x.number < |arrived| ==> |x.bytes| == chunk)
  }

  lemma {:induction false} AtLeast(s: seq<Part>, i: nat)
    requires i < |s| && (forall x :: x in s ==> 1 <= x.number)
    requires forall i, j :: 0 <= i < j < |s| ==> s[i].number < s[j].number
    ensures s[i].number >= i + 1
  {
    if i > 0 { AtLeast(s, i - 1); }
  }

  lemma {:induction false} AtMost(s: seq<Part>, i: nat)
    requires i < |s| && (forall x :: x in s ==> x.number <= |s|)
    requires forall i, j :: 0 <= i < j < |s| ==> s[i].number < s[j].number
    ensures s[i].number <= i + 1
    decreases |s| - i
  {
    if i + 1 < |s| { AtMost(s, i + 1); }
  }

  lemma MultisetSplit(s: seq<Part>, i: nat, j: nat)
    requires i < j < |s|
    ensures multiset(s)[s[i]] >= 1 && (s[i] == s[j] ==> multiset(s)[s[i]] >= 2)
  {
    assert s == s[..i] + [s[i]] + s[i + 1..j] + [s[j]] + s[j + 1..];
  }

  lemma MultisetPair(s: seq<Part>, a: Part, b: Part)
    requires a in s && b in s && a.number == b.number
    requires forall i, j :: 0 <= i < j < |s| ==> s[i].number != s[j].number
    ensures a == b
  {
  }

  lemma {:induction false} CountOnce(s: seq<Part>, x: Part)
    requires forall i, j :: 0 <= i < j < |s| ==> s[i].number != s[j].number
    ensures multiset(s)[x] <= 1
  {
    if s != [] {
      var t := s[..|s| - 1];
      assert s == t + [s[|s| - 1]];
      CountOnce(t, x);
    }
  }

  /** Distinct numbers are strictly ascending after sorting. */
  lemma SortedStrictly(arrived: seq<Part>)
    requires forall i, j :: 0 <= i < j < |arrived| ==> arrived[i].number != arrived[j].number
    ensures var s := SortedParts(arrived);
      && |s| == |arrived| && (forall x :: x in s <==> x in arrived)
      && (forall i, j :: 0 <= i < j < |s| ==> s[i].number < s[j].number)
  {
    SortAscends(arrived);
    var s := SortedParts(arrived);
    hide SortedParts;
    assert |multiset(s)| == |multiset(arrived)|;
    forall x ensures x in s <==> x in arrived {
      assert x in s <==> x in multiset(s);
      assert x in arrived <==> x in multiset(arrived);
    }
    forall i, j | 0 <= i < j < |s| ensures s[i].number < s[j].number {
      MultisetSplit(s, i, j);
      CountOnce(arrived, s[i]);
      if s[i].number == s[j].number {
        MultisetPair(arrived, s[i], s[j]);
      }
    }
  }

  /** Sorting complete parts puts part i + 1 at position i. */
  lemma SortedNumbers(arrived: seq<Part>, chunk: nat)
    requires Complete(arrived, chunk)
    ensures var s := SortedParts(arrived);
      && |s| == |arrived|
      && (forall i :: 0 <= i < |s| ==> s[i].number == i + 1 && s[i] in arrived)
      && (forall i :: 0 <= i < |s| - 1 ==> |s[i].bytes| == chunk)
      && (forall x :: x in arrived <==> x in s)
  {
    hide SortedParts;
    SortedStrictly(arrived);
    var s := SortedParts(arrived);
    forall i | 0 <= i < |s| ensures s[i].number == i + 1 && s[i] in arrived {
      AtLeast(s, i);
      AtMost(s, i);
    }
  }

  lemma OffsetApart(n: nat, m: nat, chunk: nat)
    requires 0 < n < m
    ensures Offset(n, chunk) + chunk <= Offset(m, chunk)
  {
    Distribute(n - 1, m - n, chunk);
  }

  /** The part stands at its offset. */
  ghost predicate Stands(buf: Bytes, x: Part, chunk: nat)
    requires x.number > 0
  {
    var o := Offset(x.number, chunk);
    x.bytes != [] ==> o + |x.bytes| <= |buf| && buf[o..o + |x.bytes|] == x.bytes
  }

  /** All parts received so far stand at their offsets, and the buffer ends with one of them. */
  ghost predicate Partial(buf: Bytes, arrived: seq<Part>, chunk: nat)
    requires forall x :: x in arrived ==> x.number > 0
  {
    && (forall x :: x in arrived ==> Stands(buf, x, chunk))
    && (buf == [] || exists x :: x in arrived && |buf| == Offset(x.number, chunk) + |x.bytes|)
  }

  /** Writing one part leaves another one where it is. */
  lemma WriteKeeps(buf: Bytes, y: Part, x: Part, chunk: nat)
    requires x.number > 0 && y.number > 0 && x.number != y.number && Stands(buf, x, chunk)
    requires if x.number < y.number then |x.bytes| == chunk else |y.bytes| == chunk
    ensures Stands(WriteAt(buf, Offset(y.number, chunk), y.bytes), x, chunk)
  {
    if x.number < y.number {
      OffsetApart(x.number, y.number, chunk);
    } else {
      OffsetApart(y.number, x.number, chunk);
    }
    hide Offset;
  }

  lemma WriteStands(buf: Bytes, y: Part, chunk: nat)
    requires y.number > 0
    ensures var w := WriteAt(buf, Offset(y.number, chunk), y.bytes);
      Stands(w, y, chunk) && (|w| == |buf| || |w| == Offset(y.number, chunk) + |y.bytes|) && |w| >= |buf|
  {
    hide Offset;
  }

  /** One more part arrives. */
  lemma PartialNext(buf: Bytes, t: seq<Part>, y: Part, chunk: nat)
    requires y.number > 0 && (forall x :: x in t ==> x.number > 0) && Partial(buf, t, chunk)
    requires forall x :: x in t ==>
      x.number != y.number && if x.number < y.number then |x.bytes| == chunk else |y.bytes| == chunk
    ensures forall x :: x in t + [y] ==> x in t || x == y
    ensures Partial(WriteAt(buf, Offset(y.number, chunk), y.bytes), t + [y], chunk)
  {
    hide WriteAt, Offset, Stands;
    var w := WriteAt(buf, Offset(y.number, chunk), y.bytes);
    WriteStands(buf, y, chunk);
    forall x | x in t ensures Stands(w, x, chunk) {
      WriteKeeps(buf, y, x, chunk);
    }
    assert y in t + [y];
    if w != [] && |w| == |buf| {
      var x :| x in t && |buf| == Offset(x.number, chunk) + |x.bytes|;
      assert x in t + [y];
    }
  }

  lemma {:induction false} AssembledPartial(all: seq<Part>, n: nat, chunk: nat)
    requires Complete(all, chunk) && n <= |all|
    ensures Partial(Assembled(all[..n], chunk), all[..n], chunk)
  {
    if n > 0 {
      AssembledPartial(all, n - 1, chunk);
      var t, y := all[..n - 1], all[n - 1];
      assert all[..n][..n - 1] == t && all[..n] == t + [y];
      hide WriteAt, Offset, Stands, Partial;
      forall x | x in t
        ensures x.number != y.number && if x.number < y.number then |x.bytes| == chunk else |y.bytes| == chunk
      {
        var i :| 0 <= i < |t| && t[i] == x;
        assert all[i] == x && all[i].number != all[n - 1].number;
      }
      PartialNext(Assembled(t, chunk), t, y, chunk);
    }
  }

  lemma OneMore(n: nat, chunk: nat)
    ensures (n + 1) * chunk == n * chunk + chunk
  {
  }

  lemma {:induction false} ContentsLength(s: seq<Part>, chunk: nat)
    requires forall x :: x in s ==> |x.bytes| == chunk
    ensures |Contents(s)| == |s| * chunk
  {
    if s != [] {
      ContentsLength(s[..|s| - 1], chunk);
      OneMore(|s| - 1, chunk);
    }
  }

  lemma ContentsNext(s: seq<Part>, j: nat)
    requires j < |s|
    ensures Contents(s[..j + 1]) == Contents(s[..j]) + s[j].bytes
  {
    assert s[..j + 1][..j] == s[..j];
  }

  lemma StandsBehind(buf: Bytes, x: Part, chunk: nat, before: Bytes)
    requires x.number > 0 && Stands(buf, x, chunk) && before <= buf && |before| == (x.number - 1) * chunk
    ensures before + x.bytes <= buf
  {
    var o := Offset(x.number, chunk);
    hide Offset;
    if x.bytes != [] {
      assert before + x.bytes == buf[..o + |x.bytes|];
    }
  }

  /** Whatever holds every part at its offset starts with their concatenation. */
  lemma {:induction false} PartialPrefix(buf: Bytes, s: seq<Part>, chunk: nat, j: nat)
    requires j <= |s| && (forall i :: 0 <= i < |s| ==> s[i].number == i + 1)
    requires (forall i :: 0 <= i < |s| - 1 ==> |s[i].bytes| == chunk) && Partial(buf, s, chunk)
    ensures Contents(s[..j]) <= buf
  {
    if j > 0 {
      hide Stands, Offset;
      var x := s[j - 1];
      PartialPrefix(buf, s, chunk, j - 1);
      ContentsNext(s, j - 1);
      ContentsLength(s[..j - 1], chunk);
      assert x in s && Stands(buf, x, chunk);
      hide Partial, Contents;
      StandsBehind(buf, x, chunk, Contents(s[..j - 1]));
    }
  }

  lemma ContentsEnd(s: seq<Part>, chunk: nat, x: Part)
    requires (forall i :: 0 <= i < |s| ==> s[i].number == i + 1)
    requires (forall i :: 0 <= i < |s| - 1 ==> |s[i].bytes| == chunk)
    requires x in s
    ensures Offset(x.number, chunk) + |x.bytes| <= |Contents(s)|
  {
    var last := |s| - 1;
    ContentsNext(s, last);
    assert s[..|s|] == s;
    ContentsLength(s[..last], chunk);
    if x.number < |s| { OffsetApart(x.number, |s|, chunk); }
  }

  lemma PartialSame(buf: Bytes, a: seq<Part>, b: seq<Part>, chunk: nat)
    requires (forall x :: x in a <==> x in b) && forall x :: x in a ==> x.number > 0
    ensures Partial(buf, a, chunk) <==> Partial(buf, b, chunk)
  {
    hide Stands, Offset;
  }

  /** A buffer that holds every part at its offset, and ends with one of them, is their concatenation. */
  lemma WholeContents(buf: Bytes, s: seq<Part>, chunk: nat)
    requires (forall i :: 0 <= i < |s| ==> s[i].number == i + 1)
    requires (forall i :: 0 <= i < |s| - 1 ==> |s[i].bytes| == chunk) && Partial(buf, s, chunk)
    ensures buf == Contents(s)
  {
    PartialPrefix(buf, s, chunk, |s|);
    assert s[..|s|] == s;
    hide Contents, Offset, Stands;
    if buf != [] {
      var x :| x in s && |buf| == Offset(x.number, chunk) + |x.bytes|;
      ContentsEnd(s, chunk, x);
    }
  }

  /** For complete parts in any order of arrival the two ways give the same bytes: the parts'
      contents by number. */
  lemma AssembliesAgree(arrived: seq<Part>, chunk: nat)
    requires Complete(arrived, chunk)
    ensures Assembled(arrived, chunk) == Contents(SortedParts(arrived))
  {
    hide Assembled, SortedParts, Contents, Partial;
    var s, buf := SortedParts(arrived), Assembled(arrived, chunk);
    SortedNumbers(arrived, chunk);
    AssembledPartial(arrived, |arrived|, chunk);
    assert arrived[..|arrived|] == arrived;
    PartialSame(buf, arrived, s, chunk);
    WholeContents(buf, s, chunk);
  }
}
