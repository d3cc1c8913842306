/** Small vocabulary shared by every other module. */
module Common {
  datatype Option<+T> = None | Some(value: T)

  newtype byte = b: int | 0 <= b < 256

  type Bytes = seq<byte>

  /** Milliseconds since the epoch, the resolution QDateTime is compared at. */
  type Time = int

  /** No element occurs twice. */
  ghost predicate NoDup<T>(s: seq<T>) {
    forall i, j :: 0 <= i < j < |s| ==> s[i] != s[j]
  }

  const U32: nat := 0x1_0000_0000

  function Min(a: int, b: int): int {
    if a <= b then a else b
  }

  function Max(a: int, b: int): int {
    if a >= b then a else b
  }

  lemma Distribute(a: nat, b: nat, c: nat)
    ensures (a + b) * c == a * c + b * c
    ensures b >= 1 ==> b * c >= c
    ensures b * c >= 0
  {
    if b >= 1 {
      assert b * c == c + (b - 1) * c;
    }
  }

  /** All the chunks one after another: what feeding them to a digest in order hashes. */
  function Concat<T>(chunks: seq<seq<T>>): seq<T> {
    if chunks == [] then [] else chunks[0] + Concat(chunks[1..])
  }

  lemma {:induction false} ConcatAppend<T>(a: seq<seq<T>>, b: seq<seq<T>>)
    ensures Concat(a + b) == Concat(a) + Concat(b)
  {
    if a == [] {
      assert a + b == b;
    } else {
      assert (a + b)[1..] == a[1..] + b;
      ConcatAppend(a[1..], b);
    }
  }

  lemma ConcatSnoc<T>(a: seq<seq<T>>, x: seq<T>)
    ensures Concat(a + [x]) == Concat(a) + x
  {
    ConcatAppend(a, [x]);
    assert Concat([x]) == x + Concat([x][1..]);
  }

  /** Chunks of one fixed positive length can be read back from their concatenation. */
  lemma {:induction false} ConcatFixedInjective<T>(a: seq<seq<T>>, b: seq<seq<T>>, size: nat)
    requires size > 0
    requires forall c | c in a :: |c| == size
    requires forall c | c in b :: |c| == size
    requires Concat(a) == Concat(b)
    ensures a == b
  {
    if a != [] && b != [] {
      assert a[0] == Concat(a)[..size] == Concat(b)[..size] == b[0];
      assert Concat(a[1..]) == Concat(a)[size..] == Concat(b)[size..] == Concat(b[1..]);
      ConcatFixedInjective(a[1..], b[1..], size);
      assert a == [a[0]] + a[1..] && b == [b[0]] + b[1..];
    }
  }
}
