/** The machine arithmetic of chunk counts and offsets, and how the parts tile a file. */
module ChunkMath {
  import opened Common
  import opened Storage

  const U64: nat := 0x1_0000_0000_0000_0000

  function Quot(a: nat, b: nat): nat
    requires b > 0
  {
    a / b
  }

  function Cut32(a: nat): nat {
    a % U32
  }

  function Cut64(a: nat): nat {
    a % U64
  }

  /** 64-bit sum and quotient, cut to 32 bits. */
  function TotalChunks(size: nat, chunk: nat): (n: nat)
    requires chunk > 0
  {
    Cut32(Quot(Cut64(size + chunk - 1), chunk))
  }

  /** 32-bit difference, 64-bit product. */
  function PartOffset(part: nat, chunk: nat): nat {
    Cut64((part - 1) % U32 * chunk)
  }

  function NextPart(part: nat): nat {
    Cut32(part + 1)
  }

  lemma NextExact(n: nat)
    requires n < U32
    ensures NextPart(n) == if n < U32 - 1 then n + 1 else 0
  {
  }

  /** The parts cover the file and the last of them is needed. */
  predicate Tiles(size: nat, chunk: nat, total: nat) {
    size <= total * chunk && (total > 0 ==> (total - 1) * chunk < size)
  }

  lemma DivBounds(a: nat, b: nat)
    requires b > 0
    ensures Quot(a, b) * b <= a < Quot(a, b) * b + b
  {
  }

  lemma TooFew(total: nat, quotient: nat, chunk: nat, size: nat)
    requires total < quotient && Tiles(size, chunk, quotient)
    ensures !Tiles(size, chunk, total)
  {
    Distribute(total, quotient - 1 - total, chunk);
  }

  lemma Quotient(size: nat, chunk: nat)
    requires chunk > 0
    ensures Tiles(size, chunk, Quot(size + chunk - 1, chunk))
  {
    var q := Quot(size + chunk - 1, chunk);
    DivBounds(size + chunk - 1, chunk);
    if q > 0 { Distribute(q - 1, 1, chunk); }
  }

  lemma Wrapped(w: nat, chunk: nat, size: nat, total: nat)
    requires chunk > 0 && w < size && total <= Quot(w, chunk)
    ensures !Tiles(size, chunk, total)
  {
    var a := Quot(w, chunk);
    DivBounds(w, chunk);
    Distribute(total, a - total, chunk);
  }

  lemma WrapsOnce(a: nat)
    requires a < 2 * U64
    ensures Cut64(a) == if a < U64 then a else a - U64
  {
  }

  lemma CutFacts(a: nat)
    ensures Cut32(a) <= a && Cut32(a) < U32 && (a < U32 ==> Cut32(a) == a)
  {
  }

  lemma TotalCases(size: nat, chunk: nat)
    requires size < U64 && 0 < chunk < U64
    ensures var a := size + chunk - 1;
      && TotalChunks(size, chunk) <= Quot(if a < U64 then a else a - U64, chunk)
      && (a < U64 && Quot(a, chunk) < U32 ==> TotalChunks(size, chunk) == Quot(a, chunk))
      && TotalChunks(size, chunk) < U32
  {
    hide Quot, Cut32, Cut64;
    WrapsOnce(size + chunk - 1);
    CutFacts(Quot(Cut64(size + chunk - 1), chunk));
  }

  /** The computed count is right exactly when neither the sum nor the count overflows. */
  lemma TotalTiles(size: nat, chunk: nat)
    requires size < U64 && 0 < chunk < U64
    ensures Tiles(size, chunk, TotalChunks(size, chunk)) <==>
      size + chunk - 1 < U64 && Quot(size + chunk - 1, chunk) < U32
  {
    hide Tiles, TotalChunks, Quot;
    TotalCases(size, chunk);
    if size + chunk - 1 >= U64 {
      Wrapped(size + chunk - 1 - U64, chunk, size, TotalChunks(size, chunk));
    } else {
      Quotient(size, chunk);
      CutTooFew(size, chunk, Quot(size + chunk - 1, chunk), TotalChunks(size, chunk));
    }
  }

  lemma CutTooFew(size: nat, chunk: nat, q: nat, total: nat)
    requires Tiles(size, chunk, q) && total < U32 && total <= q
    ensures q >= U32 ==> !Tiles(size, chunk, total)
  {
    hide Tiles;
    if q >= U32 { TooFew(total, q, chunk, size); }
  }

  lemma QuotGrows(a: nat, b: nat, c: nat)
    requires a <= b && c > 0
    ensures Quot(a, c) <= Quot(b, c)
  {
    DivBounds(a, c);
    DivBounds(b, c);
    Distribute(Quot(b, c), 1, c);
    if Quot(a, c) > Quot(b, c) {
      Distribute(Quot(b, c) + 1, Quot(a, c) - Quot(b, c) - 1, c);
    }
  }

  /** The cuts never count a part too many, and the counted parts end below 2^64. */
  lemma CountBelow(size: nat, chunk: nat)
    requires chunk > 0
    ensures TotalChunks(size, chunk) <= Quot(size + chunk - 1, chunk) && TotalChunks(size, chunk) < U32
    ensures TotalChunks(size, chunk) * chunk < U64
  {
    hide Quot;
    var a := Cut64(size + chunk - 1);
    QuotGrows(a, size + chunk - 1, chunk);
    DivBounds(a, chunk);
    hide Cut64;
    var q, t := Quot(a, chunk), TotalChunks(size, chunk);
    CutFacts(q);
    hide Cut32;
    Distribute(t, q - t, chunk);
  }

  /** No offset of a counted part overflows, and every counted part has something of the file. */
  lemma OffsetExact(size: nat, chunk: nat, part: nat)
    requires chunk > 0 && 1 <= part <= TotalChunks(size, chunk)
    ensures PartOffset(part, chunk) == (part - 1) * chunk < size
  {
    hide Cut64, Quot, TotalChunks;
    var total := TotalChunks(size, chunk);
    CountBelow(size, chunk);
    Quotient(size, chunk);
    Distribute(part - 1, Quot(size + chunk - 1, chunk) - part, chunk);
    Distribute(part - 1, total - (part - 1), chunk);
    assert (part - 1) % U32 == part - 1;
    ProductFits((part - 1) * chunk);
  }

  lemma ProductFits(a: nat)
    requires a < U64
    ensures Cut64(a) == a
  {
  }

  function PartBytes(file: Bytes, part: nat, chunk: nat): Bytes
    requires part > 0
  {
    Slice(file, (part - 1) * chunk, chunk)
  }

  /** What parts 1..n hold together. */
  function FirstParts(file: Bytes, n: nat, chunk: nat): Bytes {
    file[..Min(n * chunk, |file|)]
  }

  lemma PartBounds(size: nat, chunk: nat, total: nat, n: nat)
    requires chunk > 0 && Tiles(size, chunk, total) && 1 <= n <= total
    ensures (n - 1) * chunk < size && n * chunk == (n - 1) * chunk + chunk
    ensures if n < total then n * chunk < size else size <= n * chunk
  {
    Distribute(n - 1, 1, chunk);
    if n < total {
      Distribute(n, total - 1 - n, chunk);
      assert n + (total - 1 - n) == total - 1;
    }
  }

  /** The next part continues where the parts before it end, and is never empty. */
  lemma PartFollows(file: Bytes, chunk: nat, total: nat, n: nat)
    requires chunk > 0 && Tiles(|file|, chunk, total) && 1 <= n <= total
    ensures FirstParts(file, n, chunk) == FirstParts(file, n - 1, chunk) + PartBytes(file, n, chunk)
    ensures |FirstParts(file, n - 1, chunk)| == (n - 1) * chunk && PartBytes(file, n, chunk) != []
    ensures |PartBytes(file, n, chunk)| == if n < total then chunk else |file| - (n - 1) * chunk
  {
    PartBounds(|file|, chunk, total, n);
    hide Tiles;
    SliceFollows(file, (n - 1) * chunk, chunk);
  }

  lemma SliceFollows(file: Bytes, offset: nat, chunk: nat)
    requires offset < |file|
    ensures file[..Min(offset + chunk, |file|)] == file[..offset] + Slice(file, offset, chunk)
    ensures |Slice(file, offset, chunk)| == if offset + chunk < |file| then chunk else |file| - offset
  {
  }
}
