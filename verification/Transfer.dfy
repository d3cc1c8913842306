/** One transfer from the request to the last acknowledgement, over FIFO channels, while chunk
    bytes may be corrupted on the way and the receiver of a progress signal may cancel. */
module Transfer {
  import opened Common
  import opened Assembly
  import opened Storage
  import opened ChunkMath
  import opened Chunking

  /** What is moved: the sender's file, in chunks of a given size. */
  datatype Job = Job(H: Digest, path: string, file: Bytes, chunk: nat) {
    function Total(): nat
      requires chunk > 0
    {
      TotalChunks(|file|, chunk)
    }

    /** What the handlers check of the count. */
    predicate Counted() {
      chunk > 0 && Total() > 0
    }

    /** A file with contents, and neither the 64-bit sum nor the 32-bit count overflows. */
    predicate Sound() {
      && 0 < |file| < U64 && 0 < chunk < U64
      && |file| + chunk - 1 < U64 && Quot(|file| + chunk - 1, chunk) < U32
    }

    /** The parts the file has. */
    function Needed(): nat
      requires chunk > 0
    {
      Quot(|file| + chunk - 1, chunk)
    }

    /** What the counted parts hold together: all that is ever sent. */
    function Delivered(): Bytes
      requires chunk > 0
    {
      FirstParts(file, Total(), chunk)
    }
  }

  lemma CountedTiles(j: Job)
    requires j.Counted()
    ensures Tiles(|j.file|, j.chunk, j.Needed()) && 0 < j.Total() < U32 && j.Total() <= j.Needed()
  {
    hide TotalChunks, Quot;
    Quotient(|j.file|, j.chunk);
    CountBelow(|j.file|, j.chunk);
  }

  /** The counted parts are the whole file exactly if nothing overflows; otherwise the copy is cut short. */
  lemma DeliveredWhole(j: Job)
    requires j.Counted()
    ensures j.Delivered() == j.file <==> j.Sound()
    ensures j.Delivered() <= j.file && j.Delivered() != []
  {
    hide TotalChunks, Quot;
    CountedTiles(j);
    CountBelow(|j.file|, j.chunk);
    Distribute(1, j.Total() - 1, j.chunk);
    if |j.file| < U64 {
      ChunkBounded(j);
      TotalTiles(|j.file|, j.chunk);
      Distribute(j.Total() - 1, j.Needed() - j.Total(), j.chunk);
    }
  }

  lemma ChunkBounded(j: Job)
    requires j.Counted()
    ensures j.chunk < U64
  {
    CountBelow(|j.file|, j.chunk);
    hide TotalChunks;
    Distribute(1, j.Total() - 1, j.chunk);
  }

  /** Both ends of the transfer, the messages between them, the receiver's write commands so far and what they
      leave in its session, the signals raised, and how many corruptions are still to come. */
  datatype Leg = Leg(
    client: End, server: End, toServer: seq<Message>, toClient: seq<Message>,
    received: Bytes, writes: seq<Write>, clientSignals: seq<Signal>, serverSignals: seq<Signal>, budget: nat)

  function Written(received: Bytes, writes: seq<Write>): Bytes {
    if writes == [] then received
    else WriteAt(Written(received, writes[..|writes| - 1]), writes[|writes| - 1].offset, writes[|writes| - 1].bytes)
  }

  datatype Step =
    | AtServer
    | AtClient(cancel: bool)
    | Corrupt(upward: bool, index: nat, bytes: Bytes)

  predicate Corruptible(j: Job, wire: seq<Message>, i: nat, bytes: Bytes) {
    i < |wire| && wire[i].ChunkTransfer? && j.H(bytes) != wire[i].hash
  }

  /** What must hold for the step to happen at all. */
  predicate Enabled(j: Job, l: Leg, s: Step) {
    match s
    case AtServer => l.toServer != []
    case AtClient(_) => l.toClient != []
    case Corrupt(upward, i, bytes) =>
      l.budget > 0 && Corruptible(j, if upward then l.toServer else l.toClient, i, bytes)
  }

  /** What the receiving handler asserts. */
  predicate Expected(l: Leg, s: Step) {
    match s
    case AtServer => l.toServer != [] ==> ServerExpects(l.server, l.toServer[0])
    case AtClient(_) => l.toClient != [] ==> ClientExpects(l.client, l.toClient[0])
    case Corrupt(_, _, _) => true
  }

  function Next(j: Job, l: Leg, s: Step): Leg
    requires j.chunk > 0 && Enabled(j, l, s) && Expected(l, s)
  {
    match s
    case AtServer =>
      var m := l.toServer[0];
      var r := ServerHandle(j.H, j.file, j.chunk, l.server, m);
      l.(server := r.end, toServer := l.toServer[1..], toClient := l.toClient + r.sent,
         received := Written(l.received, r.writes), writes := l.writes + r.writes,
         serverSignals := l.serverSignals + r.signals)
    case AtClient(cancel) =>
      var m := l.toClient[0];
      var r := ClientHandle(j.H, j.file, l.client, m, cancel);
      l.(client := r.end, toClient := l.toClient[1..], toServer := l.toServer + r.sent,
         received := Written(l.received, r.writes), writes := l.writes + r.writes,
         clientSignals := l.clientSignals + r.signals)
    case Corrupt(upward, i, bytes) =>
      var l' := l.(budget := l.budget - 1);
      if upward then l'.(toServer := l.toServer[i := l.toServer[i].(bytes := bytes)])
      else l'.(toClient := l.toClient[i := l.toClient[i].(bytes := bytes)])
  }

  /** Writing part k at its offset, under the number the receiver hands on. */
  function Command(j: Job, k: nat, number: nat): Write
    requires j.chunk > 0 && k > 0
  {
    Write(number, (k - 1) * j.chunk, PartBytes(j.file, k, j.chunk))
  }

  /** The commands for parts 1..n in order. A server hands on the part's number; a client, whose storage needs
      none, zero. */
  function Commands(j: Job, n: nat, numbered: bool): seq<Write>
    requires j.chunk > 0
  {
    seq(n, i requires 0 <= i < n => Command(j, i + 1, if numbered then i + 1 else 0))
  }

  lemma CommandsNext(j: Job, n: nat, numbered: bool)
    requires j.chunk > 0
    ensures Commands(j, n + 1, numbered) ==
      Commands(j, n, numbered) + [Command(j, n + 1, if numbered then n + 1 else 0)]
    ensures |Commands(j, n, numbered)| == n
  {
  }

  /** What the sender has confirmed while part n is on its way: at first its initial value. */
  function LastConfirmed(n: nat): nat
    requires n > 0
  {
    if n == 1 then 1 else n - 1
  }

  /** The receiver has written exactly the first n parts, one after the other. */
  predicate Holds(j: Job, l: Leg, n: nat, numbered: bool)
    requires j.chunk > 0
  {
    l.received == FirstParts(j.file, n, j.chunk) && l.writes == Commands(j, n, numbered)
  }

  /** The chunk message of part n, as sent or with bytes that fail the check. */
  predicate Carries(j: Job, m: Message, n: nat)
    requires n > 0
  {
    && m.ChunkTransfer? && m.path == j.path && m.part == n && m.hash == j.H(PartBytes(j.file, n, j.chunk))
    && (m.bytes == PartBytes(j.file, n, j.chunk) || j.H(m.bytes) != m.hash)
  }

  /** Parts sent are the parts of the file. */
  lemma SentCarries(j: Job, n: nat)
    requires j.Counted() && 1 <= n <= j.Total()
    ensures Carries(j, PartMessage(j.H, j.path, j.file, j.chunk, n), n)
    ensures Intact(j.H, PartMessage(j.H, j.path, j.file, j.chunk, n))
  {
    OffsetExact(|j.file|, j.chunk, n);
    hide TotalChunks;
  }

  /** Writing an intact part n behind parts 1..n-1 gives parts 1..n. */
  lemma WriteExtends(j: Job, n: nat, received: Bytes)
    requires j.Counted() && 1 <= n <= j.Total() && received == FirstParts(j.file, n - 1, j.chunk)
    ensures WriteAt(received, PartOffset(n, j.chunk), PartBytes(j.file, n, j.chunk)) == FirstParts(j.file, n, j.chunk)
  {
    CountedTiles(j);
    OffsetExact(|j.file|, j.chunk, n);
    PartFollows(j.file, j.chunk, j.Needed(), n);
    hide TotalChunks, Quot, PartBytes, FirstParts, Tiles;
  }

  lemma WrittenOne(received: Bytes, w: Write)
    ensures Written(received, [w]) == WriteAt(received, w.offset, w.bytes) && Written(received, []) == received
  {
    assert [w][..0] == [];
  }

  /** Steps one after the other, each one possible and expected. */
  ghost predicate IsRun(j: Job, run: seq<Leg>, steps: seq<Step>)
    requires j.chunk > 0
  {
    && |run| == |steps| + 1
    && forall i :: 0 <= i < |steps| ==>
         Enabled(j, run[i], steps[i]) && Expected(run[i], steps[i]) && run[i + 1] == Next(j, run[i], steps[i])
  }

  lemma RunStep(j: Job, run: seq<Leg>, steps: seq<Step>, i: nat)
    requires j.chunk > 0 && IsRun(j, run, steps) && i < |steps|
    ensures Enabled(j, run[i], steps[i]) && Expected(run[i], steps[i]) && run[i + 1] == Next(j, run[i], steps[i])
  {
  }

  predicate Stopped(l: Leg) {
    l.toServer == [] && l.toClient == []
  }

  /** An empty file has no part to count. */
  lemma EmptyUncounted(j: Job)
    requires j.chunk > 0 && j.file == []
    ensures j.Total() == 0
  {
    CountBelow(0, j.chunk);
    DivBounds(j.chunk - 1, j.chunk);
    hide TotalChunks, Quot;
    if Quot(j.chunk - 1, j.chunk) > 0 {
      Distribute(1, Quot(j.chunk - 1, j.chunk) - 1, j.chunk);
    }
  }

  // ----- which files the chunks can carry -----

  /** In the chunks both backends use: the count the server computes. */
  function Chunks(file: Bytes): nat {
    TotalChunks(|file|, CHUNK_SIZE)
  }

  /** What the receiver of a finished transfer holds. */
  function Copy(file: Bytes): Bytes {
    FirstParts(file, Chunks(file), CHUNK_SIZE)
  }

  /** The client's check of the count passes. */
  predicate Uploads(file: Bytes) {
    Chunks(file) > 0
  }

  /** There is a last part, and the number after it is a 32-bit number too, or the client misses the end. */
  predicate Downloads(file: Bytes) {
    0 < Chunks(file) < U32 - 1
  }

  /** The file has contents, and no more chunks than a 32-bit number counts. */
  predicate Countable(file: Bytes) {
    0 < |file| <= CHUNK_SIZE * (U32 - 1)
  }

  /** These are the conditions of the transfers: a transfer starts with a count, and its copy is the file
      exactly if the file's chunks can be counted. */
  lemma Carried(H: Digest, path: string, file: Bytes)
    ensures var j := Job(H, path, file, CHUNK_SIZE);
      && (Uploads(file) <==> j.Counted()) && Copy(file) == j.Delivered()
      && (Downloads(file) <==> j.Counted() && j.Total() < U32 - 1)
      && (Countable(file) <==> j.Sound())
      && (Countable(file) <==> Uploads(file) && Copy(file) == file)
  {
    var j := Job(H, path, file, CHUNK_SIZE);
    var a := |file| + CHUNK_SIZE - 1;
    DivBounds(a, CHUNK_SIZE);
    CountableSound(j);
    if j.Sound() { SoundCounted(j); }
    hide TotalChunks, FirstParts, Quot;
    if j.Counted() {
      DeliveredWhole(j);
    }
  }

  /** As many chunks, less one: what a client can notice the end of. */
  predicate CountableDown(file: Bytes) {
    0 < |file| <= CHUNK_SIZE * (U32 - 2)
  }

  /** Transfers that come to an end with the whole file. */
  lemma WholeCopies(file: Bytes)
    ensures Countable(file) <==> Uploads(file) && Copy(file) == file
    ensures CountableDown(file) <==> Downloads(file) && Copy(file) == file
    ensures Countable(file) <==> 0 < |file| <= 22_517_998_131_609_600
    ensures CountableDown(file) <==> 0 < |file| <= 22_517_998_126_366_720
  {
    Carried(b => b, "", file);
    if Countable(file) { CountDown(file); }
    hide TotalChunks, FirstParts, Quot;
  }

  lemma CountDown(file: Bytes)
    requires Countable(file)
    ensures CountableDown(file) <==> Chunks(file) < U32 - 1
  {
    var j := Job(b => b, "", file, CHUNK_SIZE);
    CountableSound(j);
    TotalCases(|file|, CHUNK_SIZE);
    DivBounds(|file| + CHUNK_SIZE - 1, CHUNK_SIZE);
    hide TotalChunks;
  }

  /** Of a file with 2^32 chunks more than k only k chunks are counted: the transfer comes to an end with a copy
      of the first k, or trips where k is zero. */
  lemma OverlongCut(file: Bytes, k: nat)
    requires |file| == CHUNK_SIZE * (U32 + k) && k < U32
    ensures Chunks(file) == k && |Copy(file)| == CHUNK_SIZE * k && Copy(file) != file
    ensures Uploads(file) <==> k > 0
  {
    var a := |file| + CHUNK_SIZE - 1;
    assert Cut64(a) == a;
    DivBounds(a, CHUNK_SIZE);
    assert Quot(a, CHUNK_SIZE) == U32 + k;
  }

  lemma SoundCounted(j: Job)
    requires j.Sound()
    ensures j.Counted()
  {
    hide TotalChunks, Quot;
    TotalCases(|j.file|, j.chunk);
    Quotient(|j.file|, j.chunk);
  }

  lemma CountableSound(j: Job)
    requires j.chunk == CHUNK_SIZE
    ensures Countable(j.file) <==> j.Sound()
  {
    DivBounds(|j.file| + CHUNK_SIZE - 1, CHUNK_SIZE);
  }
}
