/** Uploads are exact under corruption, always end, and cancel cleanly. */
module UploadRun {
  import opened Common
  import opened Assembly
  import opened Storage
  import opened ChunkMath
  import opened Chunking
  import opened Transfer

  datatype Phase =
    | Requested
    | Sized
    | Sending(part: nat)
    | Answered(part: nat, ok: bool)
    | Done
    | Cancelling
    | Cancelled

  /** Where the transfer is, read off the messages and the last signal. */
  function PhaseOf(l: Leg): Phase {
    if l.toServer != [] then
      match l.toServer[0]
      case RequestUpload(_, _) => Requested
      case ChunkTransfer(_, part, _, _) => Sending(part)
      case _ => Cancelling
    else if l.toClient != [] then
      match l.toClient[0]
      case Ack(_, part, failed) => Answered(part, !failed)
      case _ => Sized
    else if l.clientSignals != [] && l.clientSignals[|l.clientSignals| - 1] == UploadCompleted then Done
    else Cancelled
  }

  function Reports(j: Job, n: nat): seq<Signal>
    requires j.chunk > 0
  {
    seq(n, i requires 0 <= i < n => UploadProgress(i + 1, j.Total()))
  }

  lemma ReportsNext(j: Job, n: nat)
    requires j.chunk > 0
    ensures Reports(j, n + 1) == Reports(j, n) + [UploadProgress(n + 1, j.Total())]
  {
  }

  function Working(current: nat, j: Job): End
    requires j.chunk > 0
  {
    End(Some(Progress(current, j.Total(), j.chunk)), None)
  }

  ghost predicate At(j: Job, l: Leg, phase: Phase)
    requires j.chunk > 0
  {
    var T, started := j.Total(), [UploadStarted(|j.file|, j.chunk)];
    match phase
    case Requested =>
      && l.toServer == [RequestUpload(j.path, |j.file|)] && l.toClient == []
        && l.client == End(Some(Progress(1, 0, 0)), None)
      && l.server == NO_TRANSFER && Holds(j, l, 0, true) && l.clientSignals == [] && l.serverSignals == []
    case Sized =>
      && l.toServer == [] && l.toClient == [SpecifyUpload(j.path, j.chunk, T)]
        && l.client == End(Some(Progress(1, 0, 0)), None)
      && l.server == Working(0, j) && Holds(j, l, 0, true) && l.clientSignals == [] && l.serverSignals == started
    case Sending(n) =>
      && 1 <= n <= T && |l.toServer| == 1 && Carries(j, l.toServer[0], n) && l.toClient == []
      && l.client == Working(LastConfirmed(n), j) && l.server == Working(n - 1, j) && Holds(j, l, n - 1, true)
      && l.clientSignals == Reports(j, n - 1) && l.serverSignals == started
    case Answered(n, ok) =>
      && 1 <= n <= T && l.toServer == [] && l.toClient == [Ack(j.path, n, !ok)]
        && l.client == Working(LastConfirmed(n), j)
      && l.server == (if ok && n == T then NO_TRANSFER else Working(if ok then n else n - 1, j))
      && Holds(j, l, if ok then n else n - 1, true) && l.clientSignals == Reports(j, n - 1)
      && l.serverSignals == started + if ok && n == T then [UploadCompleted] else []
    case Done =>
      && T > 0 && l.toServer == [] && l.toClient == [] && l.client == NO_TRANSFER && l.server == NO_TRANSFER
        && Holds(j, l, T, true)
      && l.clientSignals == Reports(j, T - 1) + [UploadCompleted] && l.serverSignals == started + [UploadCompleted]
    case Cancelling =>
      && l.toServer == [CancelTransfer(j.path)] && l.toClient == [] && l.client == NO_TRANSFER
      && 1 <= |l.writes| < T && l.server == Working(|l.writes|, j) && Holds(j, l, |l.writes|, true)
      && l.clientSignals == Reports(j, |l.writes|) + [UploadCancelled] && l.serverSignals == started
    case Cancelled =>
      && l.toServer == [] && l.toClient == [] && l.client == NO_TRANSFER && l.server == NO_TRANSFER
      && 1 <= |l.writes| < T && Holds(j, l, |l.writes|, true)
      && l.clientSignals == Reports(j, |l.writes|) + [UploadCancelled] && l.serverSignals == started + [UploadCancelled]
  }

  ghost predicate Inv(j: Job, l: Leg)
    requires j.chunk > 0
  {
    At(j, l, PhaseOf(l))
  }

  /** Deliveries still to come if nothing else goes wrong, and three for every possible corruption. */
  function Left(j: Job, l: Leg): int
    requires j.chunk > 0
  {
    var T := j.Total();
    3 * l.budget + match PhaseOf(l)
    case Requested => 2 * T + 2
    case Sized => 2 * T + 1
    case Sending(n) => 2 * (T - n) + 2 + if Intact(j.H, l.toServer[0]) then 0 else 2
    case Answered(n, ok) => 2 * (T - n) + if ok then 1 else 3
    case Cancelling => 1
    case _ => 0
  }

  // ----- one step, phase by phase -----

  /** The step was expected, keeps the invariant and brings the end nearer. */
  ghost predicate Fine(j: Job, l: Leg, s: Step)
    requires j.chunk > 0 && Enabled(j, l, s)
  {
    Expected(l, s) && Inv(j, Next(j, l, s)) && Left(j, Next(j, l, s)) < Left(j, l)
  }

  lemma StepRequested(j: Job, l: Leg, s: Step)
    requires j.Counted() && At(j, l, Requested) && Enabled(j, l, s)
    ensures Fine(j, l, s)
  {
    hide ClientHandle, ClientExpects, ClientAck, ClientChunk;
    assert s.AtServer?;
    assert l.serverSignals + [UploadStarted(|j.file|, j.chunk)] == [UploadStarted(|j.file|, j.chunk)];
    assert Next(j, l, s).writes == l.writes;
    assert At(j, Next(j, l, s), Sized);
  }

  lemma StepSized(j: Job, l: Leg, s: Step)
    requires j.Counted() && At(j, l, Sized) && Enabled(j, l, s)
    ensures Fine(j, l, s)
  {
    hide ServerHandle, ServerExpects, ServerAck, ServerChunk;
    CountedTiles(j);
    SentCarries(j, 1);
    hide TotalChunks, FirstParts, PartBytes, PartMessage, Quot;
    assert s.AtClient?;
    var y := Next(j, l, s);
    assert y.writes == l.writes && y.clientSignals == [];
    assert At(j, y, Sending(1));
  }

  lemma StepIntact(j: Job, l: Leg, n: nat)
    requires j.Counted() && At(j, l, Sending(n)) && Intact(j.H, l.toServer[0])
    ensures Fine(j, l, AtServer)
  {
    hide ClientHandle, ClientExpects, ClientAck, ClientChunk;
    CountedTiles(j);
    WriteExtends(j, n, l.received);
    WrittenOne(l.received, Write(n, PartOffset(n, j.chunk), l.toServer[0].bytes));
    CommandsNext(j, n - 1, true);
    OffsetExact(|j.file|, j.chunk, n);
    hide TotalChunks, FirstParts, PartBytes, PartMessage, Quot, PartOffset, WriteAt, Written, Commands, Reports;
    var y := Next(j, l, AtServer);
    assert y.writes == l.writes + [Command(j, n, n)];
    assert At(j, y, Answered(n, true));
  }

  lemma StepDamaged(j: Job, l: Leg, n: nat)
    requires j.Counted() && At(j, l, Sending(n)) && !Intact(j.H, l.toServer[0])
    ensures Fine(j, l, AtServer)
  {
    hide ClientHandle, ClientExpects, ClientAck, ClientChunk;
    hide TotalChunks, FirstParts, PartBytes, PartMessage, Quot, PartOffset, WriteAt, Commands, Reports, NextPart;
    var y := Next(j, l, AtServer);
    assert y.writes == l.writes && y.serverSignals == l.serverSignals;
    assert At(j, y, Answered(n, false));
  }

  lemma StepCorrupt(j: Job, l: Leg, s: Step, n: nat)
    requires j.Counted() && At(j, l, Sending(n)) && s.Corrupt? && Enabled(j, l, s)
    ensures Fine(j, l, s)
  {
    hide TotalChunks, FirstParts, PartBytes, PartMessage, Quot, Commands, Reports;
    var y := Next(j, l, s);
    assert y.toServer == [l.toServer[0].(bytes := s.bytes)];
    assert At(j, y, Sending(n));
  }

  lemma StepResend(j: Job, l: Leg, cancel: bool, n: nat)
    requires j.Counted() && At(j, l, Answered(n, false))
    ensures Fine(j, l, AtClient(cancel))
  {
    hide ServerHandle, ServerExpects, ServerAck, ServerChunk;
    SentCarries(j, n);
    hide TotalChunks, FirstParts, PartBytes, PartMessage, Quot, PartOffset, WriteAt, Commands, Reports, NextPart;
    var y := Next(j, l, AtClient(cancel));
    assert y.writes == l.writes && y.clientSignals == l.clientSignals;
    assert At(j, y, Sending(n));
  }

  lemma StepFinal(j: Job, l: Leg, cancel: bool, n: nat)
    requires j.Counted() && At(j, l, Answered(n, true)) && n == j.Total()
    ensures Fine(j, l, AtClient(cancel))
  {
    hide ServerHandle, ServerExpects, ServerAck, ServerChunk;
    CountedTiles(j);
    hide TotalChunks, FirstParts, PartBytes, PartMessage, Quot, PartOffset, WriteAt, Commands, Reports, NextPart;
    var y := Next(j, l, AtClient(cancel));
    assert y.writes == l.writes;
    assert At(j, y, Done);
  }

  lemma StepNext(j: Job, l: Leg, n: nat)
    requires j.Counted() && At(j, l, Answered(n, true)) && n < j.Total()
    ensures Fine(j, l, AtClient(false))
  {
    hide ServerHandle, ServerExpects, ServerAck, ServerChunk;
    CountedTiles(j);
    ReportsNext(j, n - 1);
    SentCarries(j, n + 1);
    NextExact(n);
    hide TotalChunks, FirstParts, PartBytes, PartMessage, Quot, PartOffset, WriteAt, Commands, Reports, NextPart;
    var y := Next(j, l, AtClient(false));
    assert y.writes == l.writes;
    assert At(j, y, Sending(n + 1));
  }

  lemma CancelNext(j: Job, l: Leg, n: nat)
    requires j.Counted() && At(j, l, Answered(n, true)) && n < j.Total()
    ensures Expected(l, AtClient(true))
    ensures Next(j, l, AtClient(true)) ==
      l.(client := NO_TRANSFER, toClient := [], toServer := [CancelTransfer(j.path)],
         clientSignals := l.clientSignals + [UploadProgress(n, j.Total()), UploadCancelled])
  {
    hide ServerHandle, ServerExpects, ServerAck, ServerChunk;
    hide TotalChunks, FirstParts, PartBytes, PartMessage, Quot, PartOffset, WriteAt, Commands, Reports, NextPart;
    CountedTiles(j);
    CancelExpected(n);
  }

  lemma CancelExpected(n: nat)
    requires 1 <= n < U32 - 1
    ensures NextPart(n) > 0
  {
  }

  lemma StepCancel(j: Job, l: Leg, n: nat)
    requires j.Counted() && At(j, l, Answered(n, true)) && n < j.Total()
    ensures Fine(j, l, AtClient(true))
  {
    hide Next, Expected;
    CancelNext(j, l, n);
    CountedTiles(j);
    ReportsNext(j, n - 1);
    CommandsNext(j, n, true);
    hide TotalChunks, FirstParts, PartBytes, Quot, Commands, Reports;
    var y := Next(j, l, AtClient(true));
    assert y.clientSignals == Reports(j, n) + [UploadCancelled];
    assert At(j, y, Cancelling);
  }

  lemma StepSending(j: Job, l: Leg, s: Step, n: nat)
    requires j.Counted() && At(j, l, Sending(n)) && Enabled(j, l, s)
    ensures Fine(j, l, s)
  {
    if s.Corrupt? {
      StepCorrupt(j, l, s, n);
    } else if Intact(j.H, l.toServer[0]) {
      StepIntact(j, l, n);
    } else {
      StepDamaged(j, l, n);
    }
  }

  lemma StepAnswered(j: Job, l: Leg, s: Step, n: nat, ok: bool)
    requires j.Counted() && At(j, l, Answered(n, ok)) && Enabled(j, l, s)
    ensures Fine(j, l, s)
  {
    hide Fine;
    if !ok {
      StepResend(j, l, s.cancel, n);
    } else if n == j.Total() {
      StepFinal(j, l, s.cancel, n);
    } else if s.cancel {
      StepCancel(j, l, n);
    } else {
      StepNext(j, l, n);
    }
  }

  lemma StepCancelling(j: Job, l: Leg, s: Step)
    requires j.Counted() && At(j, l, Cancelling) && Enabled(j, l, s)
    ensures Fine(j, l, s)
  {
    hide ClientHandle, ClientExpects, ClientAck, ClientChunk;
    hide TotalChunks, FirstParts, Quot;
    assert s.AtServer?;
    var y := Next(j, l, s);
    assert y.writes == l.writes && y.clientSignals == l.clientSignals;
    assert At(j, y, Cancelled);
  }

  /** No handler assertion fails, the invariant stays, the end comes nearer. */
  lemma UploadStep(j: Job, l: Leg, s: Step)
    requires j.Counted() && Inv(j, l) && Enabled(j, l, s)
    ensures Fine(j, l, s)
  {
    hide Fine;
    match PhaseOf(l) {
      case Requested => StepRequested(j, l, s);
      case Sized => StepSized(j, l, s);
      case Sending(n) => StepSending(j, l, s, n);
      case Answered(n, ok) => StepAnswered(j, l, s, n, ok);
      case Cancelling => StepCancelling(j, l, s);
      case Done => assert false;
      case Cancelled => assert false;
    }
  }

  // ----- whole runs -----

  ghost predicate Start(j: Job, l: Leg)
    requires j.chunk > 0
  {
    At(j, l, Requested)
  }

  lemma {:induction false} RunInv(j: Job, run: seq<Leg>, steps: seq<Step>, i: nat)
    requires j.Counted() && IsRun(j, run, steps) && Start(j, run[0]) && i <= |steps|
    ensures Inv(j, run[i]) && Left(j, run[i]) + i <= 2 * j.Total() + 2 + 3 * run[0].budget
  {
    hide Next, Enabled, Expected, Inv, Left, TotalChunks, Quot;
    if i == 0 {
      RequestedLeft(j, run[0]);
    } else {
      RunInv(j, run, steps, i - 1);
      RunStep(j, run, steps, i - 1);
      UploadStep(j, run[i - 1], steps[i - 1]);
    }
  }

  lemma RequestedLeft(j: Job, l: Leg)
    requires j.chunk > 0 && At(j, l, Requested)
    ensures Inv(j, l) && Left(j, l) == 2 * j.Total() + 2 + 3 * l.budget
  {
  }

  lemma LeftNonNegative(j: Job, l: Leg)
    requires j.chunk > 0 && Inv(j, l)
    ensures Left(j, l) >= 0
  {
  }

  /** No assertion of either side fails, whatever comes next. */
  lemma UploadNeverFails(j: Job, run: seq<Leg>, steps: seq<Step>, i: nat, s: Step)
    requires j.Counted() && IsRun(j, run, steps) && Start(j, run[0]) && i <= |steps| && Enabled(j, run[i], s)
    ensures Expected(run[i], s)
  {
    hide At;
    RunInv(j, run, steps, i);
    UploadStep(j, run[i], s);
  }

  /** At every moment the server holds exactly the first parts, each written once and in order; when the
      client calls the upload complete the server has all counted parts, which are the whole file if and only
      if no count overflows, and both sides have forgotten the transfer. */
  lemma UploadExact(j: Job, run: seq<Leg>, steps: seq<Step>, i: nat)
    requires j.Counted() && IsRun(j, run, steps) && Start(j, run[0]) && i <= |steps|
    ensures run[i].writes == Commands(j, |run[i].writes|, true) && |run[i].writes| <= j.Total()
    ensures run[i].received == FirstParts(j.file, |run[i].writes|, j.chunk)
    ensures UploadCompleted in run[i].serverSignals <==> |run[i].writes| == j.Total()
    ensures UploadCompleted in run[i].serverSignals ==>
      run[i].received == j.Delivered() && (run[i].received == j.file <==> j.Sound())
    ensures UploadCompleted in run[i].clientSignals ==>
      UploadCompleted in run[i].serverSignals && run[i].client == run[i].server == NO_TRANSFER && Stopped(run[i])
  {
    RunInv(j, run, steps, i);
    CountedTiles(j);
    DeliveredWhole(j);
    hide IsRun, TotalChunks, FirstParts, PartBytes, Quot;
    PartsLength(j, run[i]);
  }

  lemma PartsLength(j: Job, l: Leg)
    requires j.Counted() && Inv(j, l)
    ensures l.writes == Commands(j, |l.writes|, true)
  {
    hide TotalChunks, FirstParts, PartBytes, Quot;
  }

  /** What the two sides signal: the client reports each part it sees confirmed, once and in order, then the
      completion or the cancel, each at its time and as the last; the server the start with size and chunk, then
      the same end. */
  lemma UploadSignals(j: Job, run: seq<Leg>, steps: seq<Step>, i: nat, k: nat)
    requires j.Counted() && IsRun(j, run, steps) && Start(j, run[0]) && i <= |steps|
    ensures var l := run[i];
      && (k < |l.clientSignals| ==>
           || (l.clientSignals[k] == UploadProgress(k + 1, j.Total()) && k < |l.writes|)
           || (l.clientSignals[k..] == [UploadCompleted] && k + 1 == |l.writes| == j.Total())
           || (l.clientSignals[k..] == [UploadCancelled] && k == |l.writes| < j.Total()))
      && (k < |l.serverSignals| ==>
           || (k == 0 && l.serverSignals[k] == UploadStarted(|j.file|, j.chunk))
           || (k == 1 && l.serverSignals[k..] == [UploadCompleted] && |l.writes| == j.Total())
           || (k == 1 && l.serverSignals[k..] == [UploadCancelled] && |l.writes| < j.Total()))
  {
    RunInv(j, run, steps, i);
    SignalsTold(j, run[i], k);
  }

  lemma SignalsTold(j: Job, l: Leg, k: nat)
    requires j.Counted() && Inv(j, l)
    ensures k < |l.clientSignals| ==>
      || (l.clientSignals[k] == UploadProgress(k + 1, j.Total()) && k < |l.writes|)
      || (l.clientSignals[k..] == [UploadCompleted] && k + 1 == |l.writes| == j.Total())
      || (l.clientSignals[k..] == [UploadCancelled] && k == |l.writes| < j.Total())
    ensures k < |l.serverSignals| ==>
      || (k == 0 && l.serverSignals[k] == UploadStarted(|j.file|, j.chunk))
      || (k == 1 && l.serverSignals[k..] == [UploadCompleted] && |l.writes| == j.Total())
      || (k == 1 && l.serverSignals[k..] == [UploadCancelled] && |l.writes| < j.Total())
  {
    hide TotalChunks, FirstParts, PartBytes, Quot;
  }

  /** Every run is short: two deliveries a part and two more, and at most three steps for each
      corruption. */
  lemma UploadEnds(j: Job, run: seq<Leg>, steps: seq<Step>)
    requires j.Counted() && IsRun(j, run, steps) && Start(j, run[0])
    ensures |steps| <= 2 * j.Total() + 2 + 3 * run[0].budget
  {
    RunInv(j, run, steps, |steps|);
    LeftNonNegative(j, run[|steps|]);
  }

  lemma {:induction false} NotCancelled(j: Job, run: seq<Leg>, steps: seq<Step>, i: nat)
    requires j.Counted() && IsRun(j, run, steps) && Start(j, run[0]) && i <= |steps|
    requires forall k :: 0 <= k < |steps| ==> steps[k] != AtClient(true)
    ensures UploadCancelled !in run[i].clientSignals
  {
    if i > 0 {
      NotCancelled(j, run, steps, i - 1);
      RunStep(j, run, steps, i - 1);
      hide IsRun, At, PartMessage, Written;
    }
  }

  /** When nothing is under way any more the upload is complete on both sides, or it was
      cancelled at a progress signal and neither side remembers it. */
  lemma UploadOutcome(j: Job, run: seq<Leg>, steps: seq<Step>)
    requires j.Counted() && IsRun(j, run, steps) && Start(j, run[0]) && Stopped(run[|steps|])
    ensures var l := run[|steps|];
      && l.client == l.server == NO_TRANSFER
      && (UploadCompleted in l.clientSignals <==> UploadCompleted in l.serverSignals)
      && (UploadCancelled in l.clientSignals <==> UploadCancelled in l.serverSignals)
      && (UploadCompleted in l.clientSignals <==> UploadCancelled !in l.clientSignals)
      && (UploadCompleted in l.clientSignals ==> l.received == j.Delivered() && (l.received == j.file <==> j.Sound()))
      && ((forall k :: 0 <= k < |steps| ==> steps[k] != AtClient(true)) ==> UploadCompleted in l.clientSignals)
  {
    RunInv(j, run, steps, |steps|);
    CountedTiles(j);
    DeliveredWhole(j);
    if forall k :: 0 <= k < |steps| ==> steps[k] != AtClient(true) {
      NotCancelled(j, run, steps, |steps|);
    }
    hide IsRun, TotalChunks, FirstParts, PartBytes, Quot;
  }

  /** The client's check of the chunk count passes exactly if there is a part to count: the upload of an empty
      file trips it, and of a file whose count of parts, cut to 32 bits, is zero. */
  lemma UploadNeedsCount(j: Job, l: Leg, cancel: bool)
    requires 0 < j.chunk && Start(j, l)
    ensures Enabled(j, l, AtServer) && Enabled(j, Next(j, l, AtServer), AtClient(cancel))
    ensures Expected(Next(j, l, AtServer), AtClient(cancel)) <==> j.Total() > 0
    ensures j.file == [] ==> j.Total() == 0
    ensures j.Sound() ==> j.Total() > 0
  {
    if j.file == [] { EmptyUncounted(j); }
    if j.Sound() { SoundCounted(j); }
    hide TotalChunks, Quot;
  }

  /** The client forgets the upload and tells the server, outside any progress signal. */
  function CancelledNow(j: Job, l: Leg): Leg {
    l.(client := l.client.(up := None), toServer := l.toServer + [CancelTransfer(j.path)],
      clientSignals := l.clientSignals + [UploadCancelled])
  }

  /** Only the moment of a progress signal is safe for cancelling: at any other moment an answer
      is still to come, and it finds no state at the client. */
  lemma CancelElsewhereTrips(j: Job, l: Leg, cancel: bool)
    requires j.Counted() && Inv(j, l) && l.client.up.Some?
    ensures var c := CancelledNow(j, l);
      if l.toClient != [] then !Expected(c, AtClient(cancel))
      else Enabled(j, c, AtServer) && Expected(c, AtServer)
           && Enabled(j, Next(j, c, AtServer), AtClient(cancel)) && !Expected(Next(j, c, AtServer), AtClient(cancel))
  {
    hide TotalChunks, FirstParts, PartBytes, PartMessage, Quot, PartOffset, WriteAt, Written, Commands, Reports;
  }
}
