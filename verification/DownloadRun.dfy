/** Downloads are exact under corruption, always end, and cancel cleanly. The server drives: its
    answer to the request carries the sizes and is followed at once by part 1. */
module DownloadRun {
  import opened Common
  import opened Assembly
  import opened Storage
  import opened ChunkMath
  import opened Chunking
  import opened Transfer

  datatype Phase =
    | Requested
    | Sized
    | Sending(part: nat)
    | Answered(part: nat, ok: bool)
    | Done
    | Cancelling
    | Cancelled

  /** Where the transfer is, read off the messages and the last signal. */
  function PhaseOf(l: Leg): Phase {
    if l.toServer != [] then
      match l.toServer[0]
      case RequestDownload(_, _) => Requested
      case Ack(_, part, failed) => Answered(part, !failed)
      case _ => Cancelling
    else if l.toClient != [] then
      match l.toClient[0]
      case ChunkTransfer(_, part, _, _) => Sending(part)
      case _ => Sized
    else if l.clientSignals != [] && l.clientSignals[|l.clientSignals| - 1] == DownloadCancelled then Cancelled
    else Done
  }

  function Reports(j: Job, n: nat): seq<Signal>
    requires j.chunk > 0
  {
    seq(n, i requires 0 <= i < n => DownloadProgress(i + 1, j.Total()))
  }

  lemma ReportsNext(j: Job, n: nat)
    requires j.chunk > 0
    ensures Reports(j, n + 1) == Reports(j, n) + [DownloadProgress(n + 1, j.Total())]
  {
  }

  function Working(current: nat, j: Job): End
    requires j.chunk > 0
  {
    End(None, Some(Progress(current, j.Total(), j.chunk)))
  }

  /** The client notices the end by the number of the part to come. That number overflows to
      zero when the count of parts is the largest 32-bit number. */
  predicate Notices(j: Job)
    requires j.chunk > 0
  {
    j.Total() < U32 - 1
  }

  /** The client after part n: done, if it noticed. */
  function AfterPart(j: Job, n: nat): End
    requires j.chunk > 0
  {
    if n == j.Total() && Notices(j) then NO_TRANSFER else Working(NextPart(n), j)
  }

  function ReportsAfter(j: Job, n: nat): seq<Signal>
    requires j.chunk > 0 && n > 0
  {
    if n == j.Total() && Notices(j) then Reports(j, n - 1) + [DownloadCompleted] else Reports(j, n)
  }

  ghost predicate At(j: Job, l: Leg, phase: Phase)
    requires j.chunk > 0
  {
    var T := j.Total();
    match phase
    case Requested =>
      && |l.toServer| == 1 && l.toServer[0].RequestDownload? && l.toServer[0].path == j.path && l.toClient == []
      && l.client == End(None, Some(Progress(1, 0, 0))) && l.server == NO_TRANSFER && Holds(j, l, 0, false)
      && l.clientSignals == [] && l.serverSignals == []
    case Sized =>
      && T >= 1 && l.toServer == [] && |l.toClient| == 2 && l.toClient[0] == SpecifyDownload(j.path, j.chunk, T)
      && Carries(j, l.toClient[1], 1) && l.client == End(None, Some(Progress(1, 0, 0))) && l.server == Working(1, j)
      && Holds(j, l, 0, false) && l.clientSignals == [] && l.serverSignals == []
    case Sending(n) =>
      && 1 <= n <= T && l.toServer == [] && |l.toClient| == 1 && Carries(j, l.toClient[0], n)
      && l.client == Working(n, j) && l.server == Working(LastConfirmed(n), j) && Holds(j, l, n - 1, false)
      && l.clientSignals == Reports(j, n - 1) && l.serverSignals == []
    case Answered(n, ok) =>
      && 1 <= n <= T && l.toServer == [Ack(j.path, n, !ok)] && l.toClient == []
      && l.client == (if ok then AfterPart(j, n) else Working(n, j)) && l.server == Working(LastConfirmed(n), j)
      && Holds(j, l, if ok then n else n - 1, false)
      && l.clientSignals == (if ok then ReportsAfter(j, n) else Reports(j, n - 1)) && l.serverSignals == []
    case Done =>
      && T >= 1 && l.toServer == [] && l.toClient == [] && l.client == AfterPart(j, T) && l.server == NO_TRANSFER
      && Holds(j, l, T, false) && l.clientSignals == ReportsAfter(j, T) && l.serverSignals == [DownloadCompleted]
    case Cancelling =>
      && l.toServer == [CancelTransfer(j.path)] && l.toClient == [] && l.client == NO_TRANSFER
      && 1 <= |l.writes| <= T && l.server == Working(LastConfirmed(|l.writes|), j) && Holds(j, l, |l.writes|, false)
      && l.clientSignals == Reports(j, |l.writes|) + [DownloadCancelled] && l.serverSignals == []
    case Cancelled =>
      && l.toServer == [] && l.toClient == [] && l.client == NO_TRANSFER && l.server == NO_TRANSFER
      && 1 <= |l.writes| <= T && Holds(j, l, |l.writes|, false)
      && l.clientSignals == Reports(j, |l.writes|) + [DownloadCancelled] && l.serverSignals == [DownloadCancelled]
  }

  ghost predicate Inv(j: Job, l: Leg)
    requires j.chunk > 0
  {
    At(j, l, PhaseOf(l))
  }

  function Damage(j: Job, m: Message): nat {
    if m.ChunkTransfer? && !Intact(j.H, m) then 2 else 0
  }

  /** Deliveries still to come if nothing else goes wrong, and three for every possible corruption. */
  function Left(j: Job, l: Leg): int
    requires j.chunk > 0
  {
    var T := j.Total();
    3 * l.budget + match PhaseOf(l)
    case Requested => 2 * T + 2
    case Sized => 2 * T + 1 + if |l.toClient| > 1 then Damage(j, l.toClient[1]) else 0
    case Sending(n) => 2 * (T - n) + 2 + Damage(j, l.toClient[0])
    case Answered(n, ok) => 2 * (T - n) + if ok then 1 else 3
    case Cancelling => 1
    case _ => 0
  }

  /** The step was expected, keeps the invariant and brings the end nearer. */
  ghost predicate Fine(j: Job, l: Leg, s: Step)
    requires j.chunk > 0 && Enabled(j, l, s)
  {
    Expected(l, s) && Inv(j, Next(j, l, s)) && Left(j, Next(j, l, s)) < Left(j, l)
  }

  // ----- one step, phase by phase -----

  lemma StepRequested(j: Job, l: Leg, s: Step)
    requires j.Counted() && At(j, l, Requested) && Enabled(j, l, s)
    ensures Fine(j, l, s)
  {
    hide ClientHandle, ClientExpects, ClientAck, ClientChunk;
    CountedTiles(j);
    SentCarries(j, 1);
    hide TotalChunks, FirstParts, PartBytes, PartMessage, Quot, Reports;
    assert s.AtServer?;
    var y := Next(j, l, s);
    assert y.writes == l.writes && y.serverSignals == [];
    assert At(j, y, Sized);
  }

  lemma StepSized(j: Job, l: Leg, s: Step)
    requires j.Counted() && At(j, l, Sized) && Enabled(j, l, s)
    ensures Fine(j, l, s)
  {
    hide ServerHandle, ServerExpects, ServerAck, ServerChunk;
    CountedTiles(j);
    hide TotalChunks, FirstParts, PartBytes, PartMessage, Quot;
    var y := Next(j, l, s);
    if s.Corrupt? {
      assert !s.upward && s.index == 1;
      assert y.toClient[0] == l.toClient[0];
      assert At(j, y, Sized);
    } else {
      assert s.AtClient?;
      assert y.writes == l.writes && y.clientSignals == Reports(j, 0) && y.toServer == [];
      assert y.toClient == [l.toClient[1]];
      assert At(j, y, Sending(1));
    }
  }

  lemma StepIntact(j: Job, l: Leg, cancel: bool, n: nat)
    requires j.Counted() && At(j, l, Sending(n)) && Intact(j.H, l.toClient[0])
    requires !cancel || (n == j.Total() && Notices(j))
    ensures Fine(j, l, AtClient(cancel))
  {
    hide ServerHandle, ServerExpects, ServerAck, ServerChunk;
    CountedTiles(j);
    NextExact(n);
    WriteExtends(j, n, l.received);
    WrittenOne(l.received, Write(0, PartOffset(n, j.chunk), l.toClient[0].bytes));
    CommandsNext(j, n - 1, false);
    OffsetExact(|j.file|, j.chunk, n);
    ReportsNext(j, n - 1);
    hide TotalChunks, FirstParts, PartBytes, PartMessage, Quot, PartOffset, WriteAt, Written, Commands;
    hide Reports, NextPart;
    var y := Next(j, l, AtClient(cancel));
    assert y.writes == l.writes + [Command(j, n, 0)];
    assert At(j, y, Answered(n, true));
  }

  lemma StepCancel(j: Job, l: Leg, n: nat)
    requires j.Counted() && At(j, l, Sending(n)) && Intact(j.H, l.toClient[0]) && !(n == j.Total() && Notices(j))
    ensures Fine(j, l, AtClient(true))
  {
    hide ServerHandle, ServerExpects, ServerAck, ServerChunk;
    CountedTiles(j);
    NextExact(n);
    WriteExtends(j, n, l.received);
    WrittenOne(l.received, Write(0, PartOffset(n, j.chunk), l.toClient[0].bytes));
    CommandsNext(j, n - 1, false);
    OffsetExact(|j.file|, j.chunk, n);
    ReportsNext(j, n - 1);
    CommandsNext(j, n, false);
    hide TotalChunks, FirstParts, PartBytes, PartMessage, Quot, PartOffset, WriteAt, Written, Commands;
    hide Reports, NextPart;
    var y := Next(j, l, AtClient(true));
    assert y.writes == l.writes + [Command(j, n, 0)];
    assert y.clientSignals == Reports(j, n) + [DownloadCancelled];
    assert At(j, y, Cancelling);
  }

  lemma StepDamaged(j: Job, l: Leg, cancel: bool, n: nat)
    requires j.Counted() && At(j, l, Sending(n)) && !Intact(j.H, l.toClient[0])
    ensures Fine(j, l, AtClient(cancel))
  {
    hide ServerHandle, ServerExpects, ServerAck, ServerChunk;
    hide TotalChunks, FirstParts, PartBytes, PartMessage, Quot, PartOffset, WriteAt, Commands, Reports;
    var y := Next(j, l, AtClient(cancel));
    assert y.writes == l.writes && y.clientSignals == l.clientSignals;
    assert At(j, y, Answered(n, false));
  }

  lemma StepCorrupt(j: Job, l: Leg, s: Step, n: nat)
    requires j.Counted() && At(j, l, Sending(n)) && s.Corrupt? && Enabled(j, l, s)
    ensures Fine(j, l, s)
  {
    hide TotalChunks, FirstParts, PartBytes, PartMessage, Quot, Commands, Reports;
    var y := Next(j, l, s);
    assert y.toClient == [l.toClient[0].(bytes := s.bytes)];
    assert At(j, y, Sending(n));
  }

  lemma StepSending(j: Job, l: Leg, s: Step, n: nat)
    requires j.Counted() && At(j, l, Sending(n)) && Enabled(j, l, s)
    ensures Fine(j, l, s)
  {
    if s.Corrupt? {
      StepCorrupt(j, l, s, n);
    } else if !Intact(j.H, l.toClient[0]) {
      StepDamaged(j, l, s.cancel, n);
    } else if s.cancel && !(n == j.Total() && Notices(j)) {
      StepCancel(j, l, n);
    } else {
      StepIntact(j, l, s.cancel, n);
    }
  }

  lemma StepResend(j: Job, l: Leg, n: nat)
    requires j.Counted() && At(j, l, Answered(n, false))
    ensures Fine(j, l, AtServer)
  {
    hide ClientHandle, ClientExpects, ClientAck, ClientChunk;
    SentCarries(j, n);
    hide TotalChunks, FirstParts, PartBytes, PartMessage, Quot, PartOffset, WriteAt, Commands, Reports;
    var y := Next(j, l, AtServer);
    assert y.writes == l.writes && y.serverSignals == l.serverSignals;
    assert At(j, y, Sending(n));
  }

  lemma StepFinal(j: Job, l: Leg, n: nat)
    requires j.Counted() && At(j, l, Answered(n, true)) && n == j.Total()
    ensures Fine(j, l, AtServer)
  {
    hide ClientHandle, ClientExpects, ClientAck, ClientChunk;
    CountedTiles(j);
    LastSignal(j, n);
    hide TotalChunks, FirstParts, PartBytes, PartMessage, Quot, PartOffset, WriteAt, Commands, ReportsAfter;
    var y := Next(j, l, AtServer);
    assert y.writes == l.writes && y.serverSignals == [DownloadCompleted];
    assert At(j, y, Done);
  }

  lemma LastSignal(j: Job, n: nat)
    requires j.chunk > 0 && n > 0
    ensures ReportsAfter(j, n) != [] && ReportsAfter(j, n)[|ReportsAfter(j, n)| - 1] != DownloadCancelled
  {
  }

  lemma StepNext(j: Job, l: Leg, n: nat)
    requires j.Counted() && At(j, l, Answered(n, true)) && n < j.Total()
    ensures Fine(j, l, AtServer)
  {
    hide ClientHandle, ClientExpects, ClientAck, ClientChunk;
    CountedTiles(j);
    NextExact(n);
    SentCarries(j, n + 1);
    hide TotalChunks, FirstParts, PartBytes, PartMessage, Quot, PartOffset, WriteAt, Commands, Reports, NextPart;
    var y := Next(j, l, AtServer);
    assert y.writes == l.writes && y.serverSignals == l.serverSignals;
    assert At(j, y, Sending(n + 1));
  }

  lemma StepCancelling(j: Job, l: Leg, s: Step)
    requires j.Counted() && At(j, l, Cancelling) && Enabled(j, l, s)
    ensures Fine(j, l, s)
  {
    hide ClientHandle, ClientExpects, ClientAck, ClientChunk;
    hide TotalChunks, FirstParts, Quot;
    assert s.AtServer?;
    var y := Next(j, l, s);
    assert y.writes == l.writes && y.clientSignals == l.clientSignals && y.serverSignals == [DownloadCancelled];
    assert At(j, y, Cancelled);
  }

  /** No handler assertion fails, the invariant stays, the end comes nearer. */
  lemma DownloadStep(j: Job, l: Leg, s: Step)
    requires j.Counted() && Inv(j, l) && Enabled(j, l, s)
    ensures Fine(j, l, s)
  {
    hide Fine;
    match PhaseOf(l) {
      case Requested => StepRequested(j, l, s);
      case Sized => StepSized(j, l, s);
      case Sending(n) => StepSending(j, l, s, n);
      case Answered(n, ok) =>
        if !ok {
          StepResend(j, l, n);
        } else if n == j.Total() {
          StepFinal(j, l, n);
        } else {
          StepNext(j, l, n);
        }
      case Cancelling => StepCancelling(j, l, s);
      case Done => assert false;
      case Cancelled => assert false;
    }
  }

  // ----- whole runs -----

  ghost predicate Start(j: Job, l: Leg)
    requires j.chunk > 0
  {
    At(j, l, Requested)
  }

  lemma {:induction false} RunInv(j: Job, run: seq<Leg>, steps: seq<Step>, i: nat)
    requires j.Counted() && IsRun(j, run, steps) && Start(j, run[0]) && i <= |steps|
    ensures Inv(j, run[i]) && Left(j, run[i]) + i <= 2 * j.Total() + 2 + 3 * run[0].budget
  {
    hide Next, Enabled, Expected, Inv, Left, TotalChunks, Quot;
    if i == 0 {
      RequestedLeft(j, run[0]);
    } else {
      RunInv(j, run, steps, i - 1);
      RunStep(j, run, steps, i - 1);
      DownloadStep(j, run[i - 1], steps[i - 1]);
    }
  }

  lemma RequestedLeft(j: Job, l: Leg)
    requires j.chunk > 0 && At(j, l, Requested)
    ensures Inv(j, l) && Left(j, l) == 2 * j.Total() + 2 + 3 * l.budget
  {
  }

  lemma LeftNonNegative(j: Job, l: Leg)
    requires j.chunk > 0 && Inv(j, l)
    ensures Left(j, l) >= 0
  {
  }

  /** No assertion of either side fails, whatever comes next. */
  lemma DownloadNeverFails(j: Job, run: seq<Leg>, steps: seq<Step>, i: nat, s: Step)
    requires j.Counted() && IsRun(j, run, steps) && Start(j, run[0]) && i <= |steps| && Enabled(j, run[i], s)
    ensures Expected(run[i], s)
  {
    hide At;
    RunInv(j, run, steps, i);
    DownloadStep(j, run[i], s);
  }

  /** At every moment the client has written exactly the first parts, each once and in order;
      what either side calls complete are all counted parts, the whole file if and only if no count overflows. */
  lemma DownloadExact(j: Job, run: seq<Leg>, steps: seq<Step>, i: nat)
    requires j.Counted() && IsRun(j, run, steps) && Start(j, run[0]) && i <= |steps|
    ensures run[i].writes == Commands(j, |run[i].writes|, false) && |run[i].writes| <= j.Total()
    ensures run[i].received == FirstParts(j.file, |run[i].writes|, j.chunk)
    ensures DownloadCompleted in run[i].clientSignals ==>
      run[i].received == j.Delivered() && |run[i].writes| == j.Total() && run[i].client == NO_TRANSFER
    ensures DownloadCompleted in run[i].serverSignals ==>
      run[i].received == j.Delivered() && |run[i].writes| == j.Total() && run[i].server == NO_TRANSFER
      && Stopped(run[i])
    ensures j.Delivered() == j.file <==> j.Sound()
  {
    RunInv(j, run, steps, i);
    CountedTiles(j);
    DeliveredWhole(j);
    hide IsRun, TotalChunks, FirstParts, PartBytes, Quot, NextPart;
    PartsLength(j, run[i]);
  }

  lemma PartsLength(j: Job, l: Leg)
    requires j.Counted() && Inv(j, l)
    ensures l.writes == Commands(j, |l.writes|, false)
  {
    hide TotalChunks, FirstParts, PartBytes, Quot, NextPart;
  }

  /** What the two sides signal: the client reports each part it has written, once and in order, and completion
      in place of the last report, or a cancel after the report it came at; the server the end alone. */
  lemma DownloadSignals(j: Job, run: seq<Leg>, steps: seq<Step>, i: nat, k: nat)
    requires j.Counted() && IsRun(j, run, steps) && Start(j, run[0]) && i <= |steps|
    ensures var l := run[i];
      && (k < |l.clientSignals| ==>
           || (l.clientSignals[k] == DownloadProgress(k + 1, j.Total()) && k < |l.writes|)
           || (l.clientSignals[k..] == [DownloadCompleted] && k + 1 == |l.writes| == j.Total())
           || (l.clientSignals[k..] == [DownloadCancelled] && k == |l.writes|))
      && l.serverSignals in {[], [DownloadCompleted], [DownloadCancelled]}
      && (l.serverSignals == [DownloadCompleted] ==> |l.writes| == j.Total())
      && (l.serverSignals == [DownloadCancelled] ==> DownloadCancelled in l.clientSignals)
  {
    RunInv(j, run, steps, i);
    SignalsTold(j, run[i], k);
  }

  lemma SignalsTold(j: Job, l: Leg, k: nat)
    requires j.Counted() && Inv(j, l)
    ensures k < |l.clientSignals| ==>
      || (l.clientSignals[k] == DownloadProgress(k + 1, j.Total()) && k < |l.writes|)
      || (l.clientSignals[k..] == [DownloadCompleted] && k + 1 == |l.writes| == j.Total())
      || (l.clientSignals[k..] == [DownloadCancelled] && k == |l.writes|)
    ensures l.serverSignals in {[], [DownloadCompleted], [DownloadCancelled]}
    ensures l.serverSignals == [DownloadCompleted] ==> |l.writes| == j.Total()
    ensures l.serverSignals == [DownloadCancelled] ==> DownloadCancelled in l.clientSignals
  {
    hide TotalChunks, FirstParts, PartBytes, Quot, NextPart;
  }

  /** Every run is short: two deliveries a part and two more, and at most three steps for each
      corruption. */
  lemma DownloadEnds(j: Job, run: seq<Leg>, steps: seq<Step>)
    requires j.Counted() && IsRun(j, run, steps) && Start(j, run[0])
    ensures |steps| <= 2 * j.Total() + 2 + 3 * run[0].budget
  {
    RunInv(j, run, steps, |steps|);
    LeftNonNegative(j, run[|steps|]);
  }

  lemma {:induction false} NotCancelled(j: Job, run: seq<Leg>, steps: seq<Step>, i: nat)
    requires j.chunk > 0 && IsRun(j, run, steps) && i <= |steps| && run[0].clientSignals == []
    requires forall k :: 0 <= k < |steps| ==> steps[k] != AtClient(true)
    ensures DownloadCancelled !in run[i].clientSignals
  {
    if i > 0 {
      NotCancelled(j, run, steps, i - 1);
      RunStep(j, run, steps, i - 1);
      hide IsRun, PartMessage, Written;
    }
  }

  /** When nothing is under way any more and nobody cancelled, the client has written all counted parts, which
      are the whole file if and only if no count overflows, and the server has closed the transfer; the client
      has closed it too exactly when the number of the part after the last one does not overflow. */
  lemma DownloadOutcome(j: Job, run: seq<Leg>, steps: seq<Step>)
    requires j.Counted() && IsRun(j, run, steps) && Start(j, run[0]) && Stopped(run[|steps|])
    requires forall k :: 0 <= k < |steps| ==> steps[k] != AtClient(true)
    ensures var l := run[|steps|];
      && l.received == j.Delivered() && (l.received == j.file <==> j.Sound())
      && l.server == NO_TRANSFER && l.serverSignals == [DownloadCompleted]
      && (DownloadCompleted in l.clientSignals && l.client == NO_TRANSFER <==> j.Total() < U32 - 1)
  {
    RunInv(j, run, steps, |steps|);
    CountedTiles(j);
    DeliveredWhole(j);
    NotCancelled(j, run, steps, |steps|);
    hide IsRun, TotalChunks, FirstParts, PartBytes, Quot, NextPart;
  }

  /** A cancel at a progress signal leaves nothing behind on either side, and no message. */
  lemma DownloadCancelClean(j: Job, run: seq<Leg>, steps: seq<Step>)
    requires j.Counted() && IsRun(j, run, steps) && Start(j, run[0])
    requires DownloadCancelled in run[|steps|].clientSignals
    ensures var l := run[|steps|];
      && l.client == NO_TRANSFER && l.toClient == [] && DownloadCompleted !in l.clientSignals
        && DownloadCompleted !in l.serverSignals
      && (l.toServer == [CancelTransfer(j.path)]
        || (l.toServer == [] && l.server == NO_TRANSFER && l.serverSignals == [DownloadCancelled]))
  {
    RunInv(j, run, steps, |steps|);
    hide IsRun, TotalChunks, FirstParts, PartBytes, Quot, NextPart, Commands;
  }

  // ----- cancelling elsewhere -----

  /** The client forgets the download and tells the server, outside any progress signal. */
  function CancelledNow(j: Job, l: Leg): Leg {
    l.(client := l.client.(down := None), toServer := l.toServer + [CancelTransfer(j.path)],
       clientSignals := l.clientSignals + [DownloadCancelled])
  }

  /** Between two deliveries no moment is safe for cancelling a download: what is on its way to the client,
      or what the server sends next, finds no state there; and where the server sends nothing any more, the
      cancel finds none at the server. */
  lemma CancelElsewhereTrips(j: Job, l: Leg, cancel: bool)
    requires j.Counted() && Inv(j, l) && l.client.down.Some?
    ensures var c := CancelledNow(j, l);
      if l.toClient != [] then !Expected(c, AtClient(cancel))
      else if l.toServer == [] then Enabled(j, c, AtServer) && !Expected(c, AtServer)
      else Enabled(j, c, AtServer) && Expected(c, AtServer) && TripsNext(j, Next(j, c, AtServer), cancel)
  {
    CountedTiles(j);
    hide TotalChunks, FirstParts, PartBytes, PartMessage, Quot, PartOffset, WriteAt, Written, Commands;
    hide Reports, NextPart;
  }

  predicate TripsNext(j: Job, d: Leg, cancel: bool) {
    if d.toClient != [] then !Expected(d, AtClient(cancel)) else Enabled(j, d, AtServer) && !Expected(d, AtServer)
  }

  // ----- no part to count -----

  predicate Endless(e: Option<Progress>) {
    e.Some? && e.value.totalParts == 0
  }

  /** Some message is always on its way, and neither side knows of a last part. */
  ghost predicate Looping(l: Leg) {
    && l.client.up == None && l.server.up == None && Endless(l.client.down)
    && DownloadCompleted !in l.clientSignals && DownloadCompleted !in l.serverSignals
    && (|| (|l.toServer| == 1 && l.toServer[0].RequestDownload? && l.toClient == [])
        || (Endless(l.server.down) && l.toServer == [] && |l.toClient| == 2
            && l.toClient[0].SpecifyDownload? && l.toClient[0].totalChunks == 0 && l.toClient[1].ChunkTransfer?)
        || (Endless(l.server.down) && l.toServer == [] && |l.toClient| == 1 && l.toClient[0].ChunkTransfer?)
        || (Endless(l.server.down) && |l.toServer| == 1 && l.toServer[0].Ack? && l.toClient == []))
  }

  lemma LoopOn(j: Job, l: Leg, s: Step)
    requires j.chunk > 0 && j.Total() == 0 && Looping(l) && Enabled(j, l, s) && s != AtClient(true)
    ensures Expected(l, s) && Looping(Next(j, l, s))
  {
    hide TotalChunks, Slice, PartOffset, NextPart, Written;
  }

  /** A download whose count of parts, cut to 32 bits, is zero never ends, the download of an empty file among
      them: unless somebody cancels, there is always one more message and completion is never signalled. */
  lemma {:induction false} UncountedNeverEnds(j: Job, run: seq<Leg>, steps: seq<Step>, i: nat)
    requires 0 < j.chunk && j.Total() == 0 && IsRun(j, run, steps) && Start(j, run[0]) && i <= |steps|
    requires forall k :: 0 <= k < |steps| ==> steps[k] != AtClient(true)
    ensures Looping(run[i]) && !Stopped(run[i])
    ensures DownloadCompleted !in run[i].clientSignals && DownloadCompleted !in run[i].serverSignals
  {
    if i > 0 {
      UncountedNeverEnds(j, run, steps, i - 1);
      RunStep(j, run, steps, i - 1);
      LoopOn(j, run[i - 1], steps[i - 1]);
    }
    hide IsRun, TotalChunks, Quot, Next, Enabled, Expected;
  }
}
