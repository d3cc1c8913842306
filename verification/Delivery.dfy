/** From the write commands of a transfer to the storage: a finished session shows exactly what the transfer
    delivered, on either backend, whatever other sessions run in between. */
module Delivery {
  import opened Common
  import opened Assembly
  import opened Storage
  import opened ChunkMath
  import opened Chunking
  import opened Transfer
  import UploadRun
  import DownloadRun

  /** The calls a sequence of write commands turns into. */
  function Ranges(key: string, writes: seq<Write>): seq<Call> {
    seq(|writes|, i requires 0 <= i < |writes| =>
      Call.WriteRange(key, writes[i].part, writes[i].offset, writes[i].bytes))
  }

  /** The calls of one session: begun, some commands carried out. */
  function Session(key: string, writes: seq<Write>): seq<Call> {
    [Call.BeginWrite(key)] + Ranges(key, writes)
  }

  /** The calls about one key, in order. */
  function Own(calls: seq<Call>, key: string): seq<Call> {
    if calls == [] then []
    else
      var c := calls[|calls| - 1];
      Own(calls[..|calls| - 1], key) + if c.key == key then [c] else []
  }

  /** The parts as the second backend keeps them. */
  function Arrived(writes: seq<Write>): seq<Part> {
    seq(|writes|, i requires 0 <= i < |writes| => Part(writes[i].part, writes[i].bytes))
  }

  /** Both backends have made the same calls, each of which their assertions allowed. */
  ghost predicate Stepped(ls: seq<LocalState>, ss: seq<S3State>, calls: seq<Call>) {
    && |ls| == |ss| == |calls| + 1
    && forall i :: 0 <= i < |calls| ==>
         && Allowed(ls[i].sessions.Keys, calls[i]) && Allowed(ss[i].uploads.Keys, calls[i])
         && ls[i + 1] == LocalStep(ls[i], calls[i]) && ss[i + 1] == S3Step(ss[i], calls[i])
  }

  lemma SteppedLast(ls: seq<LocalState>, ss: seq<S3State>, calls: seq<Call>)
    requires Stepped(ls, ss, calls) && calls != []
    ensures var n := |calls| - 1;
      && Stepped(ls[..n + 1], ss[..n + 1], calls[..n])
      && Allowed(ls[n].sessions.Keys, calls[n]) && Allowed(ss[n].uploads.Keys, calls[n])
      && ls[n + 1] == LocalStep(ls[n], calls[n]) && ss[n + 1] == S3Step(ss[n], calls[n])
  {
    hide LocalStep, S3Step, Allowed;
  }

  /** A call about another key leaves this key's file and session alone. */
  lemma OtherCall(l: LocalState, s: S3State, c: Call, key: string)
    requires Allowed(l.sessions.Keys, c) && Allowed(s.uploads.Keys, c) && c.key != key
    ensures var l', s' := LocalStep(l, c), S3Step(s, c);
      && (key in l'.files <==> key in l.files) && (key in l.files ==> l'.files[key] == l.files[key])
      && (key in l'.sessions <==> key in l.sessions) && (key in l.sessions ==> l'.sessions[key] == l.sessions[key])
      && (key in s'.objects <==> key in s.objects) && (key in s.objects ==> s'.objects[key] == s.objects[key])
      && (key in s'.uploads <==> key in s.uploads) && (key in s.uploads ==> s'.uploads[key] == s.uploads[key])
  {
  }

  lemma SessionNext(key: string, writes: seq<Write>, w: Write)
    ensures Session(key, writes + [w]) ==
      Session(key, writes) + [Call.WriteRange(key, w.part, w.offset, w.bytes)]
    ensures Arrived(writes + [w]) == Arrived(writes) + [Part(w.part, w.bytes)]
    ensures Written([], writes + [w]) == WriteAt(Written([], writes), w.offset, w.bytes)
  {
    assert Ranges(key, writes + [w]) == Ranges(key, writes) + [Call.WriteRange(key, w.part, w.offset, w.bytes)];
    assert (writes + [w])[..|writes + [w]| - 1] == writes;
  }

  /** An open session holds what its commands left, on each backend in its own way. */
  ghost predicate Open(l: LocalState, s: S3State, key: string, writes: seq<Write>) {
    && key in l.sessions && l.sessions[key] == Written([], writes)
    && key in s.uploads && s.uploads[key] == Arrived(writes)
  }

  lemma {:induction false} SessionHolds(
      ls: seq<LocalState>, ss: seq<S3State>, calls: seq<Call>, key: string, writes: seq<Write>)
    requires Stepped(ls, ss, calls) && Own(calls, key) == Session(key, writes)
    ensures Open(ls[|calls|], ss[|calls|], key, writes)
    decreases |calls|
  {
    var n := |calls| - 1;
    var c := calls[n];
    SteppedLast(ls, ss, calls);
    hide Stepped, Allowed, WriteAt;
    if c.key != key {
      SessionHolds(ls[..n + 1], ss[..n + 1], calls[..n], key, writes);
      OtherCall(ls[n], ss[n], c, key);
    } else if writes == [] {
      assert Session(key, writes) == [Call.BeginWrite(key)];
      assert c == Own(calls, key)[|Own(calls, key)| - 1];
    } else {
      var m := |writes| - 1;
      assert writes == writes[..m] + [writes[m]];
      SessionNext(key, writes[..m], writes[m]);
      assert c == Own(calls, key)[|Own(calls, key)| - 1];
      assert Own(calls[..n], key) == Session(key, writes[..m]) by {
        assert Own(calls, key)[..|Own(calls, key)| - 1] == Own(calls[..n], key);
      }
      SessionHolds(ls[..n + 1], ss[..n + 1], calls[..n], key, writes[..m]);
    }
  }

  /** A finished session's file is what its commands left. */
  ghost predicate Shown(l: LocalState, s: S3State, key: string, writes: seq<Write>) {
    && key in l.files && l.files[key] == Written([], writes) && key !in l.sessions
    && key in s.objects && s.objects[key] == Contents(SortedParts(Arrived(writes))) && key !in s.uploads
  }

  lemma {:induction false} SessionShown(
      ls: seq<LocalState>, ss: seq<S3State>, calls: seq<Call>, key: string, writes: seq<Write>)
    requires Stepped(ls, ss, calls) && Own(calls, key) == Session(key, writes) + [Call.FinishWrite(key)]
    ensures Shown(ls[|calls|], ss[|calls|], key, writes)
    decreases |calls|
  {
    var n := |calls| - 1;
    var c := calls[n];
    SteppedLast(ls, ss, calls);
    hide Stepped, Allowed;
    if c.key != key {
      SessionShown(ls[..n + 1], ss[..n + 1], calls[..n], key, writes);
      OtherCall(ls[n], ss[n], c, key);
    } else {
      assert c == Own(calls, key)[|Own(calls, key)| - 1] == Call.FinishWrite(key);
      assert Own(calls[..n], key) == Session(key, writes) by {
        assert Own(calls, key)[..|Own(calls, key)| - 1] == Own(calls[..n], key);
      }
      SessionHolds(ls[..n + 1], ss[..n + 1], calls[..n], key, writes);
    }
  }

  // ----- uploads -----

  /** What the commands of a transfer leave are its first parts. */
  lemma {:induction false} CommandsWritten(j: Job, n: nat, numbered: bool)
    requires j.Counted() && n <= j.Total()
    ensures Written([], Commands(j, n, numbered)) == FirstParts(j.file, n, j.chunk)
  {
    if n == 0 {
      NothingWritten(j);
    } else {
      CommandsWritten(j, n - 1, numbered);
      CommandsNext(j, n - 1, numbered);
      var ws, w := Commands(j, n - 1, numbered), Command(j, n, if numbered then n else 0);
      SessionNext("", ws, w);
      OffsetExact(|j.file|, j.chunk, n);
      WriteExtends(j, n, Written([], ws));
    }
  }

  lemma NothingWritten(j: Job)
    requires j.chunk > 0
    ensures FirstParts(j.file, 0, j.chunk) == [] == Written([], [])
  {
  }

  lemma CommandPart(j: Job, i: nat)
    requires j.Counted() && i < j.Total()
    ensures |Commands(j, j.Total(), true)| == j.Total()
    ensures Arrived(Commands(j, j.Total(), true))[i] == Part(i + 1, PartBytes(j.file, i + 1, j.chunk))
    ensures i + 1 < j.Total() ==> |PartBytes(j.file, i + 1, j.chunk)| == j.chunk
  {
    hide TotalChunks, Quot, Tiles, PartBytes, FirstParts, Commands, Arrived;
    CountedTiles(j);
    PartFollows(j.file, j.chunk, j.Needed(), i + 1);
    ArrivedAt(j, j.Total(), i);
  }

  lemma ArrivedAt(j: Job, n: nat, i: nat)
    requires j.chunk > 0 && i < n
    ensures |Commands(j, n, true)| == n && |Arrived(Commands(j, n, true))| == n
    ensures Arrived(Commands(j, n, true))[i] == Part(i + 1, PartBytes(j.file, i + 1, j.chunk))
  {
    hide PartBytes;
    var ws := Commands(j, n, true);
    assert ws[i] == Command(j, i + 1, i + 1);
    hide Commands;
    assert Arrived(ws)[i] == Part(ws[i].part, ws[i].bytes);
  }

  /** All parts of a finished upload are there: numbered from 1 on, each once, all but the last of full size. */
  lemma CommandsComplete(j: Job)
    requires j.Counted()
    ensures Complete(Arrived(Commands(j, j.Total(), true)), j.chunk)
  {
    hide TotalChunks, PartBytes, Commands, Arrived;
    var parts := Arrived(Commands(j, j.Total(), true));
    CommandPart(j, 0);
    assert |parts| == j.Total() by { ArrivedCount(Commands(j, j.Total(), true)); }
    forall i | 0 <= i < |parts|
      ensures parts[i].number == i + 1 && (i + 1 < |parts| ==> |parts[i].bytes| == j.chunk)
    {
      CommandPart(j, i);
    }
  }

  lemma ArrivedCount(writes: seq<Write>)
    ensures |Arrived(writes)| == |writes|
  {
  }

  /** The calls an upload has made so far, or will have made: the session begun, the first commands, and after
      the last of them the session finished, or after any of them aborted. */
  ghost predicate Uploading(own: seq<Call>, key: string, j: Job)
    requires j.chunk > 0
  {
    || own == []
    || (exists n: nat :: n <= j.Total() && own == Session(key, Commands(j, n, true)))
    || (exists n: nat :: n <= j.Total() && own == Session(key, Commands(j, n, true)) + [Call.AbortWrite(key)])
    || own == Session(key, Commands(j, j.Total(), true)) + [Call.FinishWrite(key)]
  }

  /** Whatever an upload calls next is what the backends' agreement asks for: the session is open, the part is
      numbered and goes to the offset of its number, and at the end all parts have come. */
  lemma UploadFits(
      ls: seq<LocalState>, ss: seq<S3State>, calls: seq<Call>, c: Call, key: string, j: Job)
    requires j.Counted() && Stepped(ls, ss, calls) && c.key == key
    requires key !in ls[0].sessions && key !in ss[0].uploads
    requires Uploading(Own(calls + [c], key), key, j)
    ensures Allowed(ls[|calls|].sessions.Keys, c) && Transfers(ss[|calls|], j.chunk, c)
  {
    hide Stepped, Commands, TotalChunks, PartBytes, Arrived, Written;
    var own := Own(calls, key);
    assert (calls + [c])[..|calls + [c]| - 1] == calls;
    assert Own(calls + [c], key) == own + [c];
    if own + [c] == Session(key, Commands(j, j.Total(), true)) + [Call.FinishWrite(key)] {
      assert own == (own + [c])[..|own + [c]| - 1] == Session(key, Commands(j, j.Total(), true));
      assert c == (own + [c])[|own|] == Call.FinishWrite(key);
      SessionHolds(ls, ss, calls, key, Commands(j, j.Total(), true));
      CommandsComplete(j);
    } else if n: nat :|
        n <= j.Total() && own + [c] == Session(key, Commands(j, n, true)) + [Call.AbortWrite(key)] {
      assert own == (own + [c])[..|own + [c]| - 1] == Session(key, Commands(j, n, true));
      assert c == (own + [c])[|own|] == Call.AbortWrite(key);
      SessionHolds(ls, ss, calls, key, Commands(j, n, true));
    } else {
      var n: nat :| n <= j.Total() && own + [c] == Session(key, Commands(j, n, true));
      UploadRangeFits(ls, ss, calls, c, key, j, n);
    }
  }

  lemma UploadRangeFits(
      ls: seq<LocalState>, ss: seq<S3State>, calls: seq<Call>, c: Call, key: string, j: Job, n: nat)
    requires j.Counted() && Stepped(ls, ss, calls) && c.key == key && n <= j.Total()
    requires key !in ls[0].sessions && key !in ss[0].uploads
    requires Own(calls, key) + [c] == Session(key, Commands(j, n, true))
    ensures Allowed(ls[|calls|].sessions.Keys, c) && Transfers(ss[|calls|], j.chunk, c)
  {
    var own := Own(calls, key);
    hide TotalChunks, PartBytes;
    if n == 0 {
      assert Commands(j, 0, true) == [];
      assert c == (own + [c])[|own|] && own == (own + [c])[..|own|];
      assert own == [] && c == Call.BeginWrite(key);
      NotBegun(ls, ss, calls, key);
    } else {
      var ws, w := Commands(j, n - 1, true), Command(j, n, n);
      CommandsNext(j, n - 1, true);
      SessionNext(key, ws, w);
      var last := Call.WriteRange(key, w.part, w.offset, w.bytes);
      assert own + [c] == Session(key, ws) + [last];
      assert c == (own + [c])[|own|] == last && own == (own + [c])[..|own|] == Session(key, ws);
      SessionHolds(ls, ss, calls, key, ws);
    }
  }

  lemma {:induction false} NotBegun(ls: seq<LocalState>, ss: seq<S3State>, calls: seq<Call>, key: string)
    requires Stepped(ls, ss, calls) && Own(calls, key) == []
    requires key !in ls[0].sessions && key !in ss[0].uploads
    ensures key !in ls[|calls|].sessions && key !in ss[|calls|].uploads
    decreases |calls|
  {
    if calls != [] {
      var n := |calls| - 1;
      SteppedLast(ls, ss, calls);
      hide Stepped, Allowed;
      NotBegun(ls[..n + 1], ss[..n + 1], calls[..n], key);
      OtherCall(ls[n], ss[n], calls[n], key);
    }
  }

  /** A completed upload: every write command the server gave is that of its part, and once the session is
      finished both backends show the delivered file, which is the client's file if and only if no count
      overflows. */
  lemma UploadStored(
      j: Job, run: seq<Leg>, steps: seq<Step>, ls: seq<LocalState>, ss: seq<S3State>, calls: seq<Call>, key: string)
    requires j.Counted() && IsRun(j, run, steps) && UploadRun.Start(j, run[0])
    requires UploadCompleted in run[|steps|].serverSignals
    requires Stepped(ls, ss, calls)
    requires Own(calls, key) == Session(key, run[|steps|].writes) + [Call.FinishWrite(key)]
    ensures run[|steps|].writes == Commands(j, j.Total(), true)
    ensures var l, s := ls[|calls|], ss[|calls|];
      && key in l.files && key in s.objects && l.files[key] == s.objects[key] == j.Delivered()
      && (l.files[key] == j.file <==> j.Sound())
  {
    var writes := run[|steps|].writes;
    UploadRun.UploadExact(j, run, steps, |steps|);
    DeliveredWhole(j);
    SessionShown(ls, ss, calls, key, writes);
    CommandsWritten(j, j.Total(), true);
    CommandsComplete(j);
    hide IsRun, Stepped;
    AssembliesAgree(Arrived(writes), j.chunk);
    AssembledWritten(j, j.Total());
  }

  /** Arriving one after the other at the offsets of their numbers the parts are assembled as they are
      written. */
  lemma {:induction false} AssembledWritten(j: Job, n: nat)
    requires j.Counted() && n <= j.Total()
    ensures forall x :: x in Arrived(Commands(j, n, true)) ==> x.number > 0
    ensures Assembled(Arrived(Commands(j, n, true)), j.chunk) == Written([], Commands(j, n, true))
  {
    if n > 0 {
      AssembledWritten(j, n - 1);
      CommandsNext(j, n - 1, true);
      var ws, w := Commands(j, n - 1, true), Command(j, n, n);
      SessionNext("", ws, w);
      var a := Arrived(ws) + [Part(w.part, w.bytes)];
      assert a[..|a| - 1] == Arrived(ws);
    }
  }

  // ----- downloads -----

  /** A completed download: once the client's session is finished its directory shows the delivered file. */
  lemma DownloadStored(
      j: Job, run: seq<Leg>, steps: seq<Step>, ls: seq<LocalState>, ss: seq<S3State>, calls: seq<Call>, key: string)
    requires j.Counted() && IsRun(j, run, steps) && DownloadRun.Start(j, run[0])
    requires DownloadCompleted in run[|steps|].clientSignals
    requires Stepped(ls, ss, calls)
    requires Own(calls, key) == Session(key, run[|steps|].writes) + [Call.FinishWrite(key)]
    ensures run[|steps|].writes == Commands(j, j.Total(), false)
    ensures var l := ls[|calls|];
      key in l.files && l.files[key] == j.Delivered() && (l.files[key] == j.file <==> j.Sound())
  {
    DownloadRun.DownloadExact(j, run, steps, |steps|);
    DeliveredWhole(j);
    SessionShown(ls, ss, calls, key, run[|steps|].writes);
    CommandsWritten(j, j.Total(), false);
  }
}
