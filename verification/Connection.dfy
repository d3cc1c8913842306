/** Many transfers over one connection: both channels are shared by all paths, yet every path's
    transfer runs as if it were alone. */
module Connection {
  import opened Common
  import opened Assembly
  import opened Storage
  import opened ChunkMath
  import opened Chunking
  import opened Transfer
  import UploadRun
  import DownloadRun

  datatype Task = Task(upload: bool, job: Job, budget: nat)

  /** What both sides know about each path, the receivers' sessions, the signals raised, and the
      two channels. */
  datatype Net = Net(
    client: string -> End, server: string -> End, received: string -> Bytes, writes: string -> seq<Write>,
    clientSignals: string -> seq<Signal>, serverSignals: string -> seq<Signal>,
    task: string -> Option<Task>, toServer: seq<Message>, toClient: seq<Message>)

  datatype Event =
    | Begin(task: Task)
    | ServerReceives
    | ClientReceives(cancel: bool)
    | Damaged(upward: bool, index: nat, bytes: Bytes)

  /** The messages of one path, in order. */
  function Of(wire: seq<Message>, p: string): seq<Message> {
    if wire == [] then []
    else Of(wire[..|wire| - 1], p) + if wire[|wire| - 1].path == p then [wire[|wire| - 1]] else []
  }

  function LegOf(n: Net, p: string): Leg {
    Leg(n.client(p), n.server(p), Of(n.toServer, p), Of(n.toClient, p), n.received(p), n.writes(p),
        n.clientSignals(p), n.serverSignals(p), if n.task(p).Some? then n.task(p).value.budget else 0)
  }

  /** Nothing of p changes but what is on the channels. */
  ghost predicate Kept(n: Net, m: Net, p: string) {
    && m.client(p) == n.client(p) && m.server(p) == n.server(p) && m.received(p) == n.received(p)
      && m.writes(p) == n.writes(p)
    && m.clientSignals(p) == n.clientSignals(p) && m.serverSignals(p) == n.serverSignals(p) && m.task(p) == n.task(p)
  }

  /** No transfer of p is under way. */
  predicate AtRest(n: Net, p: string) {
    n.client(p) == NO_TRANSFER && n.server(p) == NO_TRANSFER && Of(n.toServer, p) == [] && Of(n.toClient, p) == []
  }

  function Request(t: Task): Message {
    if t.upload then RequestUpload(t.job.path, |t.job.file|) else RequestDownload(t.job.path, 0)
  }

  function Opened(t: Task): End {
    if t.upload then End(Some(Progress(1, 0, 0)), None) else End(None, Some(Progress(1, 0, 0)))
  }

  /** A transfer begins on a path that is at rest, with a fresh write session. */
  ghost predicate Begins(n: Net, m: Net, t: Task) {
    var p := t.job.path;
    && t.job.Counted() && AtRest(n, p)
    && m.client(p) == Opened(t) && m.server(p) == NO_TRANSFER && m.received(p) == [] && m.writes(p) == []
    && m.clientSignals(p) == [] && m.serverSignals(p) == [] && m.task(p) == Some(t)
    && m.toServer == n.toServer + [Request(t)] && m.toClient == n.toClient
    && forall q :: q != p ==> Kept(n, m, q)
  }

  ghost predicate ServerHandles(n: Net, m: Net)
    requires n.toServer != []
  {
    var msg := n.toServer[0];
    var p := msg.path;
    n.task(p).Some? && n.task(p).value.job.chunk > 0 && ServerExpects(n.server(p), msg) &&
    var j := n.task(p).value.job;
    var r := ServerHandle(j.H, j.file, j.chunk, n.server(p), msg);
    && m.client(p) == n.client(p) && m.server(p) == r.end
    && m.received(p) == Written(n.received(p), r.writes) && m.writes(p) == n.writes(p) + r.writes
    && m.clientSignals(p) == n.clientSignals(p) && m.serverSignals(p) == n.serverSignals(p) + r.signals
      && m.task(p) == n.task(p)
    && m.toServer == n.toServer[1..] && m.toClient == n.toClient + r.sent
    && forall q :: q != p ==> Kept(n, m, q)
  }

  ghost predicate ClientHandles(n: Net, m: Net, cancel: bool)
    requires n.toClient != []
  {
    var msg := n.toClient[0];
    var p := msg.path;
    n.task(p).Some? && ClientExpects(n.client(p), msg) &&
    var j := n.task(p).value.job;
    var r := ClientHandle(j.H, j.file, n.client(p), msg, cancel);
    && m.client(p) == r.end && m.server(p) == n.server(p)
    && m.received(p) == Written(n.received(p), r.writes) && m.writes(p) == n.writes(p) + r.writes
    && m.clientSignals(p) == n.clientSignals(p) + r.signals && m.serverSignals(p) == n.serverSignals(p)
      && m.task(p) == n.task(p)
    && m.toClient == n.toClient[1..] && m.toServer == n.toServer + r.sent
    && forall q :: q != p ==> Kept(n, m, q)
  }

  /** Detectable damage to a chunk on either channel, as long as the path's budget lasts. */
  ghost predicate Damages(n: Net, m: Net, upward: bool, i: nat, bytes: Bytes) {
    var wire := if upward then n.toServer else n.toClient;
    i < |wire| && wire[i].ChunkTransfer? &&
    var p := wire[i].path;
    n.task(p).Some? &&
    var t := n.task(p).value;
    && t.budget > 0 && t.job.H(bytes) != wire[i].hash
    && var hit := wire[i := wire[i].(bytes := bytes)];
    && m.toServer == (if upward then hit else n.toServer) && m.toClient == (if upward then n.toClient else hit)
    && m.client(p) == n.client(p) && m.server(p) == n.server(p) && m.received(p) == n.received(p)
      && m.writes(p) == n.writes(p)
    && m.clientSignals(p) == n.clientSignals(p) && m.serverSignals(p) == n.serverSignals(p)
    && m.task(p) == Some(t.(budget := t.budget - 1))
    && forall q :: q != p ==> Kept(n, m, q)
  }

  ghost predicate NetNext(n: Net, m: Net, e: Event) {
    match e
    case Begin(t) => Begins(n, m, t)
    case ServerReceives => n.toServer != [] && ServerHandles(n, m)
    case ClientReceives(cancel) => n.toClient != [] && ClientHandles(n, m, cancel)
    case Damaged(upward, i, bytes) => Damages(n, m, upward, i, bytes)
  }

  // ----- filtering -----

  lemma {:induction false} OfAppend(a: seq<Message>, b: seq<Message>, p: string)
    ensures Of(a + b, p) == Of(a, p) + Of(b, p)
  {
    if b == [] {
      assert a + b == a;
    } else {
      assert (a + b)[..|a + b| - 1] == a + b[..|b| - 1];
      OfAppend(a, b[..|b| - 1], p);
    }
  }

  lemma OfOne(m: Message, p: string)
    ensures Of([m], p) == if m.path == p then [m] else []
  {
    assert [m][..0] == [];
  }

  lemma OfHead(wire: seq<Message>, p: string)
    requires wire != []
    ensures Of(wire, p) == (if wire[0].path == p then [wire[0]] else []) + Of(wire[1..], p)
  {
    assert wire == [wire[0]] + wire[1..];
    OfAppend([wire[0]], wire[1..], p);
    OfOne(wire[0], p);
  }

  lemma {:induction false} OfUniform(s: seq<Message>, p: string, q: string)
    requires forall m :: m in s ==> m.path == p
    ensures Of(s, q) == if p == q then s else []
  {
    if s != [] {
      OfUniform(s[..|s| - 1], p, q);
      assert s == s[..|s| - 1] + [s[|s| - 1]];
      assert s[|s| - 1] in s;
    }
  }

  lemma OfAround(a: seq<Message>, m: Message, b: seq<Message>, q: string)
    ensures Of(a + [m] + b, q) == Of(a, q) + (if m.path == q then [m] else []) + Of(b, q)
  {
    OfAppend(a + [m], b, q);
    OfAppend(a, [m], q);
    OfOne(m, q);
  }

  /** Damage to one message of the wire is damage to one message of its path. */
  lemma OfUpdate(wire: seq<Message>, i: nat, m: Message, q: string)
    requires i < |wire| && m.path == wire[i].path
    ensures q != m.path ==> Of(wire[i := m], q) == Of(wire, q)
    ensures q == m.path ==>
      var k := |Of(wire[..i], q)|;
      k < |Of(wire, q)| && Of(wire, q)[k] == wire[i] && Of(wire[i := m], q) == Of(wire, q)[k := m]
  {
    hide Of;
    var a, b := wire[..i], wire[i + 1..];
    assert wire == a + [wire[i]] + b;
    assert wire[i := m] == a + [m] + b;
    OfAround(a, wire[i], b, q);
    OfAround(a, m, b, q);
  }

  lemma RepliesAboutPath(H: Digest, file: Bytes, chunk: nat, e: End, m: Message, cancel: bool)
    ensures chunk > 0 && ServerExpects(e, m) ==>
      forall x :: x in ServerHandle(H, file, chunk, e, m).sent ==> x.path == m.path
    ensures ClientExpects(e, m) ==> forall x :: x in ClientHandle(H, file, e, m, cancel).sent ==> x.path == m.path
  {
  }

  // ----- projection -----

  lemma KeptLeg(n: Net, m: Net, p: string)
    requires Kept(n, m, p) && Of(m.toServer, p) == Of(n.toServer, p) && Of(m.toClient, p) == Of(n.toClient, p)
    ensures LegOf(m, p) == LegOf(n, p)
  {
  }

  /** One message taken off a channel, replies about the same path put on the other. */
  lemma Delivered(wire: seq<Message>, other: seq<Message>, sent: seq<Message>, q: string)
    requires wire != [] && forall x :: x in sent ==> x.path == wire[0].path
    ensures q == wire[0].path ==> Of(wire, q) != [] && Of(wire, q)[0] == wire[0] && Of(wire[1..], q) == Of(wire, q)[1..]
    ensures q == wire[0].path ==> Of(other + sent, q) == Of(other, q) + sent
    ensures q != wire[0].path ==> Of(wire[1..], q) == Of(wire, q) && Of(other + sent, q) == Of(other, q)
  {
    OfHead(wire, q);
    OfAppend(other, sent, q);
    OfUniform(sent, wire[0].path, q);
  }

  lemma ServerProjects(n: Net, m: Net, q: string)
    requires n.toServer != [] && ServerHandles(n, m)
    ensures q != n.toServer[0].path ==> LegOf(m, q) == LegOf(n, q) && m.task(q) == n.task(q)
    ensures q == n.toServer[0].path ==>
      var j, l := n.task(q).value.job, LegOf(n, q);
      Enabled(j, l, AtServer) && Expected(l, AtServer) && LegOf(m, q) == Next(j, l, AtServer) && m.task(q) == n.task(q)
  {
    var msg := n.toServer[0];
    var p := msg.path;
    var j := n.task(p).value.job;
    RepliesAboutPath(j.H, j.file, j.chunk, n.server(p), msg, false);
    Delivered(n.toServer, n.toClient, ServerHandle(j.H, j.file, j.chunk, n.server(p), msg).sent, q);
    hide ServerHandle, Of, Written, ServerExpects;
    if q != p { KeptLeg(n, m, q); }
  }

  lemma ClientProjects(n: Net, m: Net, cancel: bool, q: string)
    requires n.toClient != [] && ClientHandles(n, m, cancel)
    ensures q != n.toClient[0].path ==> LegOf(m, q) == LegOf(n, q) && m.task(q) == n.task(q)
    ensures q == n.toClient[0].path && n.task(q).value.job.chunk > 0 ==>
      var j, l := n.task(q).value.job, LegOf(n, q);
      Enabled(j, l, AtClient(cancel)) && Expected(l, AtClient(cancel)) && LegOf(m, q) == Next(j, l, AtClient(cancel))
        && m.task(q) == n.task(q)
  {
    var msg := n.toClient[0];
    var p := msg.path;
    var j := n.task(p).value.job;
    RepliesAboutPath(j.H, j.file, 1, n.client(p), msg, cancel);
    Delivered(n.toClient, n.toServer, ClientHandle(j.H, j.file, n.client(p), msg, cancel).sent, q);
    hide ClientHandle, Of, Written, ClientExpects;
    if q != p { KeptLeg(n, m, q); }
  }

  lemma DamageProjects(n: Net, m: Net, upward: bool, i: nat, bytes: Bytes, q: string)
    requires Damages(n, m, upward, i, bytes)
    ensures var wire := if upward then n.toServer else n.toClient;
      if q != wire[i].path then LegOf(m, q) == LegOf(n, q) && m.task(q) == n.task(q)
      else n.task(q).value.job.chunk > 0 ==>
        var j, l, s := n.task(q).value.job, LegOf(n, q), Corrupt(upward, |Of(wire[..i], q)|, bytes);
        Enabled(j, l, s) && LegOf(m, q) == Next(j, l, s) && m.task(q).Some?
          && m.task(q).value == n.task(q).value.(budget := n.task(q).value.budget - 1)
  {
    var wire := if upward then n.toServer else n.toClient;
    OfUpdate(wire, i, wire[i].(bytes := bytes), q);
    hide Of;
    if q != wire[i].path { KeptLeg(n, m, q); }
  }

  lemma BeginProjects(n: Net, m: Net, t: Task, q: string)
    requires Begins(n, m, t)
    ensures q != t.job.path ==> LegOf(m, q) == LegOf(n, q) && m.task(q) == n.task(q)
    ensures q == t.job.path && t.upload ==> UploadRun.Start(t.job, LegOf(m, q))
    ensures q == t.job.path && !t.upload ==> DownloadRun.Start(t.job, LegOf(m, q))
  {
    OfAppend(n.toServer, [Request(t)], q);
    OfOne(Request(t), q);
    if q != t.job.path {
      KeptLeg(n, m, q);
    } else {
      AllPartsNone(t.job);
    }
  }

  lemma AllPartsNone(j: Job)
    ensures FirstParts(j.file, 0, j.chunk) == [] && forall u :: j.chunk > 0 ==> Commands(j, 0, u) == []
  {
  }

  // ----- the whole connection -----

  /** Every path is at rest or in the middle of exactly the transfer it was begun for. */
  ghost predicate Orderly(n: Net, p: string) {
    match n.task(p)
    case None => AtRest(n, p)
    case Some(t) =>
      && t.job.Counted() && t.job.path == p
      && if t.upload then UploadRun.Inv(t.job, LegOf(n, p)) else DownloadRun.Inv(t.job, LegOf(n, p))
  }

  lemma LegStep(j: Job, upload: bool, l: Leg, s: Step)
    requires j.Counted() && Enabled(j, l, s)
    requires if upload then UploadRun.Inv(j, l) else DownloadRun.Inv(j, l)
    ensures Expected(l, s)
    ensures if upload then UploadRun.Inv(j, Next(j, l, s)) else DownloadRun.Inv(j, Next(j, l, s))
  {
    hide UploadRun.Inv, DownloadRun.Inv, Next;
    if upload {
      UploadRun.UploadStep(j, l, s);
    } else {
      DownloadRun.DownloadStep(j, l, s);
    }
  }

  lemma OrderlyNext(n: Net, m: Net, e: Event, p: string)
    requires NetNext(n, m, e) && Orderly(n, p)
    ensures Orderly(m, p)
  {
    hide UploadRun.Inv, DownloadRun.Inv, Next, Expected, Enabled, Of;
    match e {
      case Begin(t) =>
        BeginProjects(n, m, t, p);
        StartInv(t.job, LegOf(m, p));
      case ServerReceives =>
        ServerProjects(n, m, p);
        if n.toServer[0].path == p {
          LegStep(n.task(p).value.job, n.task(p).value.upload, LegOf(n, p), AtServer);
        }
      case ClientReceives(cancel) =>
        ClientProjects(n, m, cancel, p);
        if n.toClient[0].path == p {
          LegStep(n.task(p).value.job, n.task(p).value.upload, LegOf(n, p), AtClient(cancel));
        }
      case Damaged(upward, i, bytes) =>
        DamageProjects(n, m, upward, i, bytes, p);
        var wire := if upward then n.toServer else n.toClient;
        if wire[i].path == p {
          LegStep(n.task(p).value.job, n.task(p).value.upload, LegOf(n, p), Corrupt(upward, |Of(wire[..i], p)|, bytes));
        }
    }
  }

  lemma StartInv(j: Job, l: Leg)
    requires j.chunk > 0
    ensures UploadRun.Start(j, l) ==> UploadRun.Inv(j, l)
    ensures DownloadRun.Start(j, l) ==> DownloadRun.Inv(j, l)
  {
  }

  ghost predicate IsRun(run: seq<Net>, events: seq<Event>) {
    && |run| == |events| + 1 && (forall p :: run[0].task(p) == None && AtRest(run[0], p))
    && forall i :: 0 <= i < |events| ==> NetNext(run[i], run[i + 1], events[i])
  }

  lemma {:induction false} RunOrderly(run: seq<Net>, events: seq<Event>, i: nat, p: string)
    requires IsRun(run, events) && i <= |events|
    ensures Orderly(run[i], p)
  {
    hide NetNext, LegOf;
    if i > 0 {
      RunOrderly(run, events, i - 1, p);
      assert NetNext(run[i - 1], run[i - 1 + 1], events[i - 1]);
      OrderlyNext(run[i - 1], run[i], events[i - 1], p);
    }
  }

  /** However many transfers share the connection, in whatever order they are begun, damaged,
      cancelled at progress signals and begun again: the next message on either channel always
      meets the state its handler asserts. */
  lemma ConnectionNeverFails(run: seq<Net>, events: seq<Event>, i: nat, cancel: bool)
    requires IsRun(run, events) && i <= |events|
    ensures run[i].toServer != [] ==>
      var m := run[i].toServer[0]; run[i].task(m.path).Some? && ServerExpects(run[i].server(m.path), m)
    ensures run[i].toClient != [] ==>
      var m := run[i].toClient[0]; run[i].task(m.path).Some? && ClientExpects(run[i].client(m.path), m)
  {
    hide NetNext, UploadRun.Inv, DownloadRun.Inv, Of, Next;
    var n := run[i];
    if n.toServer != [] {
      var p := n.toServer[0].path;
      RunOrderly(run, events, i, p);
      OfHead(n.toServer, p);
      var t := n.task(p).value;
      LegStep(t.job, t.upload, LegOf(n, p), AtServer);
    }
    if n.toClient != [] {
      var p := n.toClient[0].path;
      RunOrderly(run, events, i, p);
      OfHead(n.toClient, p);
      var t := n.task(p).value;
      LegStep(t.job, t.upload, LegOf(n, p), AtClient(cancel));
    }
  }

  /** An event touches one path's transfer at most; all others go on undisturbed. */
  lemma OthersUndisturbed(n: Net, m: Net, e: Event, p: string)
    requires NetNext(n, m, e)
    requires match e
             case Begin(t) => t.job.path != p
             case ServerReceives => n.toServer[0].path != p
             case ClientReceives(_) => n.toClient[0].path != p
             case Damaged(upward, i, _) => (if upward then n.toServer else n.toClient)[i].path != p
    ensures LegOf(m, p) == LegOf(n, p) && m.task(p) == n.task(p)
  {
    hide LegOf;
    match e {
      case Begin(t) => BeginProjects(n, m, t, p);
      case ServerReceives => ServerProjects(n, m, p);
      case ClientReceives(cancel) => ClientProjects(n, m, cancel, p);
      case Damaged(upward, i, bytes) => DamageProjects(n, m, upward, i, bytes, p);
    }
  }
}
