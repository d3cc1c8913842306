/** The chunk transfer handlers. Each one reads and changes what its side knows about the path
    of the message, and nothing else; the classes keep that knowledge in maps. */
module Chunking {
  import opened Common
  import opened Storage
  import opened ChunkMath

  datatype Message =
    | RequestUpload(path: string, fileSize: nat)
    | SpecifyUpload(path: string, chunkSize: nat, totalChunks: nat)
    | RequestDownload(path: string, desired: nat)
    | SpecifyDownload(path: string, chunkSize: nat, totalChunks: nat)
    | ChunkTransfer(path: string, part: nat, bytes: Bytes, hash: Bytes)
    | Ack(path: string, part: nat, failed: bool)
    | CancelTransfer(path: string)

  datatype Progress = Progress(current: nat, totalParts: nat, chunkSize: nat) {
    predicate IsComplete() {
      totalParts != 0 && current >= totalParts
    }

    function Confirm(part: nat): Progress {
      this.(current := part)
    }
  }

  /** What one side knows about the transfers of one path. */
  datatype End = End(up: Option<Progress>, down: Option<Progress>)

  const NO_TRANSFER := End(None, None)

  datatype Write = Write(part: nat, offset: nat, bytes: Bytes)

  datatype Signal =
    | UploadStarted(size: nat, chunk: nat)
    | UploadProgress(part: nat, total: nat)
    | UploadCompleted
    | UploadCancelled
    | DownloadProgress(part: nat, total: nat)
    | DownloadCompleted
    | DownloadCancelled

  /** A handler's effect: the new knowledge, messages sent, bytes to write, signals raised. */
  datatype Reply = Reply(end: End, sent: seq<Message>, writes: seq<Write>, signals: seq<Signal>)

  type Digest = Bytes -> Bytes

  function PartMessage(H: Digest, path: string, file: Bytes, chunk: nat, part: nat): Message {
    var bytes := Slice(file, PartOffset(part, chunk), chunk);
    ChunkTransfer(path, part, bytes, H(bytes))
  }

  predicate Intact(H: Digest, m: Message)
    requires m.ChunkTransfer?
  {
    H(m.bytes) == m.hash
  }

  // ----- the client -----

  /** The assertions of the client's handlers. */
  predicate ClientExpects(e: End, m: Message) {
    match m
    case SpecifyUpload(_, chunkSize, totalChunks) =>
      e.up.Some? && chunkSize != 0 && totalChunks != 0 && e.up.value.current > 0
    case SpecifyDownload(_, _, _) => e.down.Some?
    case Ack(_, part, failed) =>
      e.up.Some? && if failed then part > 0 else e.up.value.Confirm(part).IsComplete() || NextPart(part) > 0
    case ChunkTransfer(_, _, _, _) => e.down.Some?
    case _ => true
  }

  /** `cancel` says whether the receiver of the progress signal cancels the transfer on the spot. */
  function ClientAck(H: Digest, file: Bytes, e: End, m: Message, cancel: bool): Reply
    requires m.Ack? && ClientExpects(e, m)
  {
    var p := e.up.value;
    if m.failed then Reply(e, [PartMessage(H, m.path, file, p.chunkSize, m.part)], [], [])
    else
      var q := p.Confirm(m.part);
      if q.IsComplete() then Reply(e.(up := None), [], [], [UploadCompleted])
      else if cancel then
        Reply(e.(up := None), [CancelTransfer(m.path)], [], [UploadProgress(m.part, q.totalParts), UploadCancelled])
      else
        Reply(e.(up := Some(q)), [PartMessage(H, m.path, file, q.chunkSize, NextPart(m.part))], [],
          [UploadProgress(m.part, q.totalParts)])
  }

  function ClientChunk(H: Digest, e: End, m: Message, cancel: bool): Reply
    requires m.ChunkTransfer? && ClientExpects(e, m)
  {
    if !Intact(H, m) then Reply(e, [Ack(m.path, m.part, true)], [], [])
    else
      var p := e.down.value;
      var q := p.(current := NextPart(m.part));
      var write := Write(0, PartOffset(m.part, p.chunkSize), m.bytes);
      if q.totalParts != 0 && q.current > q.totalParts then
        Reply(e.(down := None), [Ack(m.path, m.part, false)], [write], [DownloadCompleted])
      else if cancel then
        Reply(e.(down := None), [CancelTransfer(m.path)], [write],
          [DownloadProgress(m.part, q.totalParts), DownloadCancelled])
      else
        Reply(e.(down := Some(q)), [Ack(m.path, m.part, false)], [write], [DownloadProgress(m.part, q.totalParts)])
  }

  function ClientHandle(H: Digest, file: Bytes, e: End, m: Message, cancel: bool): Reply
    requires ClientExpects(e, m)
  {
    match m
    case SpecifyUpload(path, chunkSize, totalChunks) =>
      var p := Progress(e.up.value.current, totalChunks, chunkSize);
      Reply(e.(up := Some(p)), [PartMessage(H, path, file, chunkSize, p.current)], [], [])
    case SpecifyDownload(_, chunkSize, totalChunks) =>
      Reply(e.(down := Some(Progress(e.down.value.current, totalChunks, chunkSize))), [], [], [])
    case Ack(_, _, _) => ClientAck(H, file, e, m, cancel)
    case ChunkTransfer(_, _, _, _) => ClientChunk(H, e, m, cancel)
    case _ => Reply(e, [], [], [])
  }

  // ----- the server -----

  predicate ServerExpects(e: End, m: Message) {
    match m
    case ChunkTransfer(_, _, _, _) => e.up.Some?
    case Ack(_, _, _) => e.down.Some?
    case CancelTransfer(_) => e.up.Some? || e.down.Some?
    case _ => true
  }

  function ServerChunk(H: Digest, e: End, m: Message): Reply
    requires m.ChunkTransfer? && ServerExpects(e, m)
  {
    if !Intact(H, m) then Reply(e, [Ack(m.path, m.part, true)], [], [])
    else
      var p := e.up.value;
      var q := p.Confirm(m.part);
      var write := Write(m.part, PartOffset(m.part, p.chunkSize), m.bytes);
      if q.IsComplete() then Reply(e.(up := None), [Ack(m.path, m.part, false)], [write], [UploadCompleted])
      else Reply(e.(up := Some(q)), [Ack(m.path, m.part, false)], [write], [])
  }

  function ServerAck(H: Digest, file: Bytes, e: End, m: Message): Reply
    requires m.Ack? && ServerExpects(e, m)
  {
    var p := e.down.value;
    if m.failed then Reply(e, [PartMessage(H, m.path, file, p.chunkSize, m.part)], [], [])
    else
      var q := p.Confirm(m.part);
      if q.IsComplete() then Reply(e.(down := None), [], [], [DownloadCompleted])
      else Reply(e.(down := Some(q)), [PartMessage(H, m.path, file, q.chunkSize, NextPart(m.part))], [], [])
  }

  /** `chunk` is the size the calculator picks for this transfer. */
  function ServerHandle(H: Digest, file: Bytes, chunk: nat, e: End, m: Message): Reply
    requires chunk > 0 && ServerExpects(e, m)
  {
    match m
    case RequestUpload(path, fileSize) =>
      var total := TotalChunks(fileSize, chunk);
      Reply(e.(up := Some(Progress(0, total, chunk))), [SpecifyUpload(path, chunk, total)], [],
        [UploadStarted(fileSize, chunk)])
    case RequestDownload(path, _) =>
      var total := TotalChunks(|file|, chunk);
      Reply(e.(down := Some(Progress(1, total, chunk))),
            [SpecifyDownload(path, chunk, total), PartMessage(H, path, file, chunk, 1)], [], [])
    case ChunkTransfer(_, _, _, _) => ServerChunk(H, e, m)
    case Ack(_, _, _) => ServerAck(H, file, e, m)
    case CancelTransfer(_) =>
      if e.up.Some? then Reply(e.(up := None), [], [], [UploadCancelled])
      else Reply(e.(down := None), [], [], [DownloadCancelled])
    case _ => Reply(e, [], [], [])
  }

  // ----- the classes -----

  function Knows<K>(ups: map<K, Progress>, downs: map<K, Progress>, k: K): End {
    End(if k in ups then Some(ups[k]) else None, if k in downs then Some(downs[k]) else None)
  }

  class ChunkingClient {
    const H: Digest
    var uploadStates: map<string, Progress>
    var downloadStates: map<string, Progress>
    var sent: seq<Message>
    var writes: seq<Write>
    var signals: seq<Signal>

    constructor (H: Digest)
      ensures this.H == H && (forall p :: EndAt(p) == NO_TRANSFER) && sent == [] && writes == [] && signals == []
    {
      this.H := H;
      uploadStates, downloadStates, sent, writes, signals := map[], map[], [], [], [];
    }

    function EndAt(path: string): End
      reads this
    {
      Knows(uploadStates, downloadStates, path)
    }

    /** The handler's effect, and that other paths are none of its business. */
    twostate predicate Did(path: string, r: Reply)
      reads this
    {
      && EndAt(path) == r.end && (forall q :: q != path ==> EndAt(q) == old(EndAt(q)))
      && sent == old(sent) + r.sent && writes == old(writes) + r.writes && signals == old(signals) + r.signals
    }

    method StartUpload(path: string, fileSize: nat)
      modifies this
      ensures Did(path,
        Reply(old(EndAt(path)).(up := Some(Progress(1, 0, 0))), [RequestUpload(path, fileSize)], [], []))
    {
      uploadStates := uploadStates[path := Progress(1, 0, 0)];
      sent := sent + [RequestUpload(path, fileSize)];
    }

    method StartDownload(path: string, desiredChunkSize: nat)
      modifies this
      ensures Did(path,
        Reply(old(EndAt(path)).(down := Some(Progress(1, 0, 0))), [RequestDownload(path, desiredChunkSize)], [], []))
    {
      downloadStates := downloadStates[path := Progress(1, 0, 0)];
      sent := sent + [RequestDownload(path, desiredChunkSize)];
    }

    method SendPart(path: string, file: Bytes, part: nat)
      requires part > 0 && path in uploadStates
      modifies this`sent
      ensures sent == old(sent) + [PartMessage(H, path, file, uploadStates[path].chunkSize, part)]
    {
      var bytes := Slice(file, PartOffset(part, uploadStates[path].chunkSize), uploadStates[path].chunkSize);
      sent := sent + [ChunkTransfer(path, part, bytes, H(bytes))];
    }

    method CancelUpload(path: string)
      requires path in uploadStates
      modifies this
      ensures Did(path, Reply(old(EndAt(path)).(up := None), [CancelTransfer(path)], [], [UploadCancelled]))
    {
      uploadStates := uploadStates - {path};
      sent, signals := sent + [CancelTransfer(path)], signals + [UploadCancelled];
    }

    /** Nothing happens when no download is active. */
    method CancelDownload(path: string)
      modifies this
      ensures old(EndAt(path)).down.None? ==> Did(path, Reply(old(EndAt(path)), [], [], []))
      ensures old(EndAt(path)).down.Some? ==>
        Did(path, Reply(old(EndAt(path)).(down := None), [CancelTransfer(path)], [], [DownloadCancelled]))
    {
      if path !in downloadStates {
        return;
      }
      downloadStates := downloadStates - {path};
      sent, signals := sent + [CancelTransfer(path)], signals + [DownloadCancelled];
    }

    method HandleUploadSizeReceived(m: Message, file: Bytes)
      requires m.SpecifyUpload? && ClientExpects(EndAt(m.path), m)
      modifies this
      ensures Did(m.path, ClientHandle(H, file, old(EndAt(m.path)), m, false))
    {
      var p := uploadStates[m.path];
      uploadStates := uploadStates[m.path := p.(chunkSize := m.chunkSize, totalParts := m.totalChunks)];
      SendPart(m.path, file, uploadStates[m.path].current);
    }

    method HandleAckChunkOfUpload(m: Message, file: Bytes, cancel: bool)
      requires m.Ack? && ClientExpects(EndAt(m.path), m)
      modifies this
      ensures Did(m.path, ClientHandle(H, file, old(EndAt(m.path)), m, cancel))
    {
      if m.failed {
        SendPart(m.path, file, m.part);
        return;
      }
      uploadStates := uploadStates[m.path := uploadStates[m.path].Confirm(m.part)];
      if uploadStates[m.path].IsComplete() {
        uploadStates := uploadStates - {m.path};
        signals := signals + [UploadCompleted];
        return;
      }
      signals := signals + [UploadProgress(m.part, uploadStates[m.path].totalParts)];
      if cancel {
        CancelUpload(m.path);
      }
      if m.path !in uploadStates {
        return;
      }
      SendPart(m.path, file, NextPart(m.part));
    }

    method HandleDownloadSizeReceived(m: Message, ghost file: Bytes)
      requires m.SpecifyDownload? && ClientExpects(EndAt(m.path), m)
      modifies this
      ensures Did(m.path, ClientHandle(H, file, old(EndAt(m.path)), m, false))
    {
      var p := downloadStates[m.path];
      downloadStates := downloadStates[m.path := p.(chunkSize := m.chunkSize, totalParts := m.totalChunks)];
    }

    method HandleChunkReceived(m: Message, cancel: bool)
      requires m.ChunkTransfer? && ClientExpects(EndAt(m.path), m)
      modifies this
      ensures Did(m.path, ClientChunk(H, old(EndAt(m.path)), m, cancel))
    {
      if H(m.bytes) != m.hash {
        sent := sent + [Ack(m.path, m.part, true)];
        return;
      }
      var chunkSize, totalParts := downloadStates[m.path].chunkSize, downloadStates[m.path].totalParts;
      var nextPart := NextPart(m.part);
      downloadStates := downloadStates[m.path := downloadStates[m.path].(current := nextPart)];
      writes := writes + [Write(0, PartOffset(m.part, chunkSize), m.bytes)];
      if totalParts != 0 && nextPart > totalParts {
        downloadStates := downloadStates - {m.path};
        sent, signals := sent + [Ack(m.path, m.part, false)], signals + [DownloadCompleted];
        return;
      }
      signals := signals + [DownloadProgress(m.part, totalParts)];
      if cancel {
        CancelDownload(m.path);
      }
      if m.path !in downloadStates {
        return;
      }
      sent := sent + [Ack(m.path, m.part, false)];
    }

    method OnMessage(m: Message, file: Bytes, cancel: bool)
      requires ClientExpects(EndAt(m.path), m)
      modifies this
      ensures Did(m.path, ClientHandle(H, file, old(EndAt(m.path)), m, cancel))
    {
      match m {
        case Ack(_, _, _) => HandleAckChunkOfUpload(m, file, cancel);
        case SpecifyDownload(_, _, _) => HandleDownloadSizeReceived(m, file);
        case SpecifyUpload(_, _, _) => HandleUploadSizeReceived(m, file);
        case ChunkTransfer(_, _, _, _) => HandleChunkReceived(m, cancel);
        case _ =>
      }
    }
  }

  type ClientId = string
  type TransferKey = (ClientId, string)

  class ChunkingServer {
    const H: Digest
    var uploadStates: map<TransferKey, Progress>
    var downloadStates: map<TransferKey, Progress>
    var sent: seq<(ClientId, Message)>
    var writes: seq<(TransferKey, Write)>
    var signals: seq<(TransferKey, Signal)>

    constructor (H: Digest)
      ensures this.H == H && (forall k :: EndAt(k) == NO_TRANSFER) && sent == [] && writes == [] && signals == []
    {
      this.H := H;
      uploadStates, downloadStates, sent, writes, signals := map[], map[], [], [], [];
    }

    function EndAt(key: TransferKey): End
      reads this
    {
      Knows(uploadStates, downloadStates, key)
    }

    /** The handler's effect, and that transfers of other clients and other paths stay as they are. */
    twostate predicate Did(key: TransferKey, r: Reply)
      reads this
    {
      && EndAt(key) == r.end && (forall k :: k != key ==>
            Knows(uploadStates, downloadStates, k) == Knows(old(uploadStates), old(downloadStates), k))
      && sent == old(sent) + Addressed(key.0, r.sent)
      && writes == old(writes) + Addressed(key, r.writes) && signals == old(signals) + Addressed(key, r.signals)
    }

    method HandleRequestChunkSizeForUpload(clientId: ClientId, m: Message, file: Bytes, chunk: nat)
      requires m.RequestUpload? && chunk > 0
      modifies this
      ensures Did((clientId, m.path), ServerHandle(H, file, chunk, old(EndAt((clientId, m.path))), m))
    {
      var key := (clientId, m.path);
      var totalChunks := TotalChunks(m.fileSize, chunk);
      uploadStates := uploadStates[key := Progress(0, totalChunks, chunk)];
      signals := signals + [(key, UploadStarted(m.fileSize, chunk))];
      sent := sent + [(clientId, SpecifyUpload(m.path, chunk, totalChunks))];
    }

    method HandleRequestChunkSizeForDownload(clientId: ClientId, m: Message, file: Bytes, chunk: nat)
      requires m.RequestDownload? && chunk > 0
      modifies this
      ensures Did((clientId, m.path), ServerHandle(H, file, chunk, old(EndAt((clientId, m.path))), m))
    {
      var key := (clientId, m.path);
      var totalChunks := TotalChunks(|file|, chunk);
      downloadStates := downloadStates[key := Progress(1, totalChunks, chunk)];
      sent := sent + [(clientId, SpecifyDownload(m.path, chunk, totalChunks))];
      SendPart(clientId, m.path, file, 1);
    }

    method SendPart(clientId: ClientId, path: string, file: Bytes, part: nat)
      requires (clientId, path) in downloadStates
      modifies this`sent
      ensures sent ==
        old(sent) + [(clientId, PartMessage(H, path, file, downloadStates[(clientId, path)].chunkSize, part))]
    {
      var chunk := downloadStates[(clientId, path)].chunkSize;
      var bytes := Slice(file, PartOffset(part, chunk), chunk);
      sent := sent + [(clientId, ChunkTransfer(path, part, bytes, H(bytes)))];
    }

    method HandleChunkReceived(clientId: ClientId, m: Message)
      requires m.ChunkTransfer? && ServerExpects(EndAt((clientId, m.path)), m)
      modifies this
      ensures Did((clientId, m.path), ServerChunk(H, old(EndAt((clientId, m.path))), m))
    {
      var key := (clientId, m.path);
      if H(m.bytes) != m.hash {
        sent := sent + [(clientId, Ack(m.path, m.part, true))];
        return;
      }
      var offset := PartOffset(m.part, uploadStates[key].chunkSize);
      uploadStates := uploadStates[key := uploadStates[key].Confirm(m.part)];
      var uploadFinished := uploadStates[key].IsComplete();
      writes := writes + [(key, Write(m.part, offset, m.bytes))];
      if uploadFinished {
        uploadStates := uploadStates - {key};
      }
      sent := sent + [(clientId, Ack(m.path, m.part, false))];
      if uploadFinished {
        signals := signals + [(key, UploadCompleted)];
      }
    }

    method HandleAckChunkOfDownload(clientId: ClientId, m: Message, file: Bytes)
      requires m.Ack? && ServerExpects(EndAt((clientId, m.path)), m)
      modifies this
      ensures Did((clientId, m.path), ServerAck(H, file, old(EndAt((clientId, m.path))), m))
    {
      var key := (clientId, m.path);
      if m.failed {
        SendPart(clientId, m.path, file, m.part);
        return;
      }
      downloadStates := downloadStates[key := downloadStates[key].Confirm(m.part)];
      if downloadStates[key].IsComplete() {
        downloadStates := downloadStates - {key};
        signals := signals + [(key, DownloadCompleted)];
        return;
      }
      SendPart(clientId, m.path, file, NextPart(m.part));
    }

    method HandleCancelReceived(clientId: ClientId, m: Message)
      requires m.CancelTransfer? && ServerExpects(EndAt((clientId, m.path)), m)
      modifies this
      ensures forall file, chunk: nat :: chunk > 0 ==>
        Did((clientId, m.path), ServerHandle(H, file, chunk, old(EndAt((clientId, m.path))), m))
      ensures sent == old(sent) && writes == old(writes) && uploadStates == old(uploadStates) - {(clientId, m.path)}
      ensures downloadStates ==
        if (clientId, m.path) in old(uploadStates) then old(downloadStates)
        else old(downloadStates) - {(clientId, m.path)}
      ensures signals == old(signals) +
        [((clientId, m.path), if (clientId, m.path) in old(uploadStates) then UploadCancelled else DownloadCancelled)]
    {
      var key := (clientId, m.path);
      if key in uploadStates {
        uploadStates := uploadStates - {key};
        signals := signals + [(key, UploadCancelled)];
        return;
      }
      if key in downloadStates {
        downloadStates := downloadStates - {key};
        signals := signals + [(key, DownloadCancelled)];
        return;
      }
      assert false;
    }

    method OnMessage(clientId: ClientId, m: Message, file: Bytes, chunk: nat)
      requires chunk > 0 && ServerExpects(EndAt((clientId, m.path)), m)
      modifies this
      ensures Did((clientId, m.path), ServerHandle(H, file, chunk, old(EndAt((clientId, m.path))), m))
    {
      match m {
        case RequestUpload(_, _) => HandleRequestChunkSizeForUpload(clientId, m, file, chunk);
        case RequestDownload(_, _) => HandleRequestChunkSizeForDownload(clientId, m, file, chunk);
        case ChunkTransfer(_, _, _, _) => HandleChunkReceived(clientId, m);
        case Ack(_, _, _) => HandleAckChunkOfDownload(clientId, m, file);
        case CancelTransfer(_) => HandleCancelReceived(clientId, m);
        case _ =>
      }
    }
  }

  function Addressed<A, B>(to: A, s: seq<B>): seq<(A, B)> {
    seq(|s|, i requires 0 <= i < |s| => (to, s[i]))
  }
}
