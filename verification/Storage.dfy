/** The write sessions of the two storage backends. */
module Storage {
  import opened Common
  import opened Assembly

  const CHUNK_SIZE: nat := 5 * 1024 * 1024

  datatype Call =
    | BeginWrite(key: string)
    | WriteRange(key: string, part: nat, offset: nat, bytes: Bytes)
    | FinishWrite(key: string)
    | AbortWrite(key: string)

  /** What the assertions of both backends demand: one session per key, and none but begun ones used. */
  predicate Allowed(sessions: set<string>, c: Call) {
    c.BeginWrite? <==> c.key !in sessions
  }

  /** The visible files, and the buffers behind the sessions. */
  datatype LocalState = LocalState(files: map<string, Bytes>, sessions: map<string, Bytes>)

  function LocalStep(s: LocalState, c: Call): LocalState
    requires Allowed(s.sessions.Keys, c)
  {
    match c
    case BeginWrite(k) => s.(sessions := s.sessions[k := []])
    case WriteRange(k, _, offset, bytes) => s.(sessions := s.sessions[k := WriteAt(s.sessions[k], offset, bytes)])
    case FinishWrite(k) => LocalState(s.files[k := s.sessions[k]], s.sessions - {k})
    case AbortWrite(k) => s.(sessions := s.sessions - {k})
  }

  /** The visible objects, and the parts uploaded so far in order of arrival. */
  datatype S3State = S3State(objects: map<string, Bytes>, uploads: map<string, seq<Part>>)

  function S3Step(s: S3State, c: Call): S3State
    requires Allowed(s.uploads.Keys, c)
  {
    match c
    case BeginWrite(k) => s.(uploads := s.uploads[k := []])
    case WriteRange(k, part, _, bytes) => s.(uploads := s.uploads[k := s.uploads[k] + [Part(part, bytes)]])
    case FinishWrite(k) => S3State(s.objects[k := Contents(SortedParts(s.uploads[k]))], s.uploads - {k})
    case AbortWrite(k) => s.(uploads := s.uploads - {k})
  }

  class LocalFileStorage {
    var files: map<string, Bytes>
    var activeSaveFiles: map<string, Bytes>

    constructor ()
      ensures State() == LocalState(map[], map[])
    {
      files, activeSaveFiles := map[], map[];
    }

    function State(): LocalState
      reads this
    {
      LocalState(files, activeSaveFiles)
    }

    method BeginWrite(key: string)
      requires key !in activeSaveFiles
      modifies this
      ensures State() == LocalStep(old(State()), Call.BeginWrite(key))
      ensures files == old(files) && activeSaveFiles == old(activeSaveFiles)[key := []]
    {
      activeSaveFiles := activeSaveFiles[key := []];
    }

    /** Seek, then overwrite byte by byte from there. */
    method WriteRange(key: string, part: nat, offset: nat, bytes: Bytes)
      requires key in activeSaveFiles
      modifies this
      ensures State() == LocalStep(old(State()), Call.WriteRange(key, part, offset, bytes))
      ensures files == old(files) && activeSaveFiles.Keys == old(activeSaveFiles).Keys
      ensures forall k :: k in activeSaveFiles && k != key ==> activeSaveFiles[k] == old(activeSaveFiles)[k]
      ensures activeSaveFiles[key] == WriteAt(old(activeSaveFiles)[key], offset, bytes)
    {
      var save := activeSaveFiles[key];
      ghost var start := save;
      if bytes != [] {
        while |save| < offset
          invariant |save| >= |start| && save[..|start|] == start
          invariant forall i :: |start| <= i < |save| ==> save[i] == 0
          invariant |save| > |start| ==> |save| <= offset
          decreases offset - |save|
        {
          save := save + [0];
        }
        save := save[..offset] + bytes + if offset + |bytes| < |save| then save[offset + |bytes|..] else [];
      }
      assert save == WriteAt(start, offset, bytes);
      activeSaveFiles := activeSaveFiles[key := save];
    }

    method FinishWrite(key: string)
      requires key in activeSaveFiles
      modifies this
      ensures State() == LocalStep(old(State()), Call.FinishWrite(key))
      ensures files == old(files)[key := old(activeSaveFiles)[key]]
      ensures activeSaveFiles == old(activeSaveFiles) - {key}
    {
      files := files[key := activeSaveFiles[key]];
      activeSaveFiles := activeSaveFiles - {key};
    }

    method AbortWrite(key: string)
      requires key in activeSaveFiles
      modifies this
      ensures State() == LocalStep(old(State()), Call.AbortWrite(key))
      ensures files == old(files) && activeSaveFiles == old(activeSaveFiles) - {key}
    {
      activeSaveFiles := activeSaveFiles - {key};
    }

    /** As many bytes as asked for and there are, from `offset` on; an unknown file fails, unless nothing is
        asked of it. */
    method ReadRange(key: string, offset: nat, length: nat) returns (r: Option<Bytes>)
      ensures r.None? <==> length > 0 && key !in files
      ensures r.Some? && length == 0 ==> r.value == []
      ensures r.Some? && length > 0 ==> |r.value| == Max(0, Min(length, |files[key]| - offset))
      ensures r.Some? && length > 0 ==> forall i :: 0 <= i < |r.value| ==> r.value[i] == files[key][offset + i]
    {
      if length == 0 {
        return Some([]);
      }
      if key !in files {
        return None;
      }
      SliceMeaning(files[key], offset, length);
      r := Some(Slice(files[key], offset, length));
    }
  }

  function Slice(f: Bytes, offset: nat, length: nat): Bytes {
    if offset > |f| then [] else f[offset..Min(offset + length, |f|)]
  }

  lemma SliceMeaning(f: Bytes, offset: nat, length: nat)
    ensures |Slice(f, offset, length)| == Max(0, Min(length, |f| - offset))
    ensures forall i :: 0 <= i < |Slice(f, offset, length)| ==> Slice(f, offset, length)[i] == f[offset + i]
  {
  }

  class S3FileStorage {
    var objects: map<string, Bytes>
    var activeMultipartUploads: map<string, seq<Part>>

    constructor ()
      ensures State() == S3State(map[], map[])
    {
      objects, activeMultipartUploads := map[], map[];
    }

    function State(): S3State
      reads this
    {
      S3State(objects, activeMultipartUploads)
    }

    method BeginWrite(key: string)
      requires key !in activeMultipartUploads
      modifies this
      ensures State() == S3Step(old(State()), Call.BeginWrite(key))
      ensures objects == old(objects) && activeMultipartUploads == old(activeMultipartUploads)[key := []]
    {
      activeMultipartUploads := activeMultipartUploads[key := []];
    }

    method WriteRange(key: string, part: nat, offset: nat, bytes: Bytes)
      requires key in activeMultipartUploads
      modifies this
      ensures State() == S3Step(old(State()), Call.WriteRange(key, part, offset, bytes))
      ensures objects == old(objects) && activeMultipartUploads ==
        old(activeMultipartUploads)[key := old(activeMultipartUploads)[key] + [Part(part, bytes)]]
    {
      activeMultipartUploads := activeMultipartUploads[key := activeMultipartUploads[key] + [Part(part, bytes)]];
    }

    /** Sort the parts by number, then have the store put them together. */
    method FinishWrite(key: string)
      requires key in activeMultipartUploads
      modifies this
      ensures State() == S3Step(old(State()), Call.FinishWrite(key))
      ensures objects == old(objects)[key := Contents(SortedParts(old(activeMultipartUploads)[key]))]
      ensures activeMultipartUploads == old(activeMultipartUploads) - {key}
    {
      var parts := activeMultipartUploads[key];
      var sorted := [];
      for i := 0 to |parts|
        invariant sorted == SortedParts(parts[..i])
      {
        assert parts[..i + 1][..i] == parts[..i];
        sorted := InsertPart(parts[i], sorted);
      }
      assert parts[..|parts|] == parts;
      objects := objects[key := Contents(sorted)];
      activeMultipartUploads := activeMultipartUploads - {key};
    }

    method AbortWrite(key: string)
      requires key in activeMultipartUploads
      modifies this
      ensures State() == S3Step(old(State()), Call.AbortWrite(key))
      ensures objects == old(objects) && activeMultipartUploads == old(activeMultipartUploads) - {key}
    {
      activeMultipartUploads := activeMultipartUploads - {key};
    }
  }

  // ----- both backends under the same calls -----

  /** How the transfers call a backend: numbered parts at the offset of their number, finished
      only when all parts have come. */
  ghost predicate Transfers(s: S3State, chunk: nat, c: Call) {
    && Allowed(s.uploads.Keys, c)
    && (c.WriteRange? ==> c.part > 0 && c.offset == Offset(c.part, chunk))
    && (c.FinishWrite? ==> Complete(s.uploads[c.key], chunk))
  }

  ghost predicate Matches(l: LocalState, s: S3State, chunk: nat) {
    && l.files == s.objects && l.sessions.Keys == s.uploads.Keys
    && (forall k, x :: k in s.uploads && x in s.uploads[k] ==> x.number > 0)
    && (forall k :: k in s.uploads ==> l.sessions[k] == Assembled(s.uploads[k], chunk))
  }

  lemma StepMatches(l: LocalState, s: S3State, chunk: nat, c: Call)
    requires Matches(l, s, chunk) && Transfers(s, chunk, c)
    ensures Matches(LocalStep(l, c), S3Step(s, c), chunk)
  {
    match c {
      case WriteRange(k, part, offset, bytes) =>
        var t, x := s.uploads[k], Part(part, bytes);
        assert (t + [x])[..|t + [x]| - 1] == t;
        assert forall y :: y in t + [x] ==> y in t || y == x;
      case FinishWrite(k) => AssembliesAgree(s.uploads[k], chunk);
      case _ =>
    }
  }

  ghost predicate Run(ls: seq<LocalState>, ss: seq<S3State>, calls: seq<Call>, chunk: nat) {
    && |ls| == |ss| == |calls| + 1 && ls[0] == LocalState(map[], map[]) && ss[0] == S3State(map[], map[])
    && forall i :: 0 <= i < |calls| ==>
         Transfers(ss[i], chunk, calls[i]) && Allowed(ls[i].sessions.Keys, calls[i])
         && ls[i + 1] == LocalStep(ls[i], calls[i]) && ss[i + 1] == S3Step(ss[i], calls[i])
  }

  /** Whatever sessions run side by side and in whatever order their parts arrive, the two
      backends show the same files after every call. */
  lemma {:induction false} BackendsAgree(ls: seq<LocalState>, ss: seq<S3State>, calls: seq<Call>, chunk: nat, i: nat)
    requires Run(ls, ss, calls, chunk) && i <= |calls|
    ensures ls[i].files == ss[i].objects && Matches(ls[i], ss[i], chunk)
  {
    if i > 0 {
      BackendsAgree(ls, ss, calls, chunk, i - 1);
      StepMatches(ls[i - 1], ss[i - 1], chunk, calls[i - 1]);
      assert Transfers(ss[i - 1], chunk, calls[i - 1]) && ls[i - 1 + 1] == LocalStep(ls[i - 1], calls[i - 1]);
    }
  }

  /** A session shows nothing before it is finished, and nothing at all when it is aborted. */
  lemma {:induction false} NothingVisible(
      ls: seq<LocalState>, ss: seq<S3State>, calls: seq<Call>, chunk: nat, i: nat, j: nat, key: string)
    requires Run(ls, ss, calls, chunk) && i <= j <= |calls|
    requires forall n :: i <= n < j ==> calls[n] != FinishWrite(key)
    ensures key in ls[j].files <==> key in ls[i].files
    ensures key in ls[i].files ==> ls[j].files[key] == ls[i].files[key]
    ensures key in ss[j].objects <==> key in ss[i].objects
    ensures key in ss[i].objects ==> ss[j].objects[key] == ss[i].objects[key]
  {
    if i < j {
      NothingVisible(ls, ss, calls, chunk, i, j - 1, key);
      assert Transfers(ss[j - 1], chunk, calls[j - 1]) && ls[j - 1 + 1] == LocalStep(ls[j - 1], calls[j - 1]);
    }
  }
}
