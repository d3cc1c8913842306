/** Length-prefixed frames over a byte stream that arrives in arbitrary pieces. */
module Framing {
  import opened Common

  const MAX_INT: nat := 0x7fff_ffff

  /** Four bytes, most significant first. */
  function Header(n: nat): (h: Bytes)
    requires n < U32
    ensures |h| == 4
  {
    [(n / 0x100_0000) as byte, (n / 0x1_0000 % 0x100) as byte, (n / 0x100 % 0x100) as byte, (n % 0x100) as byte]
  }

  function ReadHeader(b: Bytes): (n: nat)
    requires |b| >= 4
    ensures n < U32
  {
    b[0] as nat * 0x100_0000 + b[1] as nat * 0x1_0000 + b[2] as nat * 0x100 + b[3] as nat
  }

  lemma HeaderRoundTrip(n: nat, rest: Bytes)
    requires n < U32
    ensures ReadHeader(Header(n) + rest) == n
    ensures var h := Header(n); n == ((h[0] as int * 0x100 + h[1] as int) * 0x100 + h[2] as int) * 0x100 + h[3] as int
  {
    var a, b, c := n / 0x100_0000, n / 0x1_0000, n / 0x100;
    assert b / 0x100 == a && c / 0x100 == b;
    assert n == c * 0x100 + n % 0x100;
    assert c == b * 0x100 + c % 0x100;
    assert b == a * 0x100 + b % 0x100;
  }

  function Frame(payload: Bytes): Bytes {
    Header(|payload| % U32) + payload
  }

  function Stream(payloads: seq<Bytes>): Bytes {
    if payloads == [] then [] else Frame(payloads[0]) + Stream(payloads[1..])
  }

  /** Short enough for the frame's length to be a positive signed number. */
  predicate Short(payload: Bytes) {
    4 + |payload| <= MAX_INT
  }

  function ToInt(n: nat): int
    requires n < U32
  {
    if n <= MAX_INT then n else n - U32
  }

  /** The frame at the front of a buffer, if it is there as a whole: its payload and what is left.
      The size is compared as a signed number, the removal counts as an unsigned one. */
  function Front(buffer: Bytes): Option<(Bytes, Bytes)> {
    if |buffer| < 4 then None
    else
      var length := ReadHeader(buffer);
      if |buffer| < 4 + ToInt(length) then None
      else Some((buffer[4..Min(4 + length, |buffer|)], buffer[Min((4 + length) % U32, |buffer|)..]))
  }

  /** Taking a frame makes the buffer shorter, except for one header value that removes nothing. */
  lemma FrontShrinks(buffer: Bytes)
    requires Front(buffer).Some?
    ensures |Front(buffer).value.1| < |buffer| <==> ReadHeader(buffer) != U32 - 4
  {
    var length := ReadHeader(buffer);
    assert (4 + length) % U32 == if 4 + length < U32 then 4 + length else 4 + length - U32;
  }

  /** That header value is found at the front again and again, with the whole rest as its payload. */
  lemma FrontSpins(buffer: Bytes)
    requires |buffer| >= 4 && ReadHeader(buffer) == U32 - 4
    ensures Front(buffer) == Some((buffer[4..Min(U32, |buffer|)], buffer))
  {
  }

  /** A loop that takes frame after frame for ever has come to that value; from there nothing changes. */
  lemma {:induction false} EndlessSpins(w: nat -> Bytes, n: nat)
    requires forall i: nat :: Front(w(i)).Some? && w(i + 1) == Front(w(i)).value.1
    ensures exists i: nat :: |w(i)| >= 4 && ReadHeader(w(i)) == U32 - 4
    decreases |w(n)|
  {
    hide ReadHeader;
    FrontShrinks(w(n));
    if ReadHeader(w(n)) != U32 - 4 {
      assert w(n + 1) == Front(w(n)).value.1;
      EndlessSpins(w, n + 1);
    }
  }

  lemma FrameHeader(p: Bytes)
    requires Short(p)
    ensures Frame(p) == Header(|p|) + p && |Header(|p|)| == 4
  {
    hide Header;
    assert |p| % U32 == |p|;
  }

  /** With a short size in front the frame is taken exactly when it is complete. */
  lemma FrontShort(buffer: Bytes, size: nat)
    requires |buffer| >= 4 && ReadHeader(buffer) == size && 4 + size <= MAX_INT
    ensures Front(buffer) ==
      if |buffer| < 4 + size then None else Some((buffer[4..4 + size], buffer[4 + size..]))
  {
    hide ReadHeader;
    assert (4 + size) % U32 == 4 + size;
  }

  lemma FrontOf(buffer: Bytes, p: Bytes, rest: Bytes)
    requires Short(p) && buffer <= Frame(p) + rest
    ensures Front(buffer).None? <==> |buffer| < |Frame(p)|
    ensures Front(buffer).Some? ==>
      Front(buffer).value.0 == p && buffer == Frame(p) + Front(buffer).value.1 && Front(buffer).value.1 <= rest
  {
    FrameHeader(p);
    hide Header, ReadHeader, Frame;
    assert |Frame(p)| == 4 + |p| && Frame(p)[4..] == p;
    if |buffer| >= 4 {
      hide Front;
      assert Frame(p) + rest == Header(|p|) + (p + rest);
      HeaderRoundTrip(|p|, p + rest);
      SameHeader(buffer, Frame(p) + rest);
      FrontShort(buffer, |p|);
      if |buffer| >= 4 + |p| {
        CutFrame(buffer, Frame(p), p, rest);
      }
    }
  }

  lemma SameHeader(a: Bytes, b: Bytes)
    requires 4 <= |a| && a <= b
    ensures ReadHeader(a) == ReadHeader(b)
  {
  }

  lemma CutFrame(buffer: Bytes, frame: Bytes, p: Bytes, rest: Bytes)
    requires |frame| == 4 + |p| && frame[4..] == p && buffer <= frame + rest && |buffer| >= |frame|
    ensures buffer[4..4 + |p|] == p && buffer == frame + buffer[4 + |p|..] && buffer[4 + |p|..] <= rest
  {
    assert (frame + rest)[|frame|..] == rest;
  }

  /** On the beginning of a stream of short frames the front is the first frame or not there yet. */
  lemma FrontExact(buffer: Bytes, payloads: seq<Bytes>)
    requires (forall p :: p in payloads ==> Short(p)) && buffer <= Stream(payloads)
    ensures Front(buffer).None? <==> payloads == [] || |buffer| < |Frame(payloads[0])|
    ensures Front(buffer).Some? ==>
      Front(buffer).value.0 == payloads[0] && buffer == Frame(payloads[0]) + Front(buffer).value.1
    ensures Front(buffer).Some? ==> Front(buffer).value.1 <= Stream(payloads[1..])
  {
    hide Frame, ReadHeader;
    if payloads != [] {
      assert payloads[0] in payloads;
      FrontOf(buffer, payloads[0], Stream(payloads[1..]));
    }
  }

  // ----- a whole buffer -----

  /** At every frame boundary the size can be compared as a signed number, and no boundary reads the one
      value that removes nothing: the buffers the parser gets through. */
  predicate Parsable(buffer: Bytes)
    decreases |buffer|
  {
    |buffer| < 4 ||
    (&& 4 + ToInt(ReadHeader(buffer)) <= MAX_INT
     && (Front(buffer).None? ||
         (ReadHeader(buffer) != U32 - 4 && (FrontShrinks(buffer); Parsable(Front(buffer).value.1)))))
  }

  /** The payloads of the complete frames, in order. */
  function Payloads(buffer: Bytes): seq<Bytes>
    requires Parsable(buffer)
    decreases |buffer|
  {
    if Front(buffer).None? then [] else
      FrontShrinks(buffer);
      [Front(buffer).value.0] + Payloads(Front(buffer).value.1)
  }

  /** What stays for the next read. */
  function LeftOver(buffer: Bytes): Bytes
    requires Parsable(buffer)
    decreases |buffer|
  {
    if Front(buffer).None? then buffer else
      FrontShrinks(buffer);
      LeftOver(Front(buffer).value.1)
  }

  /** The messages a handler gets from payloads: those that decode, in order. */
  function Decoded<M>(decode: Bytes -> Option<M>, payloads: seq<Bytes>): seq<M> {
    if payloads == [] then []
    else (match decode(payloads[0]) case Some(m) => [m] case None => []) + Decoded(decode, payloads[1..])
  }

  lemma {:induction false} DecodedAppend<M>(decode: Bytes -> Option<M>, a: seq<Bytes>, b: seq<Bytes>)
    ensures Decoded(decode, a + b) == Decoded(decode, a) + Decoded(decode, b)
  {
    if a == [] {
      assert a + b == b;
    } else {
      assert (a + b)[1..] == a[1..] + b;
      DecodedAppend(decode, a[1..], b);
    }
  }

  class MessageProtocol<M> {
    const decode: Bytes -> Option<M>
    var buffer: Bytes
    var handled: seq<M>  // what the handler was called with

    constructor (decode: Bytes -> Option<M>)
      ensures this.decode == decode && buffer == [] && handled == []
    {
      this.decode, buffer, handled := decode, [], [];
    }

    /** Append what was read, then handle every frame that is complete. */
    method ProcessBuffer(read: Bytes)
      requires Parsable(buffer + read)
      modifies this
      ensures handled == old(handled) + Decoded(decode, Payloads(old(buffer) + read))
      ensures buffer == LeftOver(old(buffer) + read) && (|buffer| < 4 || Front(buffer).None?)
    {
      hide ReadHeader, ToInt, Parsable, Payloads, LeftOver, Decoded;
      ghost var all := buffer + read;
      buffer := buffer + read;
      while |buffer| >= 4
        invariant Parsable(buffer) && LeftOver(buffer) == LeftOver(all)
        invariant handled + Decoded(decode, Payloads(buffer)) == old(handled) + Decoded(decode, Payloads(all))
        decreases |buffer|
      {
        var length := ReadHeader(buffer);
        if |buffer| < 4 + ToInt(length) {
          break;
        }
        ParseOne(decode, buffer);
        var payload := buffer[4..Min(4 + length, |buffer|)];
        buffer := buffer[Min((4 + length) % U32, |buffer|)..];
        var msg := decode(payload);
        if msg.None? {
          continue;
        }
        handled := handled + [msg.value];
      }
      ParseNone(decode, buffer);
    }
  }

  lemma ParseOne<M>(decode: Bytes -> Option<M>, buffer: Bytes)
    requires Parsable(buffer) && Front(buffer).Some?
    ensures var (payload, rest) := Front(buffer).value;
      && |rest| < |buffer| && Parsable(rest) && LeftOver(buffer) == LeftOver(rest)
      && Decoded(decode, Payloads(buffer))
         == (match decode(payload) case Some(m) => [m] case None => []) + Decoded(decode, Payloads(rest))
  {
    hide ReadHeader, ToInt;
    FrontShrinks(buffer);
    assert Payloads(buffer)[1..] == Payloads(Front(buffer).value.1);
  }

  lemma ParseNone<M>(decode: Bytes -> Option<M>, buffer: Bytes)
    requires Parsable(buffer) && Front(buffer).None?
    ensures Decoded(decode, Payloads(buffer)) == [] && LeftOver(buffer) == buffer
  {
  }

  // ----- the stream of a sender -----

  /** The parser finds the first payloads and keeps less than one frame. */
  ghost predicate Parses(b: Bytes, payloads: seq<Bytes>) {
    && Parsable(b) && |Payloads(b)| <= |payloads|
    && var k := |Payloads(b)|;
       && Payloads(b) == payloads[..k] && b == Stream(payloads[..k]) + LeftOver(b)
       && LeftOver(b) <= Stream(payloads[k..]) && (k < |payloads| ==> |LeftOver(b)| < |Frame(payloads[k])|)
  }

  /** Of a sender's short frames the parser gets through whatever has arrived. */
  lemma {:induction false} StreamParsed(b: Bytes, payloads: seq<Bytes>)
    requires (forall p :: p in payloads ==> Short(p)) && b <= Stream(payloads)
    ensures Parses(b, payloads)
    decreases |payloads|
  {
    hide Stream, Frame, ReadHeader, ToInt, Front;
    FrontExact(b, payloads);
    ShortHeader(b, payloads);
    if Front(b).Some? {
      hide Parses;
      StreamParsed(Front(b).value.1, payloads[1..]);
      ParsesOne(b, payloads);
    } else {
      assert payloads[..0] == [] && payloads[0..] == payloads;
      ParsesNone(b, payloads);
    }
  }

  lemma ParsesNone(b: Bytes, payloads: seq<Bytes>)
    requires b <= Stream(payloads) && Front(b).None? && (|b| >= 4 ==> 4 + ToInt(ReadHeader(b)) <= MAX_INT)
    requires payloads == [] || |b| < |Frame(payloads[0])|
    ensures Parses(b, payloads)
  {
    hide Frame, ReadHeader, ToInt, Front;
    assert payloads[..0] == [] && payloads[0..] == payloads;
  }

  lemma UnfoldOne(b: Bytes)
    requires Front(b).Some? && 4 + ToInt(ReadHeader(b)) <= MAX_INT && ReadHeader(b) != U32 - 4
    requires Parsable(Front(b).value.1)
    ensures var (payload, rest) := Front(b).value;
      Parsable(b) && Payloads(b) == [payload] + Payloads(rest) && LeftOver(b) == LeftOver(rest)
  {
    hide ReadHeader, ToInt;
    FrontShrinks(b);
  }

  lemma ParsesOne(b: Bytes, payloads: seq<Bytes>)
    requires Front(b).Some? && 4 + ToInt(ReadHeader(b)) <= MAX_INT && ReadHeader(b) != U32 - 4
    requires payloads != [] && Front(b).value.0 == payloads[0] && b == Frame(payloads[0]) + Front(b).value.1
    requires Parses(Front(b).value.1, payloads[1..])
    ensures Parses(b, payloads)
  {
    hide Frame, ReadHeader, ToInt, Front, Parsable, Payloads, LeftOver;
    var rest := Front(b).value.1;
    var k := |Payloads(rest)|;
    UnfoldOne(b);
    assert payloads[..k + 1][1..] == payloads[1..][..k] && payloads[k + 1..] == payloads[1..][k..];
    assert payloads[..k + 1] == [payloads[0]] + payloads[1..][..k];
    assert Stream(payloads[..k + 1]) == Frame(payloads[0]) + Stream(payloads[1..][..k]);
  }

  lemma ShortHeader(b: Bytes, payloads: seq<Bytes>)
    requires (forall p :: p in payloads ==> Short(p)) && b <= Stream(payloads)
    ensures |b| >= 4 ==> 4 + ToInt(ReadHeader(b)) <= MAX_INT && ReadHeader(b) != U32 - 4
    ensures Front(b).Some? ==> |b| >= 4
  {
    if |b| >= 4 {
      StreamHeader(payloads);
      hide ReadHeader, Stream;
      assert payloads[0] in payloads;
      SameHeader(b, Stream(payloads));
    }
  }

  lemma StreamHeader(payloads: seq<Bytes>)
    requires payloads != [] ==> Short(payloads[0])
    ensures |Stream(payloads)| >= 4 ==> payloads != [] && ReadHeader(Stream(payloads)) == |payloads[0]|
  {
    hide Header, ReadHeader, Frame;
    if payloads != [] {
      var p, rest := payloads[0], Stream(payloads[1..]);
      FrameHeader(p);
      HeaderRoundTrip(|p|, p + rest);
      assert (Header(|p|) + p) + rest == Header(|p|) + (p + rest);
    }
  }

  lemma {:induction false} StreamSplit(payloads: seq<Bytes>, k: nat)
    requires k <= |payloads|
    ensures Stream(payloads) == Stream(payloads[..k]) + Stream(payloads[k..])
  {
    if k > 0 {
      StreamSplit(payloads[1..], k - 1);
      assert payloads[..k][1..] == payloads[1..][..k - 1] && payloads[1..][k - 1..] == payloads[k..];
    }
  }

  lemma PrefixTail(a: Bytes, b: Bytes, c: Bytes)
    requires a + b <= a + c
    ensures b <= c
  {
    assert b == (a + b)[|a|..] && c == (a + c)[|a|..];
  }

  /** Of a sender's payloads the first k have been handled, and the buffer is the part of the stream that
      came after them, without a complete frame. */
  ghost predicate Received<M>(
      decode: Bytes -> Option<M>, payloads: seq<Bytes>, arrived: Bytes, k: nat, handled: seq<M>, buffer: Bytes) {
    && k <= |payloads| && handled == Decoded(decode, payloads[..k])
    && arrived == Stream(payloads[..k]) + buffer && buffer <= Stream(payloads[k..])
    && (k < |payloads| ==> |buffer| < |Frame(payloads[k])|)
  }

  /** One more read. */
  lemma ReadMore<M>(
      decode: Bytes -> Option<M>, payloads: seq<Bytes>, arrived: Bytes, read: Bytes, k: nat, handled: seq<M>,
      buffer: Bytes) returns (n: nat)
    requires (forall p :: p in payloads ==> Short(p)) && arrived + read <= Stream(payloads)
    requires Received(decode, payloads, arrived, k, handled, buffer)
    ensures Parsable(buffer + read)
    ensures Received(decode, payloads, arrived + read, n,
              handled + Decoded(decode, Payloads(buffer + read)), LeftOver(buffer + read))
  {
    hide Stream, Decoded, Frame, Parsable, Payloads, LeftOver;
    StreamSplit(payloads, k);
    assert arrived + read == Stream(payloads[..k]) + (buffer + read);
    PrefixTail(Stream(payloads[..k]), buffer + read, Stream(payloads[k..]));
    StreamParsed(buffer + read, payloads[k..]);
    var m := |Payloads(buffer + read)|;
    n := k + m;
    var t := payloads[..n];
    assert t[..k] == payloads[..k] && t[k..] == payloads[k..n] == payloads[k..][..m];
    assert t == payloads[..k] + payloads[k..][..m];
    DecodedAppend(decode, payloads[..k], payloads[k..][..m]);
    StreamSplit(t, k);
    assert payloads[k..][m..] == payloads[n..];
  }

  /** Fragmentation does not matter: however the stream of the frames is cut into reads, once all
      of it has arrived exactly the decodable payloads have been handled, in order, and the
      buffer is empty. */
  method Deliver<M>(decode: Bytes -> Option<M>, payloads: seq<Bytes>, pieces: seq<Bytes>)
    returns (handled: seq<M>, left: Bytes)
    requires (forall p :: p in payloads ==> Short(p)) && Concat(pieces) == Stream(payloads)
    ensures handled == Decoded(decode, payloads) && left == []
  {
    hide Received, Parsable, Decoded, Stream;
    var receiver := new MessageProtocol(decode);
    ghost var k := 0;
    NothingReceived(decode, payloads);
    for i := 0 to |pieces|
      invariant receiver.decode == decode
      invariant Received(decode, payloads, Concat(pieces[..i]), k, receiver.handled, receiver.buffer)
    {
      assert pieces == pieces[..i + 1] + pieces[i + 1..] && pieces[..i + 1] == pieces[..i] + [pieces[i]];
      ConcatSnoc(pieces[..i], pieces[i]);
      ConcatAppend(pieces[..i + 1], pieces[i + 1..]);
      k := ReadMore(decode, payloads, Concat(pieces[..i]), pieces[i], k, receiver.handled, receiver.buffer);
      receiver.ProcessBuffer(pieces[i]);
    }
    assert pieces[..|pieces|] == pieces;
    AllArrived(decode, payloads, k, receiver.handled, receiver.buffer);
    handled, left := receiver.handled, receiver.buffer;
  }

  lemma NothingReceived<M>(decode: Bytes -> Option<M>, payloads: seq<Bytes>)
    ensures Received(decode, payloads, Concat([]), 0, [], [])
  {
    assert payloads[..0] == [] && payloads[0..] == payloads;
  }

  lemma StreamLong(payloads: seq<Bytes>)
    ensures payloads != [] ==> |Stream(payloads)| >= |Frame(payloads[0])|
  {
  }

  /** When the whole stream has arrived nothing is left over. */
  lemma AllArrived<M>(decode: Bytes -> Option<M>, payloads: seq<Bytes>, k: nat, handled: seq<M>, buffer: Bytes)
    requires Received(decode, payloads, Stream(payloads), k, handled, buffer)
    ensures handled == Decoded(decode, payloads) && buffer == []
  {
    StreamSplit(payloads, k);
    assert buffer == Stream(payloads[k..]);
    StreamLong(payloads[k..]);
    assert payloads[..|payloads|] == payloads;
  }
}
