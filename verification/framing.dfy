/** Length-prefixed framing over a byte stream, on both sides of the wire. */
module Framing {
  import opened Wrappers

  type Byte = b: nat | b < 256

  const HEADER_LEN: nat := 4
  const MAX_FRAME_BYTES: nat := 16 * 1024 * 1024
  const U32: nat := 0x1_0000_0000

  // ---------------------------------------------------------------------------
  // The header
  // ---------------------------------------------------------------------------

  /** Four bytes, most significant first. */
  function Header(size: nat): (h: seq<Byte>)
    requires size < U32
    ensures |h| == HEADER_LEN
  {
    [size / 0x100_0000, size / 0x1_0000 % 256, size / 256 % 256, size % 256]
  }

  function SizeOf(h: seq<Byte>): (size: nat)
    requires |h| == HEADER_LEN
    ensures size < U32
  {
    (((h[0] as int) * 256 + h[1]) * 256 + h[2]) * 256 + h[3]
  }

  lemma HeaderDecodes(size: nat)
    requires size < U32
    ensures SizeOf(Header(size)) == size
  {
    var a, b := size / 256, size / 0x1_0000;
    assert size == a * 256 + size % 256;
    assert a / 256 == b && a == b * 256 + a % 256;
    assert b / 256 == size / 0x100_0000 && b == b / 256 * 256 + b % 256;
  }

  lemma SizeEncodes(h: seq<Byte>)
    requires |h| == HEADER_LEN
    ensures Header(SizeOf(h)) == h
  {
    var c: int := (h[0] as int) * 256 + h[1];
    var d: int := c * 256 + h[2];
    var size: int := d * 256 + h[3];
    assert size / 256 == d && size % 256 == h[3];
    assert d / 256 == c && d % 256 == h[2];
    assert c / 256 == h[0] && c % 256 == h[1];
    assert size / 0x1_0000 == size / 256 / 256 && size / 0x100_0000 == size / 256 / 256 / 256;
  }

  // ---------------------------------------------------------------------------
  // Writing
  // ---------------------------------------------------------------------------

  /** One frame, or a refusal when the payload is over the limit. Both sides encode like this; they differ in what they do
      about a refusal. */
  function Encoded(payload: seq<Byte>, limit: nat): Option<seq<Byte>>
    requires limit < U32
  {
    if |payload| > limit then None else Some(Header(|payload|) + payload)
  }

  ghost predicate Fit(payloads: seq<seq<Byte>>, limit: nat)
  {
    forall k | 0 <= k < |payloads| :: |payloads[k]| <= limit
  }

  function EncodedAll(payloads: seq<seq<Byte>>): seq<Byte>
    requires forall k | 0 <= k < |payloads| :: |payloads[k]| < U32
  {
    if payloads == [] then [] else Header(|payloads[0]|) + payloads[0] + EncodedAll(payloads[1..])
  }

  // ---------------------------------------------------------------------------
  // Reading, as a function of the bytes that will arrive
  // ---------------------------------------------------------------------------

  /** One attempt to read a frame. */
  datatype Read<+M> = Frame(message: M) | Malformed | TooLarge(size: nat) | Closed

  /** The add-on's `read_frame`: what it answers, and the bytes it leaves. */
  function ReadFrame<M>(bytes: seq<Byte>, limit: nat, decode: seq<Byte> -> Option<M>): (Read<M>, seq<Byte>)
  {
    if |bytes| < HEADER_LEN then (Closed, [])
    else
      var size, rest := SizeOf(bytes[..HEADER_LEN]), bytes[HEADER_LEN..];
      if size > limit then (TooLarge(size), rest)
      else if size == 0 then (Malformed, rest)
      else if |rest| < size then (Closed, [])
      else
        match decode(rest[..size])
        case Some(m) => (Frame(m), rest[size..])
        case None => (Malformed, rest[size..])
  }

  /** Why a read loop ends. */
  datatype End = Lost | Oversized(size: nat)

  /** The add-on's read loop: a malformed frame costs only itself. */
  function ReadAll<M>(bytes: seq<Byte>, limit: nat, decode: seq<Byte> -> Option<M>): (seq<M>, End)
    decreases |bytes|
  {
    var (read, rest) := ReadFrame(bytes, limit, decode);
    match read
    case Closed => ([], Lost)
    case TooLarge(size) => ([], Oversized(size))
    case Malformed => ReadAll(rest, limit, decode)
    case Frame(m) => var (more, end) := ReadAll(rest, limit, decode); ([m] + more, end)
  }

  /** The messages of a list of payloads: empty and undecodable ones are skipped. */
  function Messages<M>(payloads: seq<seq<Byte>>, decode: seq<Byte> -> Option<M>): seq<M>
  {
    if payloads == [] then []
    else
      (if payloads[0] != [] && decode(payloads[0]).Some? then [decode(payloads[0]).value] else [])
      + Messages(payloads[1..], decode)
  }

  /** How many whole frames lie within the first `n` bytes. */
  function WholeFrames(payloads: seq<seq<Byte>>, n: nat): (k: nat)
    ensures k <= |payloads|
  {
    if payloads == [] || n < HEADER_LEN + |payloads[0]| then 0
    else 1 + WholeFrames(payloads[1..], n - HEADER_LEN - |payloads[0]|)
  }

  lemma FirstFrame(payload: seq<Byte>, rest: seq<Byte>)
    requires |payload| < U32
    ensures var bytes := Header(|payload|) + payload + rest;
            && bytes[..HEADER_LEN] == Header(|payload|) && bytes[HEADER_LEN..] == payload + rest
            && (payload + rest)[..|payload|] == payload && (payload + rest)[|payload|..] == rest
            && SizeOf(bytes[..HEADER_LEN]) == |payload|
  {
    HeaderDecodes(|payload|);
    var bytes := Header(|payload|) + payload + rest;
    assert bytes[..HEADER_LEN] == Header(|payload|);
    assert bytes[HEADER_LEN..] == payload + rest;
  }

  lemma ReadsFirst<M>(payload: seq<Byte>, rest: seq<Byte>, limit: nat, decode: seq<Byte> -> Option<M>)
    requires |payload| <= limit < U32
    ensures ReadFrame(Header(|payload|) + payload + rest, limit, decode)
         == (if payload == [] || decode(payload).None? then Malformed else Frame(decode(payload).value), rest)
  {
    FirstFrame(payload, rest);
    assert payload == [] ==> payload + rest == rest;
  }

  /** A stream cut anywhere yields exactly the messages of its whole frames, in order, and then the end of the stream. */
  lemma {:induction false} CutStreamYieldsWholeFrames<M>(
    payloads: seq<seq<Byte>>, n: nat, limit: nat, decode: seq<Byte> -> Option<M>)
    requires limit < U32 && Fit(payloads, limit) && n <= |EncodedAll(payloads)|
    ensures ReadAll(EncodedAll(payloads)[..n], limit, decode)
         == (Messages(payloads[..WholeFrames(payloads, n)], decode), Lost)
    decreases |payloads|
  {
    hide ReadAll, EncodedAll, Messages, WholeFrames, Header;
    if payloads == [] {
      NothingYieldsNothing(payloads, n, limit, decode);
    } else if n < HEADER_LEN + |payloads[0]| {
      CutFrameYieldsNothing(payloads, n, limit, decode);
    } else {
      var first, others := payloads[0], payloads[1..];
      CutAfterFirst(payloads, n);
      var m := n - HEADER_LEN - |first|;
      var k := WholeFrames(others, m);
      CutStreamYieldsWholeFrames(others, m, limit, decode);
      ReadsOn(first, EncodedAll(others)[..m], limit, decode);
      MessagesFirst(first, others[..k], decode);
      assert payloads[..k + 1] == [first] + others[..k];
    }
  }

  lemma NothingYieldsNothing<M>(payloads: seq<seq<Byte>>, n: nat, limit: nat, decode: seq<Byte> -> Option<M>)
    requires payloads == [] && n <= |EncodedAll(payloads)|
    ensures ReadAll(EncodedAll(payloads)[..n], limit, decode) == (Messages(payloads[..WholeFrames(payloads, n)], decode), Lost)
  {
  }

  lemma CutAfterFirst(payloads: seq<seq<Byte>>, n: nat)
    requires payloads != [] && (forall k | 0 <= k < |payloads| :: |payloads[k]| < U32)
    requires HEADER_LEN + |payloads[0]| <= n <= |EncodedAll(payloads)|
    ensures var first, others := payloads[0], payloads[1..];
            var m := n - HEADER_LEN - |first|;
            && m <= |EncodedAll(others)| && WholeFrames(payloads, n) == 1 + WholeFrames(others, m)
            && EncodedAll(payloads)[..n] == Header(|first|) + first + EncodedAll(others)[..m]
  {
  }

  lemma CutFrameYieldsNothing<M>(payloads: seq<seq<Byte>>, n: nat, limit: nat, decode: seq<Byte> -> Option<M>)
    requires payloads != [] && limit < U32 && Fit(payloads, limit) && n < HEADER_LEN + |payloads[0]|
    requires n <= |EncodedAll(payloads)|
    ensures ReadAll(EncodedAll(payloads)[..n], limit, decode) == (Messages(payloads[..WholeFrames(payloads, n)], decode), Lost)
  {
    var bytes := EncodedAll(payloads)[..n];
    if n >= HEADER_LEN {
      assert bytes[..HEADER_LEN] == Header(|payloads[0]|);
      HeaderDecodes(|payloads[0]|);
    }
  }

  lemma MessagesFirst<M>(first: seq<Byte>, others: seq<seq<Byte>>, decode: seq<Byte> -> Option<M>)
    ensures Messages([first] + others, decode)
         == (if first != [] && decode(first).Some? then [decode(first).value] else []) + Messages(others, decode)
  {
    assert ([first] + others)[1..] == others;
  }

  /** The payloads before the first one over the limit. */
  function UpTo(payloads: seq<seq<Byte>>, limit: nat): (r: seq<seq<Byte>>)
    ensures |r| <= |payloads| && r == payloads[..|r|] && forall k | 0 <= k < |r| :: |r[k]| <= limit
    ensures |r| < |payloads| ==> |payloads[|r|]| > limit
  {
    if payloads == [] || |payloads[0]| > limit then [] else [payloads[0]] + UpTo(payloads[1..], limit)
  }

  /** How a reader with this limit finds the stream of these frames to end. */
  function EndOf(payloads: seq<seq<Byte>>, limit: nat): End
  {
    var n := |UpTo(payloads, limit)|;
    if n < |payloads| then Oversized(|payloads[n]|) else Lost
  }

  lemma ReadStops<M>(payload: seq<Byte>, rest: seq<Byte>, limit: nat, decode: seq<Byte> -> Option<M>)
    requires limit < |payload| < U32
    ensures ReadAll(Header(|payload|) + payload + rest, limit, decode) == ([], Oversized(|payload|))
  {
    FirstFrame(payload, rest);
  }

  /** Round trip of any frames at all, against any reader's limit: what is read is what stands before the first frame over
      the limit, whole and in order; and the stream ends there, or where it ends. */
  lemma {:induction false} WholeStreamRoundTrips<M>(payloads: seq<seq<Byte>>, limit: nat, decode: seq<Byte> -> Option<M>)
    requires forall k | 0 <= k < |payloads| :: |payloads[k]| < U32
    ensures ReadAll(EncodedAll(payloads), limit, decode) == (Messages(UpTo(payloads, limit), decode), EndOf(payloads, limit))
  {
    if payloads != [] {
      var first, others := payloads[0], payloads[1..];
      var tail := EncodedAll(others);
      assert EncodedAll(payloads) == Header(|first|) + first + tail;
      if |first| > limit {
        ReadStops(first, tail, limit, decode);
      } else {
        WholeStreamRoundTrips(others, limit, decode);
        ReadsOn(first, tail, limit, decode);
        var ahead := UpTo(others, limit);
        assert UpTo(payloads, limit) == [first] + ahead;
        assert ([first] + ahead)[1..] == ahead;
        assert EndOf(payloads, limit) == EndOf(others, limit);
      }
    }
  }

  /** A frame within the limit gives its message, if it is one, and leaves the rest. */
  lemma ReadsOn<M>(payload: seq<Byte>, rest: seq<Byte>, limit: nat, decode: seq<Byte> -> Option<M>)
    requires |payload| <= limit && |payload| < U32
    ensures var (more, end) := ReadAll(rest, limit, decode);
            ReadAll(Header(|payload|) + payload + rest, limit, decode)
              == ((if payload != [] && decode(payload).Some? then [decode(payload).value] else []) + more, end)
  {
    FirstFrame(payload, rest);
    assert payload == [] ==> payload + rest == rest;
    var (more, end) := ReadAll(rest, limit, decode);
    assert [] + more == more;
  }

  /** A writer refuses exactly the payloads that, sent all the same, would end the reader's stream. */
  lemma RefusedExactlyWhenFatal<M>(payload: seq<Byte>, rest: seq<Byte>, limit: nat, decode: seq<Byte> -> Option<M>)
    requires limit < U32 && |payload| < U32
    ensures Encoded(payload, limit).None?
       <==> ReadAll(Header(|payload|) + payload + rest, limit, decode) == ([], Oversized(|payload|))
  {
    FirstFrame(payload, rest);
    if |payload| <= limit {
      ReadsFirst(payload, rest, limit, decode);
      OversizedAreOver(rest, limit, decode);
    }
  }

  lemma {:induction false} OversizedAreOver<M>(bytes: seq<Byte>, limit: nat, decode: seq<Byte> -> Option<M>)
    ensures var end := ReadAll(bytes, limit, decode).1; end.Oversized? ==> end.size > limit
    decreases |bytes|
  {
    var (read, rest) := ReadFrame(bytes, limit, decode);
    if read.Malformed? || read.Frame? { OversizedAreOver(rest, limit, decode); }
  }

  // ---------------------------------------------------------------------------
  // The server's reader
  // ---------------------------------------------------------------------------

  datatype FrameError = PeerClosed | Truncated(expected: nat) | FrameTooLarge(size: nat) | BadMessage

  predicate IsFatal(e: FrameError)
  {
    !e.BadMessage?
  }

  datatype Received<+M> = Message(message: M) | Error(error: FrameError)

  /** The server's `read_frame`: an empty payload is decoded like any other, and a cut payload is told from a cut header. */
  function ServerRead<M>(bytes: seq<Byte>, limit: nat, decode: seq<Byte> -> Option<M>): (Received<M>, seq<Byte>)
  {
    if |bytes| < HEADER_LEN then (Error(PeerClosed), [])
    else
      var size, rest := SizeOf(bytes[..HEADER_LEN]), bytes[HEADER_LEN..];
      if size > limit then (Error(FrameTooLarge(size)), rest)
      else if |rest| < size then (Error(Truncated(size)), [])
      else
        match decode(rest[..size])
        case Some(m) => (Message(m), rest[size..])
        case None => (Error(BadMessage), rest[size..])
  }

  function ServerReadAll<M>(bytes: seq<Byte>, limit: nat, decode: seq<Byte> -> Option<M>): (seq<M>, FrameError)
    decreases |bytes|
  {
    var (received, rest) := ServerRead(bytes, limit, decode);
    match received
    case Message(m) => var (more, end) := ServerReadAll(rest, limit, decode); ([m] + more, end)
    case Error(e) => if IsFatal(e) then ([], e) else ServerReadAll(rest, limit, decode)
  }

  ghost predicate SameEnd(end: End, error: FrameError)
  {
    match end
    case Lost => error.PeerClosed? || error.Truncated?
    case Oversized(size) => error == FrameTooLarge(size)
  }

  /** On any bytes at all the two readers yield the same messages and stop for the same reason, as long as an empty
      payload is no message. */
  lemma {:induction false} ReadersInteroperate<M>(bytes: seq<Byte>, limit: nat, decode: seq<Byte> -> Option<M>)
    requires decode([]) == None
    ensures ReadAll(bytes, limit, decode).0 == ServerReadAll(bytes, limit, decode).0
    ensures SameEnd(ReadAll(bytes, limit, decode).1, ServerReadAll(bytes, limit, decode).1)
    decreases |bytes|
  {
    if |bytes| >= HEADER_LEN {
      var size, rest := SizeOf(bytes[..HEADER_LEN]), bytes[HEADER_LEN..];
      if size <= limit && |rest| >= size {
        assert size == 0 ==> rest[..size] == [] && rest[size..] == rest;
        ReadersInteroperate(rest[size..], limit, decode);
      }
    }
  }

  /** The bytes after the last whole frame. */
  function Remainder(payloads: seq<seq<Byte>>, n: nat): nat
  {
    if payloads == [] || n < HEADER_LEN + |payloads[0]| then n
    else Remainder(payloads[1..], n - HEADER_LEN - |payloads[0]|)
  }

  /** The server reports a cut stream as closed cleanly exactly when fewer than four bytes of the next frame arrived:
      a stream cut inside a header is not told apart from one cut between frames. */
  lemma {:induction false} CleanCloseExactlyWithinHeader<M>(
    payloads: seq<seq<Byte>>, n: nat, limit: nat, decode: seq<Byte> -> Option<M>)
    requires limit < U32 && Fit(payloads, limit) && n <= |EncodedAll(payloads)|
    ensures var end := ServerReadAll(EncodedAll(payloads)[..n], limit, decode).1;
            && (end.PeerClosed? || end.Truncated?)
            && (end.PeerClosed? <==> Remainder(payloads, n) < HEADER_LEN)
    decreases |payloads|
  {
    hide ServerReadAll, EncodedAll, Header, WholeFrames;
    if payloads != [] && n >= HEADER_LEN + |payloads[0]| {
      var first, others := payloads[0], payloads[1..];
      var m := n - HEADER_LEN - |first|;
      CutAfterFirst(payloads, n);
      CleanCloseExactlyWithinHeader(others, m, limit, decode);
      ServerReadsOn(first, EncodedAll(others)[..m], limit, decode);
    } else {
      CutFrameCloses(payloads, n, limit, decode);
    }
  }

  lemma ServerReadsOn<M>(payload: seq<Byte>, rest: seq<Byte>, limit: nat, decode: seq<Byte> -> Option<M>)
    requires |payload| <= limit < U32
    ensures ServerReadAll(Header(|payload|) + payload + rest, limit, decode).1 == ServerReadAll(rest, limit, decode).1
  {
    FirstFrame(payload, rest);
  }

  lemma CutFrameCloses<M>(payloads: seq<seq<Byte>>, n: nat, limit: nat, decode: seq<Byte> -> Option<M>)
    requires limit < U32 && Fit(payloads, limit) && n <= |EncodedAll(payloads)|
    requires payloads == [] || n < HEADER_LEN + |payloads[0]|
    ensures var end := ServerReadAll(EncodedAll(payloads)[..n], limit, decode).1;
            if n < HEADER_LEN then end.PeerClosed? else end.Truncated?
  {
    if n >= HEADER_LEN {
      assert EncodedAll(payloads)[..n][..HEADER_LEN] == Header(|payloads[0]|);
      HeaderDecodes(|payloads[0]|);
    }
  }

  // ---------------------------------------------------------------------------
  // The add-on's socket: short reads, timeouts, errors and stop requests
  // ---------------------------------------------------------------------------

  /** What one turn of the receive loop meets: a stop request at the poll, or what `recv` does. */
  datatype Turn = Data(bytes: seq<Byte>) | TimedOut | Failed | StopAsked

  /** The bytes that arrive before the connection is over for the reader. A `recv` of nothing is the peer closing. */
  function Arriving(script: seq<Turn>): seq<Byte>
  {
    if script == [] then []
    else match script[0]
      case Data(bytes) => if bytes == [] then [] else bytes + Arriving(script[1..])
      case TimedOut => Arriving(script[1..])
      case Failed => []
      case StopAsked => []
  }

  function Min(a: nat, b: nat): nat { if a <= b then a else b }

  class Socket {
    var script: seq<Turn>

    constructor (script: seq<Turn>)
      ensures this.script == script
    {
      this.script := script;
    }

    /** One turn: the poll for a stop, then one `recv` of at most `limit` bytes. An empty chunk is a timeout. */
    method Receive(limit: nat) returns (chunk: Option<seq<Byte>>)
      requires limit > 0
      modifies this
      ensures chunk.None? ==> Arriving(old(script)) == []
      ensures chunk.Some? ==> |chunk.value| <= limit && Arriving(old(script)) == chunk.value + Arriving(script)
      ensures |script| <= |old(script)| && (chunk == Some([]) ==> |script| < |old(script)|)
    {
      if script == [] || script[0].StopAsked? || script[0].Failed? {
        return None;
      }
      var turn := script[0];
      if turn.TimedOut? {
        script := script[1..];
        return Some([]);
      }
      if turn.bytes == [] {
        return None;
      }
      var take := Min(limit, |turn.bytes|);
      assert turn.bytes == turn.bytes[..take] + turn.bytes[take..];
      if take == |turn.bytes| {
        script := script[1..];
      } else {
        var rest := script[1..];
        script := [Data(turn.bytes[take..])] + rest;
        assert script[1..] == rest;
      }
      chunk := Some(turn.bytes[..take]);
    }

    /** Reads exactly `count` bytes, whatever pieces they come in. */
    method RecvExactly(count: nat) returns (result: Option<seq<Byte>>)
      modifies this
      ensures |Arriving(old(script))| >= count ==>
        result == Some(Arriving(old(script))[..count]) && Arriving(script) == Arriving(old(script))[count..]
      ensures |Arriving(old(script))| < count ==> result == None
    {
      var chunks: seq<Byte> := [];
      var remaining: nat := count;
      ghost var total := Arriving(script);
      while remaining > 0
        invariant |chunks| + remaining == count
        invariant chunks + Arriving(script) == total
        decreases remaining, |script|
      {
        var chunk := Receive(Min(remaining, 65536));
        if chunk.None? {
          return None;
        }
        assert chunks + (chunk.value + Arriving(script)) == chunks + chunk.value + Arriving(script);
        chunks := chunks + chunk.value;
        remaining := remaining - |chunk.value|;
      }
      assert total[..count] == chunks && total[count..] == Arriving(script);
      result := Some(chunks);
    }

    /** The socket's `read_frame` does to the arriving bytes what the function says, for every script. */
    method ReadOne<M>(limit: nat, decode: seq<Byte> -> Option<M>) returns (read: Read<M>)
      modifies this
      ensures read == ReadFrame(Arriving(old(script)), limit, decode).0
      ensures !read.Closed? ==> Arriving(script) == ReadFrame(Arriving(old(script)), limit, decode).1
    {
      var header := RecvExactly(HEADER_LEN);
      if header.None? {
        return Closed;
      }
      var size := SizeOf(header.value);
      if size > limit {
        return TooLarge(size);
      }
      if size == 0 {
        return Malformed;
      }
      var payload := RecvExactly(size);
      if payload.None? {
        return Closed;
      }
      match decode(payload.value) {
        case Some(m) => return Frame(m);
        case None => return Malformed;
      }
    }

    /** The read loop: for every split into short reads and timeouts, the same messages in the same order. */
    method ReadLoop<M>(limit: nat, decode: seq<Byte> -> Option<M>) returns (messages: seq<M>, end: End)
      modifies this
      ensures (messages, end) == ReadAll(Arriving(old(script)), limit, decode)
    {
      messages := [];
      ghost var all := ReadAll(Arriving(script), limit, decode);
      assert [] + all.0 == all.0;
      while true
        invariant all == (messages + ReadAll(Arriving(script), limit, decode).0, ReadAll(Arriving(script), limit, decode).1)
        decreases |Arriving(script)|
      {
        ghost var rest := ReadFrame(Arriving(script), limit, decode).1;
        var read := ReadOne(limit, decode);
        match read {
          case Closed =>
            assert messages + [] == messages;
            return messages, Lost;
          case TooLarge(size) =>
            assert messages + [] == messages;
            return messages, Oversized(size);
          case Malformed =>
          case Frame(m) =>
            assert messages + ([m] + ReadAll(rest, limit, decode).0) == messages + [m] + ReadAll(rest, limit, decode).0;
            messages := messages + [m];
        }
      }
    }
  }
}
