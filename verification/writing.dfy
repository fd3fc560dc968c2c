/** What the two writers do about a payload over the limit, and what of it the other side reads. The server's limit is
    configured and the add-on's is fixed, so the two sides may differ. */
module Writing {
  import opened Wrappers
  import opened Framing

  ghost predicate Sized(payloads: seq<seq<Byte>>)
  {
    forall k | 0 <= k < |payloads| :: |payloads[k]| < U32
  }

  // ---------------------------------------------------------------------------
  // The server's writer
  // ---------------------------------------------------------------------------

  /** What the server's write loop puts on the stream: it ends at the first payload it refuses. */
  function ServerWritten(payloads: seq<seq<Byte>>, limit: nat): seq<Byte>
    requires limit < U32
  {
    if payloads == [] then []
    else
      match Encoded(payloads[0], limit)
      case Some(frame) => frame + ServerWritten(payloads[1..], limit)
      case None => []
  }

  /** The write loop over a queue; `unsent` is what it leaves there when it ends. */
  method ServerWriteLoop(queue: seq<seq<Byte>>, limit: nat) returns (stream: seq<Byte>, unsent: seq<seq<Byte>>)
    requires limit < U32
    ensures stream == ServerWritten(queue, limit)
    ensures unsent == [] || |unsent[0]| > limit
    ensures |unsent| == |queue| - |UpTo(queue, limit)| && unsent == queue[|queue| - |unsent|..]
  {
    stream, unsent := [], queue;
    while unsent != []
      invariant |unsent| <= |queue| && unsent == queue[|queue| - |unsent|..]
      invariant stream + ServerWritten(unsent, limit) == ServerWritten(queue, limit)
      invariant |queue| - |unsent| + |UpTo(unsent, limit)| == |UpTo(queue, limit)|
      decreases |unsent|
    {
      var frame := Encoded(unsent[0], limit);
      if frame.None? {
        break;
      }
      assert stream + (frame.value + ServerWritten(unsent[1..], limit)) == stream + frame.value + ServerWritten(unsent[1..], limit);
      stream, unsent := stream + frame.value, unsent[1..];
    }
    assert stream + [] == stream;
  }

  lemma {:induction false} ServerWritesUpTo(payloads: seq<seq<Byte>>, limit: nat)
    requires limit < U32
    ensures ServerWritten(payloads, limit) == EncodedAll(UpTo(payloads, limit))
  {
    if payloads != [] && |payloads[0]| <= limit {
      ServerWritesUpTo(payloads[1..], limit);
      assert UpTo(payloads, limit)[1..] == UpTo(payloads[1..], limit);
    }
  }

  lemma {:induction false} UpToBoth(payloads: seq<seq<Byte>>, one: nat, other: nat)
    ensures UpTo(UpTo(payloads, one), other) == UpTo(payloads, Min(one, other))
  {
    if payloads != [] && |payloads[0]| <= one {
      UpToBoth(payloads[1..], one, other);
      assert UpTo(payloads, one)[1..] == UpTo(payloads[1..], one);
    }
  }

  /** What the add-on reads of all that the server was handed: the payloads before the first one over either limit. The
      add-on gives the connection up exactly when that one is within the server's limit and over its own. */
  lemma ServerStreamArrives<M>(payloads: seq<seq<Byte>>, mine: nat, theirs: nat, decode: seq<Byte> -> Option<M>)
    requires mine < U32
    ensures var (messages, end) := ReadAll(ServerWritten(payloads, mine), theirs, decode);
            var n := |UpTo(payloads, Min(mine, theirs))|;
            && messages == Messages(payloads[..n], decode)
            && end == if n < |payloads| && |payloads[n]| <= mine then Oversized(|payloads[n]|) else Lost
  {
    var sent := UpTo(payloads, mine);
    ServerWritesUpTo(payloads, mine);
    WholeStreamRoundTrips(sent, theirs, decode);
    UpToBoth(payloads, mine, theirs);
    var n := |UpTo(payloads, Min(mine, theirs))|;
    assert payloads[..n] == UpTo(payloads, Min(mine, theirs));
    if n < |sent| { assert sent[n] == payloads[n]; }
  }

  ghost predicate AreMessages<M(!new)>(payloads: seq<seq<Byte>>, decode: seq<Byte> -> Option<M>)
  {
    forall k | 0 <= k < |payloads| :: payloads[k] != [] && decode(payloads[k]).Some?
  }

  lemma {:induction false} EachIsOne<M(!new)>(payloads: seq<seq<Byte>>, decode: seq<Byte> -> Option<M>)
    requires AreMessages(payloads, decode)
    ensures |Messages(payloads, decode)| == |payloads|
  {
    if payloads != [] { EachIsOne(payloads[1..], decode); }
  }

  /** The exact condition: everything the server was handed arrives if and only if nothing in it is over either limit. One
      payload that is costs itself and all that is queued behind it. */
  lemma AllArrivesExactlyWhenNoneIsOver<M(!new)>(payloads: seq<seq<Byte>>, mine: nat, theirs: nat, decode: seq<Byte> -> Option<M>)
    requires mine < U32 && AreMessages(payloads, decode)
    ensures ReadAll(ServerWritten(payloads, mine), theirs, decode).0 == Messages(payloads, decode)
       <==> Fit(payloads, Min(mine, theirs))
  {
    var n := |UpTo(payloads, Min(mine, theirs))|;
    ServerStreamArrives(payloads, mine, theirs, decode);
    EachIsOne(payloads, decode);
    EachIsOne(payloads[..n], decode);
    assert payloads[..|payloads|] == payloads;
    if n == |payloads| {
      assert forall k | 0 <= k < n :: |UpTo(payloads, Min(mine, theirs))[k]| <= Min(mine, theirs);
    }
  }

  // ---------------------------------------------------------------------------
  // The add-on's writer
  // ---------------------------------------------------------------------------

  /** A frame the add-on's writer takes: its payload, and the error it would send instead when it has a request. */
  datatype Outgoing = Outgoing(payload: seq<Byte>, instead: Option<seq<Byte>>)

  /** What is sent for one frame, if the writer goes on: the frame, the error in its place, or nothing. */
  datatype Put = Sends(payloads: seq<seq<Byte>>) | Ends

  function PutFor(f: Outgoing, limit: nat): (put: Put)
    ensures put.Sends? ==> forall k | 0 <= k < |put.payloads| :: |put.payloads[k]| <= limit
  {
    if |f.payload| <= limit then Sends([f.payload])
    else if f.instead.None? then Sends([])
    else if |f.instead.value| <= limit then Sends([f.instead.value])
    else Ends
  }

  /** The payloads the add-on's writer sends for these frames. */
  function Carried(frames: seq<Outgoing>, limit: nat): (r: seq<seq<Byte>>)
    ensures forall k | 0 <= k < |r| :: |r[k]| <= limit
  {
    if frames == [] then []
    else
      match PutFor(frames[0], limit)
      case Sends(payloads) => payloads + Carried(frames[1..], limit)
      case Ends => []
  }

  lemma CarriedFirst(frames: seq<Outgoing>, limit: nat)
    requires frames != [] && PutFor(frames[0], limit).Sends?
    ensures Carried(frames, limit) == PutFor(frames[0], limit).payloads + Carried(frames[1..], limit)
  {
  }

  lemma EncodedAllJoins(a: seq<seq<Byte>>, b: seq<seq<Byte>>)
    requires Sized(a) && Sized(b)
    ensures Sized(a + b) && EncodedAll(a + b) == EncodedAll(a) + EncodedAll(b)
  {
    if a == [] {
      assert a + b == b;
    } else {
      EncodedAllJoins(a[1..], b);
      assert (a + b)[1..] == a[1..] + b;
    }
  }

  lemma EncodedOne(payload: seq<Byte>)
    requires |payload| < U32
    ensures EncodedAll([payload]) == Header(|payload|) + payload
  {
    assert [payload][1..] == [];
  }

  /** One frame of the write loop: a frame over the limit is replaced by an error for its request, or left out when it has
      none; an error that is itself refused ends the writer. */
  method WriteOne(f: Outgoing, limit: nat) returns (bytes: seq<Byte>, ends: bool)
    requires limit < U32
    ensures ends == PutFor(f, limit).Ends?
    ensures !ends ==> bytes == EncodedAll(PutFor(f, limit).payloads)
  {
    bytes, ends := [], false;
    var frame := Encoded(f.payload, limit);
    if frame.Some? {
      EncodedOne(f.payload);
      bytes := frame.value;
    } else if f.instead.Some? {
      var error := Encoded(f.instead.value, limit);
      if error.Some? {
        EncodedOne(f.instead.value);
        bytes := error.value;
      } else {
        ends := true;
      }
    }
  }

  method AddonWriteLoop(frames: seq<Outgoing>, limit: nat) returns (stream: seq<Byte>)
    requires limit < U32
    ensures stream == EncodedAll(Carried(frames, limit))
  {
    hide EncodedAll, Carried, PutFor;
    NothingCarried(limit);
    stream := [];
    ghost var sent: seq<seq<Byte>> := [];
    var k := 0;
    assert frames[0..] == frames && sent + Carried(frames, limit) == Carried(frames, limit);
    while k < |frames|
      invariant k <= |frames| && Sized(sent) && stream == EncodedAll(sent)
      invariant sent + Carried(frames[k..], limit) == Carried(frames, limit)
    {
      CarriedNext(sent, frames[k..], limit);
      assert frames[k..][1..] == frames[k + 1..];
      var bytes, ends := WriteOne(frames[k], limit);
      if ends {
        return;
      }
      ghost var more := PutFor(frames[k], limit).payloads;
      EncodedAllJoins(sent, more);
      stream, sent, k := stream + bytes, sent + more, k + 1;
    }
    assert frames[k..] == [] && sent + [] == sent;
  }

  lemma NothingCarried(limit: nat)
    ensures Carried([], limit) == [] && EncodedAll([]) == []
  {
  }

  lemma CarriedNext(sent: seq<seq<Byte>>, frames: seq<Outgoing>, limit: nat)
    requires frames != []
    ensures match PutFor(frames[0], limit)
            case Sends(payloads) => sent + Carried(frames, limit) == sent + payloads + Carried(frames[1..], limit)
            case Ends => sent + Carried(frames, limit) == sent
  {
    assert sent + [] == sent;
    if PutFor(frames[0], limit).Sends? {
      CarriedFirst(frames, limit);
      assert sent + (PutFor(frames[0], limit).payloads + Carried(frames[1..], limit))
          == sent + PutFor(frames[0], limit).payloads + Carried(frames[1..], limit);
    }
  }

  /** How the server finds the stream of these frames to end. */
  lemma {:induction false} ServerFindsTheEnd<M>(payloads: seq<seq<Byte>>, limit: nat, decode: seq<Byte> -> Option<M>)
    requires Sized(payloads)
    ensures ServerReadAll(EncodedAll(payloads), limit, decode).1
         == match EndOf(payloads, limit) case Lost => PeerClosed case Oversized(size) => FrameTooLarge(size)
  {
    if payloads != [] {
      var first, others := payloads[0], payloads[1..];
      var tail := EncodedAll(others);
      assert EncodedAll(payloads) == Header(|first|) + first + tail;
      FirstFrame(first, tail);
      if |first| <= limit {
        ServerFindsTheEnd(others, limit, decode);
        assert UpTo(payloads, limit) == [first] + UpTo(others, limit);
      }
    }
  }

  /** What the server reads of all that the add-on's writer took: what was carried, up to the first payload over its own
      limit, which ends the connection. */
  lemma AddonStreamArrives<M>(frames: seq<Outgoing>, mine: nat, theirs: nat, decode: seq<Byte> -> Option<M>)
    requires mine < U32 && decode([]) == None
    ensures var carried := Carried(frames, mine);
            var (messages, end) := ServerReadAll(EncodedAll(carried), theirs, decode);
            var n := |UpTo(carried, theirs)|;
            && messages == Messages(carried[..n], decode)
            && end == if n < |carried| then FrameTooLarge(|carried[n]|) else PeerClosed
  {
    var carried := Carried(frames, mine);
    WholeStreamRoundTrips(carried, theirs, decode);
    ReadersInteroperate(EncodedAll(carried), theirs, decode);
    ServerFindsTheEnd(carried, theirs, decode);
  }

  function Payloads(frames: seq<Outgoing>): seq<seq<Byte>>
  {
    if frames == [] then [] else [frames[0].payload] + Payloads(frames[1..])
  }

  lemma {:induction false} CarriedIsNoLonger(frames: seq<Outgoing>, limit: nat)
    ensures |Carried(frames, limit)| <= |frames| == |Payloads(frames)|
  {
    if frames != [] { CarriedIsNoLonger(frames[1..], limit); }
  }

  /** The exact condition: the writer carries the frames as they are if and only if none is over its limit. */
  lemma {:induction false} CarriedAsTheyAreExactlyWhenNoneIsOver(frames: seq<Outgoing>, limit: nat)
    ensures Carried(frames, limit) == Payloads(frames) <==> Fit(Payloads(frames), limit)
  {
    if frames != [] {
      var first, others := frames[0], frames[1..];
      CarriedAsTheyAreExactlyWhenNoneIsOver(others, limit);
      CarriedIsNoLonger(others, limit);
      var all := Payloads(frames);
      assert all[0] == first.payload && all[1..] == Payloads(others);
      if |first.payload| <= limit {
        CarriedFirst(frames, limit);
        assert Carried(frames, limit)[1..] == Carried(others, limit);
        assert forall k | 0 <= k < |all| - 1 :: all[k + 1] == Payloads(others)[k];
      }
    }
  }
}
