/** The writers' steps against the bytes: a run of one writer's steps that does with each payload what its size calls for
    puts on the wire what the write loop puts on the stream. */
module BridgeBytes {
  import opened Wrappers
  import opened Pending
  import opened Bridge
  import opened BridgeFields
  import A = AddOn
  import F = Framing
  import Wire = Writing

  /** What is written is read back. */
  predicate Reads<M(==)>(m: M, encode: M -> seq<F.Byte>, decode: seq<F.Byte> -> Option<M>)
  {
    encode(m) != [] && decode(encode(m)) == Some(m)
  }

  // ---------------------------------------------------------------------------
  // The server's writer task
  // ---------------------------------------------------------------------------

  function RequestBytes(rs: seq<A.Request>, encode: A.Request -> seq<F.Byte>): (r: seq<seq<F.Byte>>)
    ensures |r| == |rs| && forall k | 0 <= k < |r| :: r[k] == encode(rs[k])
  {
    seq(|rs|, k requires 0 <= k < |rs| => encode(rs[k]))
  }

  /** The size of the request at the head of the queue decides: it is transmitted, or the task breaks. */
  predicate TaskMay(c: Conn, a: ServerStep, encode: A.Request -> seq<F.Byte>, limit: nat)
  {
    c.outbound != [] && if |encode(c.outbound[0])| <= limit then a.Transmit? else a.WriterBreak?
  }

  /** A run of this task alone that does so. */
  ghost predicate TaskObeys(y: System, sid: SessionId, steps: seq<Step>, encode: A.Request -> seq<F.Byte>, limit: nat)
    ensures TaskObeys(y, sid, steps, encode, limit) ==> Runs(y, steps)
    decreases |steps|
  {
    steps == []
    || (&& steps[0].Server? && steps[0].session == sid && sid in y.conns && ServerEnabled(y, sid, steps[0].s)
        && TaskMay(y.conns[sid], steps[0].s, encode, limit)
        && TaskObeys(ServerAct(y, sid, steps[0].s), sid, steps[1..], encode, limit))
  }

  /** The task has nothing left to do. */
  predicate TaskEnded(c: Conn)
  {
    !c.accepting || c.outbound == []
  }

  /** The connection after `n` of its requests went out; `broken` says that the task ended at the next one. */
  ghost predicate TaskDone(c: Conn, d: Conn, n: nat, broken: bool)
    requires n <= |c.outbound|
  {
    && d.down == c.down + c.outbound[..n]
    && d.outbound == (if broken then [] else c.outbound[n..]) && d.accepting == !broken
  }

  lemma Transmitted(y: System, sid: SessionId)
    requires ServerEnabled(y, sid, Transmit)
    ensures var c := y.conns[sid];
            var z := ServerAct(y, sid, Transmit);
            sid in z.conns && z.conns[sid] == c.(outbound := c.outbound[1..], down := c.down + [c.outbound[0]])
  {
    hide ServerAct;
    ServerFields(y, sid, Transmit);
  }

  lemma Broke(y: System, sid: SessionId)
    requires ServerEnabled(y, sid, WriterBreak)
    ensures var z := ServerAct(y, sid, WriterBreak);
            sid in z.conns && !z.conns[sid].accepting && TaskDone(y.conns[sid], z.conns[sid], 0, true)
  {
    hide ServerAct;
    ServerFields(y, sid, WriterBreak);
    var c := y.conns[sid];
    assert c.down + c.outbound[..0] == c.down;
  }

  lemma OneMoreDone(c: Conn, next: Conn, d: Conn, n: nat, breaks: bool)
    requires 0 < n <= |c.outbound| && next == c.(outbound := c.outbound[1..], down := c.down + [c.outbound[0]])
    requires TaskDone(next, d, n - 1, breaks)
    ensures TaskDone(c, d, n, breaks)
  {
    assert c.down + [c.outbound[0]] + c.outbound[1..][..n - 1] == c.down + c.outbound[..n];
    assert c.outbound[1..][n - 1..] == c.outbound[n..];
  }

  /** How many requests stand before the first over the limit. */
  function Ahead(rs: seq<A.Request>, encode: A.Request -> seq<F.Byte>, limit: nat): (n: nat)
    ensures n <= |rs|
  {
    |F.UpTo(RequestBytes(rs, encode), limit)|
  }

  lemma AheadOf(rs: seq<A.Request>, encode: A.Request -> seq<F.Byte>, limit: nat)
    ensures Ahead(rs, encode, limit)
         == if rs == [] || |encode(rs[0])| > limit then 0 else 1 + Ahead(rs[1..], encode, limit)
  {
    if rs != [] { assert RequestBytes(rs, encode)[1..] == RequestBytes(rs[1..], encode); }
  }

  /** However such a run goes, once it has come to its end just the requests before the first over the limit went out, and
      the task is broken exactly when there is such a one. */
  lemma {:induction false} TaskEndsAtTheFirstOver(y: System, sid: SessionId, steps: seq<Step>,
                                                  encode: A.Request -> seq<F.Byte>, limit: nat)
    requires sid in y.conns && y.conns[sid].accepting && TaskObeys(y, sid, steps, encode, limit)
    requires sid in After(y, steps).conns && TaskEnded(After(y, steps).conns[sid])
    ensures var rs := y.conns[sid].outbound;
            var n := Ahead(rs, encode, limit);
            TaskDone(y.conns[sid], After(y, steps).conns[sid], n, n < |rs|)
    decreases |steps|
  {
    hide ServerAct, TaskDone, Ahead;
    var c := y.conns[sid];
    AheadOf(c.outbound, encode, limit);
    if steps == [] {
      Nothing(c);
    } else if steps[0].s.Transmit? {
      var z := ServerAct(y, sid, Transmit);
      Transmitted(y, sid);
      TaskEndsAtTheFirstOver(z, sid, steps[1..], encode, limit);
      var n := Ahead(c.outbound, encode, limit);
      OneMoreDone(c, z.conns[sid], After(y, steps).conns[sid], n, n < |c.outbound|);
    } else {
      Broke(y, sid);
      assert steps[1..] == [];
    }
  }

  lemma Nothing(c: Conn)
    requires c.accepting && c.outbound == []
    ensures TaskDone(c, c, 0, false)
  {
    assert c.down + c.outbound[..0] == c.down && c.outbound[0..] == c.outbound;
  }

  /** There is such a run, from every state in which the task is up. */
  lemma {:induction false} TaskComesToItsEnd(y: System, sid: SessionId, encode: A.Request -> seq<F.Byte>, limit: nat)
    returns (steps: seq<Step>)
    requires sid in y.conns && y.conns[sid].accepting
    ensures TaskObeys(y, sid, steps, encode, limit)
    ensures sid in After(y, steps).conns && TaskEnded(After(y, steps).conns[sid])
    decreases |y.conns[sid].outbound|
  {
    hide ServerAct;
    var c := y.conns[sid];
    if c.outbound == [] {
      steps := [];
    } else if |encode(c.outbound[0])| <= limit {
      Transmitted(y, sid);
      var rest := TaskComesToItsEnd(ServerAct(y, sid, Transmit), sid, encode, limit);
      steps := [Server(sid, Transmit)] + rest;
      assert steps[1..] == rest;
    } else {
      Broke(y, sid);
      steps := [Server(sid, WriterBreak)];
      assert steps[1..] == [];
    }
  }

  /** So every run of the writer task alone, left to its end with transmitting and breaking decided by size, puts on the wire
      the requests whose bytes the write loop puts on the stream, and breaks exactly when the loop refuses one; and the add-on
      reads those requests, whole and in order, when their limits agree. */
  lemma TaskSendsWhatTheLoopWrites(y: System, sid: SessionId, steps: seq<Step>, limit: nat, encode: A.Request -> seq<F.Byte>,
                                   decode: seq<F.Byte> -> Option<A.Request>)
    requires sid in y.conns && y.conns[sid].accepting && limit < F.U32 && TaskObeys(y, sid, steps, encode, limit)
    requires sid in After(y, steps).conns && TaskEnded(After(y, steps).conns[sid])
    requires forall r | r in y.conns[sid].outbound :: Reads(r, encode, decode)
    ensures var rs := y.conns[sid].outbound;
            var n := Ahead(rs, encode, limit);
            && TaskDone(y.conns[sid], After(y, steps).conns[sid], n, n < |rs|)
            && Wire.ServerWritten(RequestBytes(rs, encode), limit) == F.EncodedAll(RequestBytes(rs[..n], encode))
            && F.ReadAll(Wire.ServerWritten(RequestBytes(rs, encode), limit), limit, decode) == (rs[..n], F.Lost)
  {
    var rs := y.conns[sid].outbound;
    var bytes := RequestBytes(rs, encode);
    var n := Ahead(rs, encode, limit);
    TaskEndsAtTheFirstOver(y, sid, steps, encode, limit);
    hide TaskObeys, TaskDone, Runs, After;
    Wire.ServerWritesUpTo(bytes, limit);
    Wire.ServerStreamArrives(bytes, limit, limit, decode);
    assert F.Min(limit, limit) == limit;
    assert bytes[..n] == RequestBytes(rs[..n], encode);
    RequestsRead(rs[..n], encode, decode);
  }

  lemma {:induction false} RequestsRead(rs: seq<A.Request>, encode: A.Request -> seq<F.Byte>,
                                        decode: seq<F.Byte> -> Option<A.Request>)
    requires forall r | r in rs :: Reads(r, encode, decode)
    ensures F.Messages(RequestBytes(rs, encode), decode) == rs
  {
    if rs != [] {
      RequestsRead(rs[1..], encode, decode);
      assert RequestBytes(rs, encode)[1..] == RequestBytes(rs[1..], encode);
      assert RequestBytes(rs, encode)[0] == encode(rs[0]) && rs[0] in rs;
    }
  }

  // ---------------------------------------------------------------------------
  // The add-on's writer thread
  // ---------------------------------------------------------------------------

  /** The error that goes out in place of a response over the limit. */
  function TooLong(id: RequestId): A.Frame
  {
    A.Response(id, Err(MESSAGE_TOO_LARGE))
  }

  /** What the add-on's writer holds for a frame: its bytes, and those of the error for its request. */
  function OutgoingOf(f: A.Frame, encode: A.Frame -> seq<F.Byte>): Wire.Outgoing
  {
    Wire.Outgoing(encode(f), if f.Response? then Some(encode(TooLong(f.id))) else None)
  }

  function Outgoings(fs: seq<A.Frame>, encode: A.Frame -> seq<F.Byte>): (r: seq<Wire.Outgoing>)
    ensures |r| == |fs| && forall k | 0 <= k < |r| :: r[k] == OutgoingOf(fs[k], encode)
  {
    seq(|fs|, k requires 0 <= k < |fs| => OutgoingOf(fs[k], encode))
  }

  /** The writer cannot go on with this frame: it is over the limit, and so is the error in its place. */
  predicate Blocks(f: A.Frame, encode: A.Frame -> seq<F.Byte>, limit: nat)
  {
    |encode(f)| > limit && f.Response? && |encode(TooLong(f.id))| > limit
  }

  /** What arrives of these frames by the rule the steps follow: each as it is, or shortened, up to one that blocks. */
  function Arriving(fs: seq<A.Frame>, encode: A.Frame -> seq<F.Byte>, limit: nat): seq<A.Frame>
  {
    if fs == [] || Blocks(fs[0], encode, limit) then []
    else (if |encode(fs[0])| <= limit then [fs[0]] else Shortened(fs[0])) + Arriving(fs[1..], encode, limit)
  }

  /** The frame in hand and then those in the outbox. */
  function Due(y: System, sid: SessionId): seq<A.Frame>
    requires sid in y.conns
  {
    var c := y.conns[sid];
    (if c.hand.Some? then [c.hand.value] else []) + (if c.peer in y.peers then y.peers[c.peer].addon.outbox else [])
  }

  /** The size of the frame in hand decides what is done with it. */
  predicate WriterMay(c: Conn, a: WriterStep, encode: A.Frame -> seq<F.Byte>, limit: nat)
  {
    if c.hand.None? then a.TakeFrame?
    else !Blocks(c.hand.value, encode, limit) && if |encode(c.hand.value)| <= limit then a.WriteFrame? else a.WriteTooLarge?
  }

  ghost predicate WriterObeys(y: System, sid: SessionId, steps: seq<Step>, encode: A.Frame -> seq<F.Byte>, limit: nat)
    ensures WriterObeys(y, sid, steps, encode, limit) ==> Runs(y, steps)
    decreases |steps|
  {
    steps == []
    || (&& steps[0].Writer? && steps[0].session == sid && WriterEnabled(y, sid, steps[0].w)
        && WriterMay(y.conns[sid], steps[0].w, encode, limit)
        && WriterObeys(WriterAct(y, sid, steps[0].w), sid, steps[1..], encode, limit))
  }

  /** The writer is out of frames, or holds one it cannot go on with. */
  predicate WriterEnded(y: System, sid: SessionId, encode: A.Frame -> seq<F.Byte>, limit: nat)
    requires sid in y.conns
  {
    Due(y, sid) == [] || (y.conns[sid].hand.Some? && Blocks(y.conns[sid].hand.value, encode, limit))
  }

  /** One step takes the next frame from what is due to what has arrived, or moves it into the writer's hand. */
  lemma WriterStepCarries(y: System, sid: SessionId, a: WriterStep, encode: A.Frame -> seq<F.Byte>, limit: nat)
    requires WriterEnabled(y, sid, a) && WriterMay(y.conns[sid], a, encode, limit)
    ensures var z := WriterAct(y, sid, a);
            && sid in z.conns && z.conns[sid].open == y.conns[sid].open && z.conns[sid].writer
            && z.conns[sid].peer == y.conns[sid].peer && z.peers.Keys == y.peers.Keys
            && z.conns[sid].up + Arriving(Due(z, sid), encode, limit) == y.conns[sid].up + Arriving(Due(y, sid), encode, limit)
            && (a.TakeFrame? ==> Due(z, sid) == Due(y, sid) && z.conns[sid].hand.Some?)
            && (!a.TakeFrame? ==> Due(z, sid) == Due(y, sid)[1..] && z.conns[sid].hand.None?)
  {
    hide WriterAct, Arriving;
    WriterFields(y, sid, a);
    if a.TakeFrame? {
      Taken(y, sid);
    } else {
      Settled(y, sid, a);
      OneLess(y.conns[sid].up, Due(y, sid), encode, limit);
    }
  }

  lemma Taken(y: System, sid: SessionId)
    requires WriterEnabled(y, sid, TakeFrame)
    ensures sid in WriterAct(y, sid, TakeFrame).conns && Due(WriterAct(y, sid, TakeFrame), sid) == Due(y, sid)
  {
    hide WriterAct, PastAfterWriter;
    WriterFields(y, sid, TakeFrame);
    var box := y.peers[y.conns[sid].peer].addon.outbox;
    assert [box[0]] + box[1..] == box && [] + box == box;
  }

  lemma Settled(y: System, sid: SessionId, a: WriterStep)
    requires WriterEnabled(y, sid, a) && (a.WriteFrame? || a.WriteTooLarge?)
    ensures var z := WriterAct(y, sid, a);
            && sid in z.conns && Due(y, sid) != [] && Due(y, sid)[0] == y.conns[sid].hand.value && Due(z, sid) == Due(y, sid)[1..]
            && z.conns[sid].up == y.conns[sid].up + if a.WriteFrame? then [Due(y, sid)[0]] else Shortened(Due(y, sid)[0])
  {
    hide WriterAct, PastAfterWriter, Shortened;
    WriterFields(y, sid, a);
    assert Due(WriterAct(y, sid, a), sid) == Due(y, sid)[1..];
  }

  lemma OneLess(up: seq<A.Frame>, due: seq<A.Frame>, encode: A.Frame -> seq<F.Byte>, limit: nat)
    requires due != [] && !Blocks(due[0], encode, limit)
    ensures var first := if |encode(due[0])| <= limit then [due[0]] else Shortened(due[0]);
            up + first + Arriving(due[1..], encode, limit) == up + Arriving(due, encode, limit)
  {
    hide Blocks, Shortened;
  }

  lemma {:induction false} WriterStepsCarry(y: System, sid: SessionId, steps: seq<Step>, encode: A.Frame -> seq<F.Byte>, limit: nat)
    requires sid in y.conns && WriterObeys(y, sid, steps, encode, limit)
    ensures var z := After(y, steps);
            && sid in z.conns
            && z.conns[sid].up + Arriving(Due(z, sid), encode, limit) == y.conns[sid].up + Arriving(Due(y, sid), encode, limit)
    decreases |steps|
  {
    hide WriterAct, Arriving, Due;
    if steps != [] {
      WriterStepCarries(y, sid, steps[0].w, encode, limit);
      WriterStepsCarry(WriterAct(y, sid, steps[0].w), sid, steps[1..], encode, limit);
    }
  }

  /** There is such a run to the end, from every state in which the writer is up and its socket open. */
  lemma {:induction false} WriterComesToItsEnd(y: System, sid: SessionId, encode: A.Frame -> seq<F.Byte>, limit: nat)
    returns (steps: seq<Step>)
    requires sid in y.conns && y.conns[sid].writer && y.conns[sid].open
    ensures WriterObeys(y, sid, steps, encode, limit)
    ensures sid in After(y, steps).conns && WriterEnded(After(y, steps), sid, encode, limit)
    decreases |Due(y, sid)|, y.conns[sid].hand.None?
  {
    hide WriterAct, Blocks, Arriving;
    var c := y.conns[sid];
    if WriterEnded(y, sid, encode, limit) {
      steps := [];
    } else {
      var a := if c.hand.None? then TakeFrame else if |encode(c.hand.value)| <= limit then WriteFrame else WriteTooLarge;
      WriterStepCarries(y, sid, a, encode, limit);
      var rest := WriterComesToItsEnd(WriterAct(y, sid, a), sid, encode, limit);
      steps := [Writer(sid, a)] + rest;
      assert steps[1..] == rest;
    }
  }

  /** Every run of a writer thread alone, left to its end with each frame treated by its size, puts on the wire the very
      messages the other side reads of what the write loop sends for those frames: one within the limit as it is, a response
      over it as an error for its request, an event over it not at all, and nothing more once the error itself is over it. */
  lemma WriterCarriesWhatTheStepsSay(y: System, sid: SessionId, steps: seq<Step>, encode: A.Frame -> seq<F.Byte>,
                                     decode: seq<F.Byte> -> Option<A.Frame>, limit: nat)
    requires sid in y.conns && WriterObeys(y, sid, steps, encode, limit)
    requires sid in After(y, steps).conns && WriterEnded(After(y, steps), sid, encode, limit)
    requires AllRead(Due(y, sid), encode, decode)
    ensures After(y, steps).conns[sid].up
         == y.conns[sid].up + F.Messages(Wire.Carried(Outgoings(Due(y, sid), encode), limit), decode)
  {
    WriterStepsCarry(y, sid, steps, encode, limit);
    LoopSendsWhatArrives(Due(y, sid), encode, decode, limit);
    var z := After(y, steps);
    assert Arriving(Due(z, sid), encode, limit) == [];
    assert z.conns[sid].up + [] == z.conns[sid].up;
  }

  /** The frames at hand, and the errors that may go in their place, are read back. */
  ghost predicate AllRead(fs: seq<A.Frame>, encode: A.Frame -> seq<F.Byte>, decode: seq<F.Byte> -> Option<A.Frame>)
  {
    forall f | f in fs :: Reads(f, encode, decode) && (f.Response? ==> Reads(TooLong(f.id), encode, decode))
  }

  lemma {:induction false} LoopSendsWhatArrives(fs: seq<A.Frame>, encode: A.Frame -> seq<F.Byte>,
                                                decode: seq<F.Byte> -> Option<A.Frame>, limit: nat)
    requires AllRead(fs, encode, decode)
    ensures F.Messages(Wire.Carried(Outgoings(fs, encode), limit), decode) == Arriving(fs, encode, limit)
  {
    if fs != [] {
      var out := Outgoings(fs, encode);
      assert out[1..] == Outgoings(fs[1..], encode) && out[0] == OutgoingOf(fs[0], encode) && fs[0] in fs;
      LoopSendsWhatArrives(fs[1..], encode, decode, limit);
      OneArrives(fs[0], encode, decode, limit);
      hide F.Messages;
      if !Blocks(fs[0], encode, limit) {
        Wire.CarriedFirst(out, limit);
        MessagesJoin(Wire.PutFor(out[0], limit).payloads, Wire.Carried(out[1..], limit), decode);
      } else {
        NoMessages(decode);
      }
    }
  }

  lemma OneArrives(f: A.Frame, encode: A.Frame -> seq<F.Byte>, decode: seq<F.Byte> -> Option<A.Frame>, limit: nat)
    requires Reads(f, encode, decode) && (f.Response? ==> Reads(TooLong(f.id), encode, decode))
    ensures var put := Wire.PutFor(OutgoingOf(f, encode), limit);
            && (put.Ends? <==> Blocks(f, encode, limit))
            && (put.Sends? ==> F.Messages(put.payloads, decode) == if |encode(f)| <= limit then [f] else Shortened(f))
  {
    var put := Wire.PutFor(OutgoingOf(f, encode), limit);
    if put.Sends? && put.payloads != [] { assert put.payloads[1..] == []; }
  }

  lemma {:induction false} MessagesJoin<M>(a: seq<seq<F.Byte>>, b: seq<seq<F.Byte>>, decode: seq<F.Byte> -> Option<M>)
    ensures F.Messages(a + b, decode) == F.Messages(a, decode) + F.Messages(b, decode)
  {
    hide F.Messages;
    if a == [] {
      assert a + b == b;
      NoMessages(decode);
    } else {
      var first, others := a[0], a[1..];
      MessagesJoin(others, b, decode);
      assert a + b == [first] + (others + b) && a == [first] + others;
      F.MessagesFirst(first, others + b, decode);
      F.MessagesFirst(first, others, decode);
    }
  }

  lemma NoMessages<M>(decode: seq<F.Byte> -> Option<M>)
    ensures F.Messages([], decode) == []
  {
  }

  // ---------------------------------------------------------------------------
  // An encoding for which all of this happens
  // ---------------------------------------------------------------------------

  /** The encoding of three frames: a response of four bytes, the error in its place of one, and an event of two. */
  function Sample(f: A.Frame): seq<F.Byte>
  {
    if f == A.Response(7, Ok(1)) then [1, 1, 1, 1] else if f == TooLong(7) then [2] else [3, 3]
  }

  function SampleBack(bytes: seq<F.Byte>): Option<A.Frame>
  {
    if bytes == [1, 1, 1, 1] then Some(A.Response(7, Ok(1)))
    else if bytes == [2] then Some(TooLong(7))
    else Some(A.Event(0, 0, 0))
  }

  /** With a limit of three the response is shortened and the event crosses; with one the event is left out; with none the
      writer ends. */
  lemma ShortenedLeftOutAndBlocked()
    ensures var fs := [A.Response(7, Ok(1)), A.Event(0, 0, 0)];
            && AllRead(fs, Sample, SampleBack)
            && Arriving(fs, Sample, 3) == [TooLong(7), A.Event(0, 0, 0)]
            && Arriving(fs, Sample, 1) == [TooLong(7)]
            && Arriving(fs, Sample, 0) == []
  {
    var fs := [A.Response(7, Ok(1)), A.Event(0, 0, 0)];
    assert fs[1..] == [A.Event(0, 0, 0)] && fs[1..][1..] == [];
    var two := [A.Event(0, 0, 0)];
    assert Arriving([], Sample, 3) == [] && Arriving([], Sample, 1) == [];
    assert Arriving(two, Sample, 3) == [A.Event(0, 0, 0)] && Arriving(two, Sample, 1) == [];
  }
}
