/** What a writer task that ends costs its session: one request over the limit takes with it all that is queued behind. */
module BridgeBreaking {
  import opened Wrappers
  import opened Pending
  import opened Bridge
  import opened BridgeFields
  import opened BridgeWaiters
  import opened BridgeAnswers
  import opened BridgePast
  import K = BridgeTokens
  import T = BridgeTruth
  import W = BridgeWriters

  // ---------------------------------------------------------------------------
  // What is over stays over
  // ---------------------------------------------------------------------------

  /** The request was sent, nothing of it is under way, it was not run and its caller was not answered. */
  ghost predicate Unheard(y: System, id: RequestId)
  {
    id in y.sent && Over(y, id) && !WasAnswered(y, id) && forall r | r in y.runs :: r.id != id
  }

  lemma ServerKeepsOver(y: System, sid: SessionId, a: ServerStep, id: RequestId)
    requires Over(y, id) && ServerEnabled(y, sid, a)
    ensures Over(ServerAct(y, sid, a), id)
  {
    hide Over, ServerAct, Moves;
    if a.ReadFrame? {
      PopMoves(y, sid);
      OverStays(y, ServerAct(y, sid, a), Leaves(sid), id);
    } else if a.Transmit? {
      TransmitMoves(y, sid);
      OverStays(y, ServerAct(y, sid, a), ToWire(sid), id);
    } else {
      ServerStill(y, sid, a);
      OverStays(y, ServerAct(y, sid, a), Still, id);
    }
  }

  lemma PeerKeepsOver(y: System, p: PeerId, a: PeerStep, id: RequestId)
    requires Over(y, id) && PeerEnabled(y, p, a)
    ensures Over(PeerAct(y, p, a), id)
  {
    hide Over, PeerAct, Moves;
    var z := PeerAct(y, p, a);
    match a
    case ReadRequest(sid) => ReadRequestMoves(y, p, sid); OverStays(y, z, PeerMove(y, p, a), id);
    case TakeRequest => TakeRequestMoves(y, p); OverStays(y, z, ToDispatch(p), id);
    case Finish(body) => FinishMoves(y, p, body); OverStays(y, z, ToOutbox(p), id);
    case _ => PeerStill(y, p, a); OverStays(y, z, Still, id);
  }

  lemma WriterKeepsOver(y: System, sid: SessionId, a: WriterStep, id: RequestId)
    requires Over(y, id) && WriterEnabled(y, sid, a)
    ensures Over(WriterAct(y, sid, a), id)
  {
    hide Over, WriterAct, Moves;
    var z := WriterAct(y, sid, a);
    match a
    case TakeFrame => TakeFrameMoves(y, sid); OverStays(y, z, ToHand(y.conns[sid].peer, sid), id);
    case Shut => ShutMoves(y, sid); OverStays(y, z, Still, id);
    case _ => SettleMoves(y, sid, a); OverStays(y, z, if a.Die? then Still else ToUp(sid), id);
  }

  lemma CallKeepsOver(y: System, c: CallId, a: CallStep, id: RequestId)
    requires Over(y, id) && CallEnabled(y, c, a) && (a.Send? ==> y.calls[c].id != id)
    ensures Over(CallAct(y, c, a), id)
  {
    var z := CallAct(y, c, a);
    if !a.Send? {
      CallStill(y, c, a);
      hide *;
      OverStays(y, z, Still, id);
    } else if y.calls[c].session in y.conns && y.conns[y.calls[c].session].accepting {
      SendShape(y, c);
      hide CallAct;
    } else {
      assert Moves(y, z, Still);
      hide *;
      OverStays(y, z, Still, id);
    }
  }

  lemma StepKeepsOver(y: System, a: Step, id: RequestId)
    requires K.CallsKnowWhatWasSent(y) && id in y.sent && Over(y, id) && Enabled(y, a)
    ensures Over(Act(y, a), id)
  {
    hide Over, ServerAct, PeerAct, WriterAct, CallAct;
    match a
    case Server(sid, s) => ServerKeepsOver(y, sid, s, id);
    case Main(p, s) => PeerKeepsOver(y, p, s, id);
    case Writer(sid, s) => WriterKeepsOver(y, sid, s, id);
    case Caller(c, s) => CallKeepsOver(y, c, s, id);
  }

  /** A channel is answered only by a response that is read, and a handler runs only what is in dispatch. */
  lemma ServerLeavesUnheard(y: System, sid: SessionId, a: ServerStep, id: RequestId)
    requires Over(y, id) && ServerEnabled(y, sid, a)
    ensures var z := ServerAct(y, sid, a);
            z.sent == y.sent && z.runs == y.runs && (WasAnswered(z, id) ==> WasAnswered(y, id))
  {
    K.ServerMovesTokens(y, sid, a);
    ServerRuns(y, sid, a);
    if a.ReadFrame? {
      var f := y.conns[sid].up[0];
      ReadTells(y, sid);
      if f.Response? { assert Here(y, Up(sid, 0)) && IdAt(y, Up(sid, 0)) == f.id; }
    } else {
      T.ServerAnswersNobody(y, sid, a);
    }
    hide ServerAct;
  }

  lemma ServerRuns(y: System, sid: SessionId, a: ServerStep)
    requires ServerEnabled(y, sid, a)
    ensures ServerAct(y, sid, a).runs == y.runs && ServerAct(y, sid, a).sent == y.sent
  {
    if a.ReadFrame? {
      var c := y.conns[sid];
      T.HandlingKeepsHistory(SetConn(y, sid, c.(up := c.up[1..])), sid, c.up[0]);
    } else {
      T.ServerShrinks(y, sid, a);
    }
  }

  lemma PeerLeavesUnheard(y: System, p: PeerId, a: PeerStep, id: RequestId)
    requires Over(y, id) && PeerEnabled(y, p, a)
    ensures var z := PeerAct(y, p, a);
            z.sent == y.sent && z.pending == y.pending && forall r | r in z.runs && r.id == id :: r in y.runs
  {
    T.PeerConns(y, p, a);
    if a.Finish? { assert Here(y, Dispatch(p)) && IdAt(y, Dispatch(p)) != id; }
    PeerRuns(y, p, a);
    hide PeerAct;
  }

  lemma PeerRuns(y: System, p: PeerId, a: PeerStep)
    requires PeerEnabled(y, p, a)
    ensures PeerAct(y, p, a).runs == y.runs
         + if a.Finish? then [Run(y.peers[p].addon.busy.value.id, y.peers[p].addon.busy.value.op, a.body)] else []
  {
    hide PeerAct;
    PeerFields(y, p, a);
  }

  lemma WriterLeavesUnheard(y: System, sid: SessionId, a: WriterStep)
    requires WriterEnabled(y, sid, a)
    ensures var z := WriterAct(y, sid, a); z.sent == y.sent && z.pending == y.pending && z.runs == y.runs
  {
    hide WriterAct;
    WriterFields(y, sid, a);
  }

  lemma CallLeavesUnheard(y: System, c: CallId, a: CallStep, id: RequestId)
    requires CallEnabled(y, c, a)
    ensures var z := CallAct(y, c, a);
            z.runs == y.runs && (id in y.sent ==> id in z.sent) && (WasAnswered(z, id) ==> WasAnswered(y, id))
  {
    CallTells(y, c, a);
    CallRuns(y, c, a);
    hide CallAct;
  }

  lemma CallRuns(y: System, c: CallId, a: CallStep)
    requires CallEnabled(y, c, a)
    ensures CallAct(y, c, a).runs == y.runs
  {
    hide CallAct;
    CallFields(y, c, a);
  }

  lemma StepKeepsUnheard(y: System, a: Step, id: RequestId)
    requires K.CallsKnowWhatWasSent(y) && Unheard(y, id) && Enabled(y, a)
    ensures Unheard(Act(y, a), id)
  {
    StepKeepsOver(y, a, id);
    hide Over, ServerAct, PeerAct, WriterAct, CallAct, K.CallsKnowWhatWasSent;
    match a
    case Server(sid, s) => ServerLeavesUnheard(y, sid, s, id);
    case Main(p, s) => PeerLeavesUnheard(y, p, s, id);
    case Writer(sid, s) => WriterLeavesUnheard(y, sid, s);
    case Caller(c, s) => CallLeavesUnheard(y, c, s, id);
  }

  lemma KnownSent(y: System)
    requires Known(y)
    ensures K.CallsKnowWhatWasSent(y)
  {
  }

  lemma {:induction false} UnheardForGood(y: System, later: seq<Step>, id: RequestId)
    requires Known(y) && Unheard(y, id) && Runs(y, later)
    ensures Unheard(After(y, later), id) && Known(After(y, later))
    decreases |later|
  {
    if later == [] {
    } else {
      hide Known, Unheard, Act, Enabled;
      KnownSent(y);
      StepKeepsUnheard(y, later[0], id);
      StepKeepsKnown(y, later[0]);
      UnheardForGood(Act(y, later[0]), later[1..], id);
    }
  }

  // ---------------------------------------------------------------------------
  // What a broken writer costs
  // ---------------------------------------------------------------------------

  predicate Queued(y: System, sid: SessionId, id: RequestId)
  {
    sid in y.conns && exists r :: r in y.conns[sid].outbound && r.id == id
  }

  /** The writer task ends by itself, or the connection's task aborts it. */
  predicate EndsWriter(a: ServerStep)
  {
    a.WriterBreak? || a.Abort?
  }

  /** The writer task of this session has ended. */
  predicate Mute(y: System, sid: SessionId)
  {
    sid in y.conns && !y.conns[sid].accepting
  }

  /** What is over after the writer task ended is what was over before, and what was in its queue: no more and no less. */
  lemma BreakEndsExactlyTheQueue(y: System, sid: SessionId, a: ServerStep, id: RequestId)
    requires OneSpot(y) && ServerEnabled(y, sid, a) && EndsWriter(a)
    ensures Over(ServerAct(y, sid, a), id) <==> Over(y, id) || Queued(y, sid, id)
    ensures Mute(ServerAct(y, sid, a), sid)
  {
    hide ServerAct;
    var z := ServerAct(y, sid, a);
    ServerFields(y, sid, a);
    BreakSpots(y, z, sid);
    if Queued(y, sid, id) {
      var r :| r in y.conns[sid].outbound && r.id == id;
      var i :| 0 <= i < |y.conns[sid].outbound| && y.conns[sid].outbound[i] == r;
      assert Here(y, Outbound(sid, i)) && IdAt(y, Outbound(sid, i)) == id;
    } else if !Over(y, id) {
      assert forall i | 0 <= i < |y.conns[sid].outbound| :: y.conns[sid].outbound[i].id != id;
      var s :| Here(y, s) && IdAt(y, s) == id;
      assert Here(z, s) && IdAt(z, s) == id;
    }
  }

  lemma BreakSpots(y: System, z: System, sid: SessionId)
    requires sid in y.conns && z.peers == y.peers && sid in z.conns && z.conns == y.conns[sid := z.conns[sid]]
    requires z.conns[sid] == y.conns[sid].(pc := z.conns[sid].pc, accepting := false, outbound := [])
    ensures forall s :: Here(z, s) <==> Here(y, s) && !(s.Outbound? && s.sid == sid)
    ensures forall s | Here(z, s) :: IdAt(z, s) == IdAt(y, s)
  {
  }

  lemma ServerKeepsMute(y: System, sid: SessionId, d: SessionId, a: ServerStep)
    requires Mute(y, sid) && ServerEnabled(y, d, a)
    ensures Mute(ServerAct(y, d, a), sid)
  {
    if a.ReadFrame? {
      W.ReadShape(y, d);
    } else {
      T.ServerShrinks(y, d, a);
      if d in y.conns { ServerAccepting(y, d, a); }
    }
    hide ServerAct;
  }

  lemma ServerAccepting(y: System, sid: SessionId, a: ServerStep)
    requires ServerEnabled(y, sid, a) && !a.ReadFrame? && sid in y.conns
    ensures ServerAct(y, sid, a).conns[sid].accepting ==> y.conns[sid].accepting
  {
    hide HeldIds, SessionFailed, Noted;
  }

  lemma OthersKeepMute(y: System, sid: SessionId, a: Step)
    requires Mute(y, sid) && Enabled(y, a) && !a.Server?
    ensures Mute(Act(y, a), sid)
  {
    match a
    case Main(p, s) => PeerKeepsMute(y, sid, p, s);
    case Writer(d, s) => WriterKeepsMute(y, sid, d, s);
    case Caller(c, s) => CallKeepsMute(y, sid, c, s);
  }

  lemma PeerKeepsMute(y: System, sid: SessionId, p: PeerId, a: PeerStep)
    requires Mute(y, sid) && PeerEnabled(y, p, a)
    ensures Mute(PeerAct(y, p, a), sid)
  {
    hide PeerAct;
    PeerFields(y, p, a);
  }

  lemma WriterKeepsMute(y: System, sid: SessionId, d: SessionId, a: WriterStep)
    requires Mute(y, sid) && WriterEnabled(y, d, a)
    ensures Mute(WriterAct(y, d, a), sid)
  {
    hide WriterAct;
    WriterFields(y, d, a);
  }

  lemma CallKeepsMute(y: System, sid: SessionId, c: CallId, a: CallStep)
    requires Mute(y, sid) && CallEnabled(y, c, a)
    ensures Mute(CallAct(y, c, a), sid)
  {
    hide CallAct;
    CallFields(y, c, a);
  }

  lemma StepKeepsMute(y: System, sid: SessionId, a: Step)
    requires Mute(y, sid) && Enabled(y, a)
    ensures Mute(Act(y, a), sid)
  {
    hide Mute, ServerAct, PeerAct, WriterAct, CallAct;
    if a.Server? { ServerKeepsMute(y, sid, a.session, a.s); } else { OthersKeepMute(y, sid, a); }
  }

  lemma {:induction false} MuteForGood(y: System, later: seq<Step>, sid: SessionId)
    requires Mute(y, sid) && Runs(y, later)
    ensures Mute(After(y, later), sid)
    decreases |later|
  {
    if later == [] {
    } else {
      hide Mute, Act, Enabled;
      StepKeepsMute(y, sid, later[0]);
      MuteForGood(Act(y, later[0]), later[1..], sid);
    }
  }

  lemma QueuedIsUnheard(y: System, sid: SessionId, a: ServerStep, id: RequestId)
    requires Known(y) && ServerEnabled(y, sid, a) && EndsWriter(a) && Queued(y, sid, id)
    ensures Unheard(ServerAct(y, sid, a), id)
  {
    hide ServerAct, Known, Over, OneSpot;
    var z := ServerAct(y, sid, a);
    var r :| r in y.conns[sid].outbound && r.id == id;
    var i :| 0 <= i < |y.conns[sid].outbound| && y.conns[sid].outbound[i] == r;
    QueuedIsFresh(y, sid, i);
    KnownSpots(y);
    BreakEndsExactlyTheQueue(y, sid, a, id);
    ServerRuns(y, sid, a);
    BreakTells(y, sid, a);
    forall q | q in z.runs ensures q.id != id {
      var k :| 0 <= k < |y.runs| && y.runs[k] == q;
    }
  }

  lemma KnownSpots(y: System)
    requires Known(y)
    ensures OneSpot(y)
  {
  }

  lemma BreakTells(y: System, sid: SessionId, a: ServerStep)
    requires ServerEnabled(y, sid, a) && EndsWriter(a)
    ensures ServerAct(y, sid, a).pending == y.pending
  {
    hide ServerAct;
    ServerFields(y, sid, a);
  }

  /** A request in a writer task's queue was sent, was not run, and was not answered. */
  lemma QueuedIsFresh(y: System, sid: SessionId, i: nat)
    requires Known(y) && sid in y.conns && i < |y.conns[sid].outbound|
    ensures var id := y.conns[sid].outbound[i].id;
            id in y.sent && !WasAnswered(y, id) && forall k | 0 <= k < |y.runs| :: y.runs[k].id != id
  {
    assert Here(y, Outbound(sid, i)) && IdAt(y, Outbound(sid, i)) == y.conns[sid].outbound[i].id;
    hide *;
    KnownPlaces(y);
    UnderWayIsNew(y, Outbound(sid, i));
    QueuedIsNotRun(y, sid, i);
  }

  lemma KnownPlaces(y: System)
    requires Known(y)
    ensures SpotInv(y) && K.InOnePlace(y)
  {
    hide SpotInv, K.InOnePlace;
  }

  lemma QueuedIsNotRun(y: System, sid: SessionId, i: nat)
    requires K.InOnePlace(y) && sid in y.conns && i < |y.conns[sid].outbound|
    ensures forall k | 0 <= k < |y.runs| :: y.runs[k].id != y.conns[sid].outbound[i].id
  {
    forall k | 0 <= k < |y.runs| ensures y.runs[k].id != y.conns[sid].outbound[i].id {
      assert K.Here(y, K.AtRun(k)) && K.Here(y, K.AtOutbound(sid, i));
      assert K.Token(y, K.AtRun(k)).id == y.runs[k].id;
    }
  }

  lemma UnheardGetsNoReply(y: System, id: RequestId, c: CallId)
    requires Known(y) && Unheard(y, id) && c in y.calls && y.calls[c].Done? && y.calls[c].id == id
    ensures !y.calls[c].result.Reply?
  {
  }

  /** What it costs, in every continuation: when the writer task of a session ends, no request then in its queue is ever run
      or answered, and nothing is sent on that session again: every later send on it fails. */
  lemma BrokenWriterLosesItsQueue(
    start: System, steps: seq<Step>, sid: SessionId, a: ServerStep, later: seq<Step>, id: RequestId, c: CallId)
    requires Initial(start) && Runs(start, steps) && ServerEnabled(After(start, steps), sid, a) && EndsWriter(a)
    requires Queued(After(start, steps), sid, id)
    requires Runs(ServerAct(After(start, steps), sid, a), later)
    ensures var x := After(ServerAct(After(start, steps), sid, a), later);
            && (forall r | r in x.runs :: r.id != id)
            && (c in x.calls && x.calls[c].Done? && x.calls[c].id == id ==> !x.calls[c].result.Reply?)
            && (CallEnabled(x, c, Send) && x.calls[c].session == sid ==> CallAct(x, c, Send).calls[c].SendFailed?)
  {
    ReachedIsKnown(start, steps);
    var y := After(start, steps);
    var z := ServerAct(y, sid, a);
    QueuedIsUnheard(y, sid, a, id);
    Broken(y, sid, a);
    var x := After(z, later);
    hide Known, Initial, ServerAct;
    UnheardForGood(z, later, id);
    MuteForGood(z, later, sid);
    if c in x.calls && x.calls[c].Done? && x.calls[c].id == id { UnheardGetsNoReply(x, id, c); }
    MuteFailsSends(x, sid, c);
  }

  lemma Broken(y: System, sid: SessionId, a: ServerStep)
    requires Known(y) && ServerEnabled(y, sid, a) && EndsWriter(a)
    ensures Known(ServerAct(y, sid, a)) && Mute(ServerAct(y, sid, a), sid)
  {
    hide Known;
    StepKeepsKnown(y, Server(sid, a));
  }

  lemma MuteFailsSends(y: System, sid: SessionId, c: CallId)
    requires Mute(y, sid)
    ensures CallEnabled(y, c, Send) && y.calls[c].session == sid ==> CallAct(y, c, Send).calls[c].SendFailed?
  {
  }
}
