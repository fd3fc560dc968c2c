/** Nothing gets stuck: every call can end, and every connection's task can run to its end, without anybody else's help; and a
    socket that takes no more writes never does again. */
module BridgeEnds {
  import opened Wrappers
  import opened Pending
  import opened Bridge
  import opened BridgeFields
  import opened BridgeFailing
  import opened BridgePast
  import A = AddOn
  import G = BridgeForGood
  import S = BridgeSlot
  import W = BridgeWriters

  // ---------------------------------------------------------------------------
  // Calls
  // ---------------------------------------------------------------------------

  /** Steps of one caller, and of nobody else. */
  predicate OnlyOf(steps: seq<Step>, c: CallId)
  {
    forall a | a in steps :: a.Caller? && a.call == c
  }

  function StepsToGo(k: Call): nat
  {
    match k
    case Picked(_, _) => 4
    case Registered(_, _, _) => 3
    case Awaiting(_, _) => 2
    case Expired(_, _) => 1
    case SendFailed(_, _) => 1
    case Done(_, _, _) => 0
  }

  lemma FreshId(ids: set<RequestId>) returns (id: RequestId)
    ensures id !in ids && forall i | i in ids :: i < id
    decreases |ids|
  {
    if ids == {} {
      id := 0;
    } else {
      var i :| i in ids;
      var rest := FreshId(ids - {i});
      id := if i < rest then rest else i + 1;
      assert forall j | j in ids :: j == i || j in ids - {i};
    }
  }

  /** What a caller does next when it is answered by nobody. */
  function NextAlone(k: Call, id: RequestId): CallStep
    requires !k.Done?
  {
    match k
    case Picked(_, _) => Register(id)
    case Registered(_, _, _) => Send
    case Awaiting(_, _) => Expire
    case Expired(_, _) => CancelExpired
    case SendFailed(_, _) => CancelFailed
  }

  lemma NextAloneGoesOn(y: System, c: CallId, id: RequestId)
    requires c in y.calls && !y.calls[c].Done? && id !in y.pending.cells
    ensures CallEnabled(y, c, NextAlone(y.calls[c], id))
    ensures var z := CallAct(y, c, NextAlone(y.calls[c], id));
            c in z.calls && StepsToGo(z.calls[c]) < StepsToGo(y.calls[c]) && (z.calls[c].Done? ==> !z.calls[c].result.Reply?)
  {
    hide CallAct;
    CallFields(y, c, NextAlone(y.calls[c], id));
  }

  /** Whatever state it is in, a call can end by itself, with a timeout or a lost connection. */
  lemma {:induction false} CallCanEnd(y: System, c: CallId) returns (later: seq<Step>)
    requires c in y.calls && !y.calls[c].Done?
    ensures Runs(y, later) && OnlyOf(later, c) && c in After(y, later).calls
    ensures After(y, later).calls[c].Done? && !After(y, later).calls[c].result.Reply?
    decreases StepsToGo(y.calls[c])
  {
    hide CallAct, Runs, After, CallEnabled, NextAlone;
    var id := FreshId(y.pending.cells.Keys);
    var a := Caller(c, NextAlone(y.calls[c], id));
    NextAloneGoesOn(y, c, id);
    var z := Act(y, a);
    if z.calls[c].Done? {
      later := [a];
      G.One(y, a);
    } else {
      var rest := CallCanEnd(z, c);
      later := [a] + rest;
      G.Prepend(y, a, rest);
    }
  }

  // ---------------------------------------------------------------------------
  // Connections
  // ---------------------------------------------------------------------------

  function StagesToGo(pc: Pc): nat
  {
    match pc
    case Offered => 8
    case Acked => 7
    case FailingPrevious(_) => 6
    case HoldingStray(_, _) => 5
    case Reading => 4
    case Ending => 3
    case FailingOwn => 2
    case Aborting => 1
    case Finished => 0
  }

  /** What the connection's task does next when nothing more is read; before it is installed its add-on answers the hello. */
  function NextToEnd(c: Conn, sid: SessionId): Step
    requires !c.pc.Finished?
  {
    match c.pc
    case Offered => Main(c.peer, Acknowledge(sid))
    case Acked => Server(sid, Install)
    case FailingPrevious(_) => Server(sid, FailPrevious)
    case HoldingStray(_, _) => Server(sid, RestoreStray)
    case Reading => Server(sid, EndRead)
    case Ending => Server(sid, ClearSlot)
    case FailingOwn => Server(sid, FailOwn)
    case Aborting => Server(sid, Abort)
  }

  lemma AbortEmpties(c: Conn, a: ServerStep)
    ensures a.Abort? ==> OutboundAfterServer(c, a) == []
  {
  }

  lemma NextToEndGoesOn(y: System, sid: SessionId)
    requires sid in y.conns && !y.conns[sid].pc.Finished? && y.conns[sid].peer in y.peers
    ensures var a := NextToEnd(y.conns[sid], sid);
            && Enabled(y, a) && !a.Caller?
            && var z := Act(y, a);
               && sid in z.conns && z.conns[sid].peer == y.conns[sid].peer && z.peers.Keys == y.peers.Keys
               && StagesToGo(z.conns[sid].pc) < StagesToGo(y.conns[sid].pc)
               && (z.conns[sid].pc.Finished? ==> !z.conns[sid].accepting && z.conns[sid].outbound == [])
  {
    hide ServerAct, PeerAct, TableAfterServer, BroadcastAfterServer, PastAfterServer, AddonAfterPeer, SlotAfterServer,
         RunsAfterPeer, EmittedAfterPeer, OutboundAfterServer;
    var a := NextToEnd(y.conns[sid], sid);
    if a.Server? {
      ServerFields(y, sid, a.s);
      AbortEmpties(y.conns[sid], a.s);
      hide WriterAct, CallAct;
    } else {
      PeerFields(y, a.peer, a.p);
    }
  }

  /** However far it has come, a connection's task can run to its end; then its queue is empty and takes no more, the session is
      out of the slot, and its requests have been failed. */
  lemma {:induction false} ConnectionCanFinish(y: System, sid: SessionId) returns (later: seq<Step>)
    requires sid in y.conns && !y.conns[sid].pc.Finished? && y.conns[sid].peer in y.peers && Known(y)
    ensures Runs(y, later) && G.Unaided(later) && sid in After(y, later).conns
    ensures var z := After(y, later);
            && z.conns[sid].pc.Finished? && !z.conns[sid].accepting && z.conns[sid].outbound == []
            && z.slot != Some(sid) && sid in z.installed && (sid in z.past.failed || AboutToFail(z, sid))
    decreases StagesToGo(y.conns[sid].pc)
  {
    hide Known, Act, Enabled, Runs, After, NextToEnd, AboutToFail;
    var a := NextToEnd(y.conns[sid], sid);
    NextToEndGoesOn(y, sid);
    StepKeepsKnown(y, a);
    var z := Act(y, a);
    if z.conns[sid].pc.Finished? {
      FinishedIsOut(z, sid);
      later := [a];
      G.One(y, a);
    } else {
      var rest := ConnectionCanFinish(z, sid);
      later := [a] + rest;
      G.Prepend(y, a, rest);
    }
  }

  lemma FinishedIsOut(y: System, sid: SessionId)
    requires sid in y.conns && y.conns[sid].pc.Finished? && Known(y)
    ensures y.slot != Some(sid) && sid in y.installed && (sid in y.past.failed || AboutToFail(y, sid))
  {
    hide Known, AboutToFail;
    G.KnownLedger(y);
    FinishedLeftTheSlot(y, sid);
    hide S.SlotInv;
  }

  lemma FinishedLeftTheSlot(y: System, sid: SessionId)
    requires sid in y.conns && y.conns[sid].pc.Finished? && S.SlotInv(y)
    ensures y.slot != Some(sid) && sid in y.installed
  {
  }

  // ---------------------------------------------------------------------------
  // Sockets
  // ---------------------------------------------------------------------------

  /** A socket that has stopped taking writes: the network did it, or the reader closed it. */
  lemma ShutStops(y: System, sid: SessionId)
    requires WriterEnabled(y, sid, Shut)
    ensures var z := WriterAct(y, sid, Shut);
            && sid in z.conns && !z.conns[sid].open && z.conns[sid] == y.conns[sid].(open := false) && z.past == y.past
  {
    hide WriterAct;
    WriterFields(y, sid, Shut);
  }

  lemma ClosingShuts(y: System, p: PeerId, sid: SessionId)
    requires PeerEnabled(y, p, Close(sid))
    ensures var z := PeerAct(y, p, Close(sid));
            && sid in z.conns && z.conns[sid] == y.conns[sid].(open := false, reader := Closed) && z.peers == y.peers
  {
    hide PeerAct;
    PeerFields(y, p, Close(sid));
    assert y.peers[p := Peer(y.peers[p].addon)] == y.peers;
  }

  lemma StepKeepsShut(y: System, a: Step, sid: SessionId)
    requires Enabled(y, a) && sid in y.conns && !y.conns[sid].open
    ensures sid in Act(y, a).conns && !Act(y, a).conns[sid].open
  {
    hide ServerAct, PeerAct, WriterAct, CallAct;
    match a
    case Server(e, s) => ServerFields(y, e, s);
    case Main(p, s) => PeerFields(y, p, s);
    case Writer(e, s) => WriterFields(y, e, s);
    case Caller(c, s) => CallFields(y, c, s);
  }

  /** It never takes one again, in any continuation. */
  lemma {:induction false} ShutForGood(y: System, later: seq<Step>, sid: SessionId)
    requires Runs(y, later) && sid in y.conns && !y.conns[sid].open
    ensures sid in After(y, later).conns && !After(y, later).conns[sid].open
    decreases |later|
  {
    hide Act, Enabled;
    if later != [] {
      StepKeepsShut(y, later[0], sid);
      ShutForGood(Act(y, later[0]), later[1..], sid);
    }
  }
}
