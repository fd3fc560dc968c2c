/** What each party's step does, field by field: the proofs look at the fields they are about. */
module BridgeFields {
  import opened Wrappers
  import opened Pending
  import opened Bridge
  import A = AddOn

  // ---------------------------------------------------------------------------
  // The server's tasks
  // ---------------------------------------------------------------------------

  function SlotAfterServer(y: System, sid: SessionId, a: ServerStep): Option<SessionId>
  {
    if a.Install? then Some(sid) else if a.ClearSlot? && y.slot == Some(sid) then None else y.slot
  }

  function TableAfterServer(y: System, sid: SessionId, a: ServerStep): Table
    requires ServerEnabled(y, sid, a)
  {
    match a
    case FailPrevious => SessionFailed(y.pending, y.conns[sid].pc.previous)
    case ReadFrame => PendingAfter(y.pending, sid, y.conns[sid].up[0])
    case RestoreStray => PutBack(y.pending, y.conns[sid].pc.id, y.conns[sid].pc.entry)
    case FailOwn => SessionFailed(y.pending, sid)
    case _ => y.pending
  }

  function PcAfterServer(y: System, sid: SessionId, a: ServerStep): Pc
    requires ServerEnabled(y, sid, a)
  {
    match a
    case Offer(_) => Offered
    case Install => if y.slot.Some? then FailingPrevious(y.slot.value) else Reading
    case FailPrevious => Reading
    case ReadFrame => PcAfter(y, sid, y.conns[sid].up[0])
    case RestoreStray => Reading
    case EndRead => Ending
    case ClearSlot => if y.slot == Some(sid) then FailingOwn else Aborting
    case FailOwn => Aborting
    case Abort => Finished
    case _ => y.conns[sid].pc
  }

  function OutboundAfterServer(c: Conn, a: ServerStep): seq<A.Request>
  {
    match a
    case Transmit => if c.outbound == [] then [] else c.outbound[1..]
    case Abort => []
    case WriterBreak => []
    case _ => c.outbound
  }

  function ConnAfterServer(y: System, sid: SessionId, a: ServerStep): Conn
    requires ServerEnabled(y, sid, a)
  {
    if a.Offer? then Conn(a.peer, Offered, true, [], [], [], true, Dialled, false, None)
    else
      var c := y.conns[sid];
      Conn(c.peer, PcAfterServer(y, sid, a), c.accepting && !a.Abort? && !a.WriterBreak?, OutboundAfterServer(c, a),
           if a.Transmit? then c.down + [c.outbound[0]] else c.down, if a.ReadFrame? then c.up[1..] else c.up,
           c.open, c.reader, c.writer, c.hand)
  }

  function BroadcastAfterServer(y: System, sid: SessionId, a: ServerStep): seq<Broadcast>
    requires ServerEnabled(y, sid, a)
  {
    if a.ReadFrame? && y.conns[sid].up[0].Event? && y.conns[sid].up[0].session == sid
    then y.broadcast + [Broadcast(sid, y.conns[sid].up[0])] else y.broadcast
  }

  /** The session a step fails, if it fails one. */
  function FailedBy(y: System, sid: SessionId, a: ServerStep): Option<SessionId>
    requires ServerEnabled(y, sid, a)
  {
    match a
    case FailPrevious => Some(y.conns[sid].pc.previous)
    case FailOwn => Some(sid)
    case _ => None
  }

  function PastAfterServer(y: System, sid: SessionId, a: ServerStep): Past
    requires ServerEnabled(y, sid, a)
  {
    match FailedBy(y, sid, a)
    case Some(d) => Noted(y, d)
    case None => y.past
  }

  lemma HeldElsewhere(y: System, x: System, sid: SessionId)
    requires sid in y.conns && !y.conns[sid].pc.HoldingStray? && x.conns.Keys == y.conns.Keys
    requires !x.conns[sid].pc.HoldingStray? && forall d | d in y.conns && d != sid :: x.conns[d].pc == y.conns[d].pc
    ensures HeldIds(x) == HeldIds(y)
  {
    forall id | id in HeldIds(y) ensures id in HeldIds(x) {
      var d :| d in y.conns && y.conns[d].pc.HoldingStray? && y.conns[d].pc.id == id;
      assert x.conns[d].pc.HoldingStray? && x.conns[d].pc.id == id;
    }
    forall id | id in HeldIds(x) ensures id in HeldIds(y) {
      var d :| d in x.conns && x.conns[d].pc.HoldingStray? && x.conns[d].pc.id == id;
      assert y.conns[d].pc.HoldingStray? && y.conns[d].pc.id == id;
    }
  }

  lemma FailFields(y: System, sid: SessionId, d: SessionId, pc: Pc)
    requires sid in y.conns && !y.conns[sid].pc.HoldingStray? && !pc.HoldingStray?
    ensures FailAll(SetPc(y, sid, pc), d)
         == y.(pending := SessionFailed(y.pending, d), conns := y.conns[sid := y.conns[sid].(pc := pc)], past := Noted(y, d))
  {
    hide HeldIds, SessionFailed;
    HeldElsewhere(y, SetPc(y, sid, pc), sid);
  }

  lemma ReadFields(y: System, sid: SessionId)
    requires ServerEnabled(y, sid, ReadFrame)
    ensures ServerAct(y, sid, ReadFrame)
         == y.(pending := TableAfterServer(y, sid, ReadFrame), conns := y.conns[sid := ConnAfterServer(y, sid, ReadFrame)],
               broadcast := BroadcastAfterServer(y, sid, ReadFrame))
  {
    var c := y.conns[sid];
    var x := SetConn(y, sid, c.(up := c.up[1..]));
    assert PcAfter(x, sid, c.up[0]) == PcAfter(y, sid, c.up[0]);
    assert x.conns[sid := x.conns[sid].(pc := PcAfter(y, sid, c.up[0]))] == y.conns[sid := ConnAfterServer(y, sid, ReadFrame)];
    hide PendingAfter, PcAfter;
  }

  lemma ServerFields(y: System, sid: SessionId, a: ServerStep)
    requires ServerEnabled(y, sid, a)
    ensures ServerAct(y, sid, a)
         == y.(slot := SlotAfterServer(y, sid, a), pending := TableAfterServer(y, sid, a),
               conns := y.conns[sid := ConnAfterServer(y, sid, a)],
               installed := if a.Install? then y.installed + [sid] else y.installed,
               broadcast := BroadcastAfterServer(y, sid, a), past := PastAfterServer(y, sid, a))
  {
    hide HandleFrame, PendingAfter, PcAfter, FailAll, SessionFailed, PutBack, Noted;
    if a.ReadFrame? { ReadFields(y, sid); }
    if a.FailPrevious? { FailFields(y, sid, y.conns[sid].pc.previous, Reading); }
    if a.FailOwn? { FailFields(y, sid, sid, Aborting); }
  }

  // ---------------------------------------------------------------------------
  // The add-ons
  // ---------------------------------------------------------------------------

  /** The connection whose reader takes the step, if one does. */
  function ReaderOf(a: PeerStep): Option<SessionId>
  {
    if a.Acknowledge? || a.Adopt? || a.ReadRequest? || a.LeaveRead? || a.Close? then Some(a.session) else None
  }

  function ConnAfterPeer(c: Conn, a: PeerStep): Conn
  {
    match a
    case Acknowledge(_) => c.(pc := Acked, reader := Shaken)
    case Adopt(_) => c.(reader := Serving, writer := true)
    case ReadRequest(_) => if c.down == [] then c else c.(down := c.down[1..])
    case LeaveRead(_) => c.(reader := Leaving)
    case Close(_) => c.(reader := Closed, open := false)
    case _ => c
  }

  function ConnsAfterPeer(y: System, p: PeerId, a: PeerStep): map<SessionId, Conn>
    requires PeerEnabled(y, p, a)
  {
    match ReaderOf(a)
    case Some(sid) => y.conns[sid := ConnAfterPeer(y.conns[sid], a)]
    case None => y.conns
  }

  /** What a step does to its add-on's queues, if anything. */
  function AddonAction(y: System, p: PeerId, a: PeerStep): Option<A.Action>
    requires PeerEnabled(y, p, a)
  {
    match a
    case Acknowledge(_) => None
    case Adopt(sid) => Some(A.DoAdopt(sid))
    case ReadRequest(sid) => Some(A.DoRead(y.conns[sid].down[0]))
    case LeaveRead(_) => Some(A.DoEnd)
    case Close(_) => None
    case Clear => Some(A.DoClear)
    case TakeRequest => Some(A.DoTake)
    case Finish(body) => Some(A.DoAnswer(body))
    case BumpRevision => Some(A.DoBump)
    case Emit(payload) => if y.peers[p].addon.session.Some? then Some(A.DoEmit(payload)) else None
    case ReportFatal => Some(A.DoFatal)
  }

  lemma ActionEnabled(y: System, p: PeerId, a: PeerStep)
    requires PeerEnabled(y, p, a)
    ensures AddonAction(y, p, a).Some? ==> A.Enabled(y.peers[p].addon, AddonAction(y, p, a).value)
  {
  }

  function AddonAfterPeer(y: System, p: PeerId, a: PeerStep): A.State
    requires PeerEnabled(y, p, a)
  {
    ActionEnabled(y, p, a);
    match AddonAction(y, p, a)
    case Some(b) => A.Act(y.peers[p].addon, b)
    case None => y.peers[p].addon
  }

  function RunsAfterPeer(y: System, p: PeerId, a: PeerStep): seq<Run>
    requires PeerEnabled(y, p, a)
  {
    if a.Finish? then y.runs + [Run(y.peers[p].addon.busy.value.id, y.peers[p].addon.busy.value.op, a.body)] else y.runs
  }

  function EmittedAfterPeer(y: System, p: PeerId, a: PeerStep): set<Emission>
    requires PeerEnabled(y, p, a)
  {
    var addon := y.peers[p].addon;
    if a.Emit? && addon.session.Some?
    then y.emitted + {Emission(p, A.Event(addon.session.value, addon.revision, a.payload))} else y.emitted
  }

  lemma PeerFields(y: System, p: PeerId, a: PeerStep)
    requires PeerEnabled(y, p, a)
    ensures PeerAct(y, p, a)
         == y.(conns := ConnsAfterPeer(y, p, a),
               peers := y.peers[p := Peer(AddonAfterPeer(y, p, a))],
               runs := RunsAfterPeer(y, p, a), emitted := EmittedAfterPeer(y, p, a))
  {
    hide A.ReadRequest, A.TakeRequest, A.Answer, A.Bump, A.Emit, A.PopOut, A.Cleared, A.Enqueued;
    var q := y.peers[p];
    assert y.peers[p := q] == y.peers && Peer(q.addon) == q;
  }

  // ---------------------------------------------------------------------------
  // The writer threads
  // ---------------------------------------------------------------------------

  function ConnAfterWriter(y: System, sid: SessionId, a: WriterStep): Conn
    requires WriterEnabled(y, sid, a)
  {
    var c := y.conns[sid];
    match a
    case TakeFrame => c.(hand := Some(y.peers[c.peer].addon.outbox[0]))
    case WriteFrame => c.(hand := None, up := c.up + [c.hand.value])
    case WriteTooLarge => c.(hand := None, up := c.up + Shortened(c.hand.value))
    case Die => c.(writer := false, hand := None)
    case Shut => c.(open := false)
  }

  function PeersAfterWriter(y: System, sid: SessionId, a: WriterStep): map<PeerId, Peer>
    requires WriterEnabled(y, sid, a)
  {
    var p := y.conns[sid].peer;
    if a.TakeFrame? then y.peers[p := y.peers[p].(addon := A.PopOut(y.peers[p].addon))] else y.peers
  }

  function PastAfterWriter(y: System, sid: SessionId, a: WriterStep): Past
    requires WriterEnabled(y, sid, a)
  {
    var c := y.conns[sid];
    match a
    case TakeFrame => y.past.(pulls := y.past.pulls + [Pull(c.peer, sid, y.peers[c.peer].addon.outbox[0], InHand)])
    case WriteFrame => Settle(y.past, sid, Crossed)
    case WriteTooLarge => Settle(y.past, sid, TooBig)
    case Die => Settle(y.past, sid, Gone)
    case Shut => y.past
  }

  lemma WriterFields(y: System, sid: SessionId, a: WriterStep)
    requires WriterEnabled(y, sid, a)
    ensures WriterAct(y, sid, a)
         == y.(conns := y.conns[sid := ConnAfterWriter(y, sid, a)], peers := PeersAfterWriter(y, sid, a),
               past := PastAfterWriter(y, sid, a))
  {
    hide A.PopOut, Settle, Shortened;
  }

  // ---------------------------------------------------------------------------
  // Callers
  // ---------------------------------------------------------------------------

  predicate GoesOut(y: System, c: CallId, a: CallStep)
  {
    a.Send? && c in y.calls && y.calls[c].Registered? && y.calls[c].session in y.conns
    && y.conns[y.calls[c].session].accepting
  }

  function CallAfter(y: System, c: CallId, a: CallStep): Call
    requires CallEnabled(y, c, a)
  {
    match a
    case Pick(op) => Picked(y.slot.value, op)
    case Register(id) => Call.Registered(id, y.calls[c].session, y.calls[c].op)
    case Send =>
      if GoesOut(y, c, a) then Awaiting(y.calls[c].id, y.calls[c].op) else SendFailed(y.calls[c].id, y.calls[c].op)
    case CancelFailed => Done(y.calls[c].id, y.calls[c].op, Lost)
    case Receive =>
      var cell := y.pending.cells[y.calls[c].id];
      Done(y.calls[c].id, y.calls[c].op, if cell.Sent? && cell.outcome.Answered? then Reply(cell.outcome.body) else Lost)
    case Expire => Expired(y.calls[c].id, y.calls[c].op)
    case CancelExpired => Done(y.calls[c].id, y.calls[c].op, TimedOut)
  }

  function TableAfterCall(y: System, c: CallId, a: CallStep): Table
    requires CallEnabled(y, c, a)
  {
    match a
    case Register(id) => Pending.Registered(y.pending, id, y.calls[c].session, y.calls[c].op)
    case CancelFailed => Cancelled(y.pending, y.calls[c].id)
    case CancelExpired => Cancelled(y.pending, y.calls[c].id)
    case _ => y.pending
  }

  function ConnsAfterCall(y: System, c: CallId, a: CallStep): map<SessionId, Conn>
    requires CallEnabled(y, c, a)
  {
    if GoesOut(y, c, a) then
      var k := y.calls[c];
      var conn := y.conns[k.session];
      y.conns[k.session := conn.(outbound := conn.outbound + [A.Request(k.id, k.op)])]
    else y.conns
  }

  ghost function MissedAfterCall(y: System, c: CallId, a: CallStep): set<RequestId>
    requires CallEnabled(y, c, a)
  {
    if a.CancelExpired? && Held(y, y.calls[c].id) then y.missed + {y.calls[c].id} else y.missed
  }

  lemma CallFields(y: System, c: CallId, a: CallStep)
    requires CallEnabled(y, c, a)
    ensures CallAct(y, c, a)
         == y.(calls := y.calls[c := CallAfter(y, c, a)], pending := TableAfterCall(y, c, a), conns := ConnsAfterCall(y, c, a),
               sent := if GoesOut(y, c, a) then y.sent[y.calls[c].id := y.calls[c].op] else y.sent,
               missed := MissedAfterCall(y, c, a),
               past := if a.Register? then y.past.(sessions := y.past.sessions[a.id := y.calls[c].session]) else y.past)
  {
    hide Pending.Registered, Cancelled, Held;
  }
}
