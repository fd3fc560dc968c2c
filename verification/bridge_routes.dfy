/** Two more runs: a request that was registered in time and survives the failing of its session, and an answer that the
    old connection's writer takes and loses. */
module BridgeRoutes {
  import opened Wrappers
  import opened Pending
  import opened Bridge
  import opened BridgeFields
  import opened BridgeWaiters
  import opened BridgeFailing
  import opened BridgePast
  import opened BridgeLeak
  import A = AddOn
  import N = BridgeAnswers

  const B0: map<PeerId, Peer> := map[0 := Peer(A.Idle)]

  /** One Blender attached under 10. */
  lemma OneBlender() returns (y: System)
    ensures Reachable(y)
    ensures Look(y) == View(Some(10), Table(map[], map[]), map[], map[10 := NewConn(0, Reading)],
                            map[0 := Peer(A0)])
  {
    hide ServerAct, PeerAct, WriterAct, CallAct;
    var start := System(None, Table(map[], map[]), map[], map[], B0, [], [], map[], {}, [], {}, Past(map[], map[], []));
    assert Reaches(start, [], start);
    y := Attach(start, 0, 10);
    assert y.conns == map[10 := NewConn(0, Reading)];
    assert y.peers == map[0 := Peer(A0)];
  }

  /** A caller's request is sent on the session in the slot and read by its Blender. */
  lemma Asks(y: System, sid: SessionId, rest: map<SessionId, Conn>, op: nat) returns (z: System)
    requires Reachable(y) && y.slot == Some(sid) && y.calls == map[] && y.pending == Table(map[], map[])
    requires y.conns == rest[sid := NewConn(0, Reading)]
    requires 0 in y.peers && y.peers[0] == Peer(A.Idle.(session := Some(sid)))
    ensures Reachable(z) && z.slot == y.slot && z.calls == map[0 := Awaiting(7, op)]
    ensures z.pending == Table(map[7 := Entry(sid, op)], map[7 := Waiting])
    ensures z.conns == rest[sid := NewConn(0, Reading)]
    ensures 0 in z.peers && z.peers[0].addon.inbox == [A.Request(7, op)]
    ensures z.peers[0].addon.busy == None && z.peers[0].addon.outbox == []
  {
    hide Reachable, ServerAct, PeerAct, WriterAct, CallAct;
    var b := Registers(y, sid, op);
    var c := Sends(b, sid, rest, op);
    z := Arrives(c, sid, rest, op);
  }

  lemma Registers(y: System, sid: SessionId, op: nat) returns (z: System)
    requires Reachable(y) && y.slot == Some(sid) && y.calls == map[] && y.pending == Table(map[], map[])
    ensures Reachable(z) && z.slot == y.slot && z.calls == map[0 := Call.Registered(7, sid, op)]
    ensures z.pending == Table(map[7 := Entry(sid, op)], map[7 := Waiting]) && z.conns == y.conns && z.peers == y.peers
  {
    hide Reachable, ServerAct, PeerAct, WriterAct, CallAct;
    var a := GoCall(y, 0, Pick(op));
    z := GoCall(a, 0, Register(7));
    assert z.pending == Table(map[7 := Entry(sid, op)], map[7 := Waiting]);
    assert z.calls == map[0 := Call.Registered(7, sid, op)];
  }

  // ---------------------------------------------------------------------------
  // Registered in time, held while its session is failed
  // ---------------------------------------------------------------------------

  /** The server sees the connection end and empties the slot; it has not failed the session yet. */
  lemma SlotEmptied(op: nat) returns (y: System)
    ensures Reachable(y) && y.slot == None && y.calls == map[0 := Awaiting(7, op)]
    ensures y.pending == Table(map[7 := Entry(10, op)], map[7 := Waiting])
    ensures y.conns == map[10 := Left(0, FailingOwn)]
    ensures 0 in y.peers
    ensures y.peers[0].addon.inbox == [A.Request(7, op)] && y.peers[0].addon.busy == None && y.peers[0].addon.outbox == []
  {
    hide Reachable, ServerAct, PeerAct, WriterAct, CallAct;
    var a := OneBlender();
    assert a.conns == map[][10 := NewConn(0, Reading)];
    var b := Asks(a, 10, map[], op);
    var c := Drops(b, 10, map[]);
    var d := GoServer(c, 10, EndRead);
    assert d.conns == map[10 := Left(0, Ending)];
    y := GoServer(d, 10, ClearSlot);
    assert y.conns == map[10 := Left(0, FailingOwn)];
  }

  /** The same Blender is back under 30, and its answer is a stray there. */
  lemma HeldMeanwhile(op: nat) returns (y: System)
    ensures Reachable(y) && y.slot == Some(30) && y.calls == map[0 := Awaiting(7, op)]
    ensures y.pending == Table(map[], map[7 := Waiting])
    ensures y.conns == map[10 := Left(0, FailingOwn), 30 := NewConn(0, HoldingStray(7, Entry(10, op)))]
  {
    hide Reachable, ServerAct, PeerAct, WriterAct, CallAct;
    var a := SlotEmptied(op);
    var b := Attach(a, 0, 30);
    var rest := map[10 := Left(0, FailingOwn)];
    assert b.conns == rest[30 := NewConn(0, Reading)];
    var c := AnswerCrosses(b, op, rest);
    y := StrayTaken(c, op, rest);
  }

  /** In a reachable state a request registered before its session was failed is in the table after that failing, because
      a task held it meanwhile; its caller is still waiting, and no failing of its session is to come. */
  lemma HeldThroughTheFailing(op: nat) returns (y: System)
    ensures Reachable(y) && y.calls == map[0 := Awaiting(7, op)]
    ensures 7 in y.pending.entries && 7 in y.past.sessions && y.past.sessions[7] == 10 && 10 in y.past.failed
    ensures 7 in y.past.failed[10].known && 7 in y.past.failed[10].held && y.slot != Some(10) && !AboutToFail(y, 10)
  {
    hide Reachable, ServerAct, PeerAct, WriterAct, CallAct;
    var a := HeldMeanwhile(op);
    var b := FailsTheHeld(a, op);
    y := GoServer(b, 30, RestoreStray);
    NotFailedAgain(y, 10);
    hide AboutToFail;
  }

  lemma FailsTheHeld(a: System, op: nat) returns (b: System)
    requires Reachable(a) && 30 in a.conns && a.conns[30].pc == HoldingStray(7, Entry(10, op))
    requires 10 in a.conns && a.conns[10].pc.FailingOwn? && 7 in a.pending.cells
    ensures Reachable(b) && b.calls == a.calls && 30 in b.conns && b.conns[30].pc == HoldingStray(7, Entry(10, op))
    ensures 7 in b.past.sessions && b.past.sessions[7] == 10 && 10 in b.past.failed
    ensures 7 in b.past.failed[10].known && 7 in b.past.failed[10].held
  {
    hide Reachable, ServerAct, HeldIds, Known, Held;
    b := GoServer(a, 10, FailOwn);
    ReachableIsKnown(a);
    HeldSession(a, 30, 7);
    HeldNow(a, 30, 7);
    assert b.past.failed[10] == Failing(a.pending.cells.Keys, HeldIds(a));
  }

  lemma HeldNow(y: System, sid: SessionId, id: RequestId)
    requires HoldsStray(y, sid, id)
    ensures id in HeldIds(y)
  {
  }

  lemma NotFailedAgain(y: System, d: SessionId)
    requires Reachable(y) && d in y.past.failed
    ensures y.slot != Some(d) && !AboutToFail(y, d)
  {
    ReachableIsKnown(y);
  }

  lemma HeldSession(y: System, sid: SessionId, id: RequestId)
    requires Known(y) && HoldsStray(y, sid, id)
    ensures id in y.past.sessions && y.past.sessions[id] == y.conns[sid].pc.entry.session
  {
    assert HoldsEntry(y, sid, id, y.conns[sid].pc.entry);
    assert Carries(y, id, y.conns[sid].pc.entry);
  }

  // ---------------------------------------------------------------------------
  // An answer lost by the old connection's writer
  // ---------------------------------------------------------------------------

  /** The Blender reconnects under 30 while the writer thread of its old connection has not stopped yet. */
  lemma OldWriterStays() returns (y: System)
    ensures Reachable(y) && y.slot == Some(30) && y.calls == map[] && y.pending == Table(map[], map[])
    ensures y.conns == map[10 := Left(0, Reading), 30 := NewConn(0, Reading)]
    ensures y.peers == map[0 := Peer(A.Idle.(session := Some(30)))]
  {
    hide Reachable, ServerAct, PeerAct, WriterAct, CallAct;
    var a := OneBlender();
    assert a.conns == map[][10 := NewConn(0, Reading)];
    var b := Drops(a, 10, map[]);
    var rest := map[10 := Left(0, Reading)];
    assert b.conns == rest && b.peers == B0;
    var c := Attach(b, 0, 30);
    y := FailNothing(c, 0, 30, 10, rest);
    assert y.conns == map[10 := Left(0, Reading), 30 := NewConn(0, Reading)];
    assert y.peers == map[0 := Peer(A.Idle.(session := Some(30)))];
  }

  /** In a reachable state a request was sent, run and answered on a connection that is up and in the slot throughout, and
      its answer is lost: the writer of the connection before took it. */
  lemma AnAnswerCanBeLost(op: nat) returns (y: System)
    ensures Reachable(y) && y.slot == Some(30) && y.calls == map[0 := Awaiting(7, op)]
    ensures 30 in y.conns && y.conns[30] == NewConn(0, Reading) && 7 in y.pending.entries
    ensures Run(7, op, Ok(1)) in y.runs && N.AnswerLost(y, 7)
  {
    hide Reachable, ServerAct, PeerAct, WriterAct, CallAct;
    var a := OldWriterStays();
    var rest := map[10 := Left(0, Reading)];
    assert a.conns == rest[30 := NewConn(0, Reading)];
    var b := Asks(a, 30, rest, op);
    var c := Handles(b, op);
    assert c.runs[|b.runs|] == Run(7, op, Ok(1));
    assert c.conns[10] == Left(0, Reading);
    var d := GoWriter(c, 10, TakeFrame);
    var pull := Pull(0, 10, A.Response(7, Ok(1)), InHand);
    assert d.past.pulls == c.past.pulls + [pull] && d.conns[30] == c.conns[30];
    assert d.conns[10] == Left(0, Reading).(hand := Some(A.Response(7, Ok(1))));
    y := GoWriter(d, 10, Die);
    var k := |c.past.pulls|;
    assert y.past.pulls[k] == pull.(fate := Gone);
    assert N.LosesAnswer(y, k, 7);
  }

  // ---------------------------------------------------------------------------
  // Two reader threads of one add-on
  // ---------------------------------------------------------------------------

  /** In a reachable state the add-on's connection is up, in the slot and being read, and the add-on is attached under no
      session, so that it emits nothing: another reader, which dialled later and was installed sooner, has left. */
  lemma OneReaderDetachesTheOther() returns (y: System)
    ensures Reachable(y) && y.slot == Some(30)
    ensures y.conns == map[10 := Left(0, Reading), 30 := NewConn(0, Reading)]
    ensures 0 in y.peers && y.peers[0].addon.session == None
    ensures forall payload :: PeerEnabled(y, 0, Emit(payload)) && PeerAct(y, 0, Emit(payload)) == y
  {
    hide Reachable, ServerAct, PeerAct, WriterAct, CallAct;
    var b := TwoReaders();
    y := Drops(b, 10, map[30 := NewConn(0, Reading)]);
    assert y.conns == map[10 := Left(0, Reading), 30 := NewConn(0, Reading)];
    forall payload ensures PeerEnabled(y, 0, Emit(payload)) && PeerAct(y, 0, Emit(payload)) == y {
      DetachedIsSilent(y, 0, payload);
    }
  }

  /** One Blender, two readers: 30 shook hands first, 10 was taken up and installed first, and 30 replaced it. */
  lemma TwoReaders() returns (y: System)
    ensures Reachable(y) && y.slot == Some(30) && 0 in y.peers && y.peers[0].addon.session == Some(30)
    ensures y.conns == map[30 := NewConn(0, Reading)][10 := NewConn(0, Reading)]
  {
    hide ServerAct, PeerAct, WriterAct, CallAct;
    var start := System(None, Table(map[], map[]), map[], map[], B0, [], [], map[], {}, [], {}, Past(map[], map[], []));
    assert Reaches(start, [], start);
    var a := Dial(start, 0, 30);
    hide Reachable;
    var b := Attach(a, 0, 10);
    var rest := map[10 := NewConn(0, Reading)];
    assert b.conns == rest[30 := NewConn(0, Acked).(reader := Shaken, writer := false)];
    var c := Serve(b, 0, 30, rest);
    var d := Take(c, 0, 30, rest);
    y := FailNothing(d, 0, 30, 10, rest);
    assert y.conns == map[30 := NewConn(0, Reading)][10 := NewConn(0, Reading)];
  }

  lemma DetachedIsSilent(y: System, p: PeerId, payload: int)
    requires p in y.peers && y.peers[p].addon.session.None?
    ensures PeerEnabled(y, p, Emit(payload)) && PeerAct(y, p, Emit(payload)) == y
  {
  }
}
