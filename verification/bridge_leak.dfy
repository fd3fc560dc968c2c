/** A run that leaves a table entry behind for good: two Blenders, one request registered late on a replaced session,
    its answer arriving over a third connection, and the caller's deadline passing while that answer is being put aside. */
module BridgeLeak {
  import opened Wrappers
  import opened Pending
  import opened Bridge
  import opened BridgeFields
  import opened BridgeWaiters
  import opened BridgeFailing
  import opened BridgePast
  import A = AddOn
  import G = BridgeForGood

  ghost predicate Reachable(y: System)
  {
    exists start, steps :: Reaches(start, steps, y)
  }

  ghost predicate Reaches(start: System, steps: seq<Step>, y: System)
  {
    Initial(start) && Runs(start, steps) && After(start, steps) == y
  }

  lemma {:induction false} RunSnoc(y: System, steps: seq<Step>, a: Step)
    requires Runs(y, steps) && Enabled(After(y, steps), a)
    ensures Runs(y, steps + [a]) && After(y, steps + [a]) == Act(After(y, steps), a)
    decreases |steps|
  {
    if steps == [] {
      assert [] + [a] == [a];
      assert Runs(Act(y, a), [a][1..]);
    } else {
      RunSnoc(Act(y, steps[0]), steps[1..], a);
      assert (steps + [a])[1..] == steps[1..] + [a];
    }
  }

  lemma Go(y: System, a: Step) returns (z: System)
    requires Reachable(y) && Enabled(y, a)
    ensures Reachable(z) && z == Act(y, a)
  {
    z := Act(y, a);
    var start, steps :| Reaches(start, steps, y);
    RunSnoc(start, steps, a);
    assert Reaches(start, steps + [a], z);
  }

  lemma ReachableIsKnown(y: System)
    requires Reachable(y)
    ensures Known(y)
  {
    var start, steps :| Reaches(start, steps, y);
    ReachedIsKnown(start, steps);
  }

  /** A connection with both of its add-on's threads up. */
  function NewConn(p: PeerId, pc: Pc): Conn
  {
    Conn(p, pc, true, [], [], [], true, Serving, true, None)
  }

  /** A connection whose reader has gone and whose writer has not. */
  function Left(p: PeerId, pc: Pc): Conn
  {
    NewConn(p, pc).(open := false, reader := Closed)
  }

  /** What the run looks at: everything but the history. */
  datatype View = View(slot: Option<SessionId>, pending: Table, calls: map<CallId, Call>, conns: map<SessionId, Conn>,
                       peers: map<PeerId, Peer>)

  function Look(y: System): View
  {
    View(y.slot, y.pending, y.calls, y.conns, y.peers)
  }

  lemma GoServer(y: System, sid: SessionId, a: ServerStep) returns (z: System)
    requires Reachable(y) && ServerEnabled(y, sid, a)
    ensures Reachable(z) && z == ServerAct(y, sid, a)
    ensures z.slot == SlotAfterServer(y, sid, a) && z.pending == TableAfterServer(y, sid, a)
    ensures z.calls == y.calls && z.peers == y.peers && z.past == PastAfterServer(y, sid, a)
    ensures z.conns == y.conns[sid := ConnAfterServer(y, sid, a)]
  {
    z := Go(y, Server(sid, a));
    hide *;
    ServerFields(y, sid, a);
  }

  lemma GoPeer(y: System, p: PeerId, a: PeerStep) returns (z: System)
    requires Reachable(y) && PeerEnabled(y, p, a)
    ensures Reachable(z) && z == PeerAct(y, p, a)
    ensures z.slot == y.slot && z.pending == y.pending && z.calls == y.calls && z.past == y.past
    ensures z.conns == ConnsAfterPeer(y, p, a) && z.runs == RunsAfterPeer(y, p, a)
    ensures z.peers == y.peers[p := Peer(AddonAfterPeer(y, p, a))]
  {
    z := Go(y, Main(p, a));
    hide *;
    PeerFields(y, p, a);
  }

  lemma Dial(y: System, p: PeerId, sid: SessionId) returns (z: System)
    requires Reachable(y) && p in y.peers && sid !in y.conns
    ensures Reachable(z)
    ensures Look(z) == Look(y).(conns := y.conns[sid := NewConn(p, Acked).(reader := Shaken, writer := false)])
  {
    hide Reachable, ServerAct, PeerAct, WriterAct, CallAct;
    var a := GoServer(y, sid, Offer(p));
    z := GoPeer(a, p, Acknowledge(sid));
    assert z.conns == y.conns[sid := NewConn(p, Acked).(reader := Shaken, writer := false)];
  }

  lemma Serve(y: System, p: PeerId, sid: SessionId, rest: map<SessionId, Conn>) returns (z: System)
    requires Reachable(y) && p in y.peers
    requires y.conns == rest[sid := NewConn(p, Acked).(reader := Shaken, writer := false)]
    ensures Reachable(z)
    ensures Look(z) == Look(y).(conns := rest[sid := NewConn(p, Acked)],
                                peers := y.peers[p := Peer(y.peers[p].addon.(session := Some(sid)))])
  {
    hide Reachable, ServerAct, PeerAct, WriterAct, CallAct;
    z := GoPeer(y, p, Adopt(sid));
    assert z.conns == rest[sid := NewConn(p, Acked)];
  }

  lemma Take(y: System, p: PeerId, sid: SessionId, rest: map<SessionId, Conn>) returns (z: System)
    requires Reachable(y) && y.conns == rest[sid := NewConn(p, Acked)]
    ensures Reachable(z)
    ensures Look(z) == Look(y).(slot := Some(sid),
      conns := rest[sid := NewConn(p, if y.slot.Some? then FailingPrevious(y.slot.value) else Reading)])
  {
    hide Reachable, ServerAct, PeerAct, WriterAct, CallAct;
    z := GoServer(y, sid, Install);
    assert z.conns == rest[sid := NewConn(p, if y.slot.Some? then FailingPrevious(y.slot.value) else Reading)];
  }

  /** One Blender dials in and is installed. */
  lemma Attach(y: System, p: PeerId, sid: SessionId) returns (z: System)
    requires Reachable(y) && p in y.peers && sid !in y.conns
    ensures Reachable(z)
    ensures Look(z) == Look(y).(slot := Some(sid),
      conns := y.conns[sid := NewConn(p, if y.slot.Some? then FailingPrevious(y.slot.value) else Reading)],
      peers := y.peers[p := Peer(y.peers[p].addon.(session := Some(sid)))])
  {
    hide Reachable, ServerAct, PeerAct, WriterAct, CallAct;
    var a := Dial(y, p, sid);
    var b := Serve(a, p, sid, y.conns);
    assert b.peers == y.peers[p := Peer(y.peers[p].addon.(session := Some(sid)))];
    z := Take(b, p, sid, y.conns);
  }

  /** The new connection's task fails the session it replaced, which has no request in the table. */
  lemma FailNothing(y: System, p: PeerId, sid: SessionId, previous: SessionId, rest: map<SessionId, Conn>)
    returns (z: System)
    requires Reachable(y) && y.conns == rest[sid := NewConn(p, FailingPrevious(previous))]
    requires forall id | id in y.pending.entries :: y.pending.entries[id].session != previous
    ensures Reachable(z) && Look(z) == Look(y).(conns := rest[sid := NewConn(p, Reading)])
  {
    hide Reachable, ServerAct, PeerAct, WriterAct, CallAct;
    z := GoServer(y, sid, FailPrevious);
    assert OfSession(y.pending, previous) == {};
    assert z.pending.entries == y.pending.entries && z.pending.cells == y.pending.cells;
    assert z.conns == rest[sid := NewConn(p, Reading)];
  }

  const A0: A.State := A.Idle.(session := Some(10))

  /** A first Blender is attached under 10, a caller picks that session up, and a second Blender replaces it under 20. */
  lemma TwoBlenders(op: nat) returns (y: System)
    ensures Reachable(y)
    ensures Look(y) == View(Some(20), Table(map[], map[]), map[0 := Picked(10, op)],
                            map[10 := NewConn(0, Reading), 20 := NewConn(1, Reading)],
                            map[0 := Peer(A0), 1 := Peer(A.Idle.(session := Some(20)))])
  {
    hide ServerAct, PeerAct, WriterAct, CallAct;
    var start := System(None, Table(map[], map[]), map[], map[], map[0 := Peer(A.Idle), 1 := Peer(A.Idle)],
                        [], [], map[], {}, [], {}, Past(map[], map[], []));
    assert Reaches(start, [], start);
    var a := Attach(start, 0, 10);
    assert a.conns == map[10 := NewConn(0, Reading)];
    assert a.peers == map[0 := Peer(A0), 1 := Peer(A.Idle)];
    var b := GoCall(a, 0, Pick(op));
    var c := Attach(b, 1, 20);
    assert c.conns == map[10 := NewConn(0, Reading)][20 := NewConn(1, FailingPrevious(10))];
    y := FailNothing(c, 1, 20, 10, map[10 := NewConn(0, Reading)]);
    assert y.conns == map[10 := NewConn(0, Reading), 20 := NewConn(1, Reading)];
  }

  /** A session installed once, no longer in the slot and about to be failed by nobody, has been failed. */
  lemma WasFailed(y: System, d: SessionId)
    requires Known(y) && d in y.installed && y.slot != Some(d) && !AboutToFail(y, d)
    ensures d in y.past.failed && y.past.failed[d].known <= y.pending.cells.Keys
  {
  }

  /** Only now does the caller register on the replaced session, whose requests have been failed already: nothing fails
      this one. */
  lemma LateRegistration(op: nat) returns (y: System)
    ensures Reachable(y)
    ensures 7 in y.past.sessions && y.past.sessions[7] == 10 && 10 in y.past.failed && 7 !in y.past.failed[10].known
    ensures Look(y) == View(Some(20), Table(map[7 := Entry(10, op)], map[7 := Waiting]),
                            map[0 := Call.Registered(7, 10, op)],
                            map[10 := NewConn(0, Reading), 20 := NewConn(1, Reading)],
                            map[0 := Peer(A0), 1 := Peer(A.Idle.(session := Some(20)))])
  {
    hide Reachable, ServerAct, PeerAct, WriterAct, CallAct;
    var a := TwoBlenders(op);
    FirstIsFailed(a, op);
    y := GoCall(a, 0, Register(7));
    assert y.calls == map[0 := Call.Registered(7, 10, op)];
    assert y.pending == Table(map[7 := Entry(10, op)], map[7 := Waiting]);
  }

  lemma FirstIsFailed(y: System, op: nat)
    requires Reachable(y) && y.slot == Some(20) && 0 in y.calls && y.calls[0] == Picked(10, op)
    requires y.conns == map[10 := NewConn(0, Reading), 20 := NewConn(1, Reading)]
    ensures 10 in y.past.failed && y.past.failed[10].known <= y.pending.cells.Keys
  {
    NobodyFails(y);
    hide *;
    ReachableIsKnown(y);
    PickedIsInstalled(y, 0);
    WasFailed(y, 10);
  }

  lemma NobodyFails(y: System)
    requires y.conns == map[10 := NewConn(0, Reading), 20 := NewConn(1, Reading)]
    ensures forall d :: !AboutToFail(y, d)
  {
  }

  lemma PickedIsInstalled(y: System, c: CallId)
    requires Known(y) && c in y.calls && y.calls[c].Picked?
    ensures y.calls[c].session in y.installed
  {
  }

  lemma GoCall(y: System, c: CallId, a: CallStep) returns (z: System)
    requires Reachable(y) && CallEnabled(y, c, a)
    ensures Reachable(z) && z == CallAct(y, c, a)
    ensures z.slot == y.slot && z.peers == y.peers && z.runs == y.runs
    ensures z.calls == y.calls[c := CallAfter(y, c, a)] && z.pending == TableAfterCall(y, c, a)
    ensures z.conns == ConnsAfterCall(y, c, a)
    ensures z.past == if a.Register? then y.past.(sessions := y.past.sessions[a.id := y.calls[c].session]) else y.past
  {
    z := Go(y, Caller(c, a));
    hide *;
    CallFields(y, c, a);
  }

  lemma GoWriter(y: System, sid: SessionId, a: WriterStep) returns (z: System)
    requires Reachable(y) && WriterEnabled(y, sid, a)
    ensures Reachable(z) && z == WriterAct(y, sid, a)
    ensures z.slot == y.slot && z.pending == y.pending && z.calls == y.calls && z.runs == y.runs
    ensures z.conns == y.conns[sid := ConnAfterWriter(y, sid, a)] && z.peers == PeersAfterWriter(y, sid, a)
    ensures z.past == PastAfterWriter(y, sid, a)
  {
    z := Go(y, Writer(sid, a));
    hide *;
    WriterFields(y, sid, a);
  }

  lemma Sends(y: System, sid: SessionId, rest: map<SessionId, Conn>, op: nat) returns (z: System)
    requires Reachable(y) && y.calls == map[0 := Call.Registered(7, sid, op)] && y.conns == rest[sid := NewConn(0, Reading)]
    ensures Reachable(z) && z.slot == y.slot && z.calls == map[0 := Awaiting(7, op)] && z.pending == y.pending
    ensures z.conns == rest[sid := NewConn(0, Reading).(outbound := [A.Request(7, op)])] && z.peers == y.peers
  {
    hide Reachable, ServerAct, PeerAct, WriterAct, CallAct;
    z := GoCall(y, 0, Send);
    assert [] + [A.Request(7, op)] == [A.Request(7, op)];
    assert z.conns == rest[sid := NewConn(0, Reading).(outbound := [A.Request(7, op)])];
    assert z.calls == map[0 := Awaiting(7, op)];
  }

  lemma Arrives(y: System, sid: SessionId, rest: map<SessionId, Conn>, op: nat) returns (z: System)
    requires Reachable(y) && y.conns == rest[sid := NewConn(0, Reading).(outbound := [A.Request(7, op)])]
    requires 0 in y.peers && y.peers[0] == Peer(A.Idle.(session := Some(sid)))
    ensures Reachable(z) && z.slot == y.slot && z.calls == y.calls && z.pending == y.pending
    ensures z.conns == rest[sid := NewConn(0, Reading)]
    ensures 0 in z.peers && z.peers[0].addon.inbox == [A.Request(7, op)]
    ensures z.peers[0].addon.busy == None && z.peers[0].addon.outbox == []
  {
    hide Reachable, ServerAct, PeerAct, WriterAct, CallAct;
    var b := GoServer(y, sid, Transmit);
    assert b.conns[sid].outbound == [] && b.conns[sid].down == [A.Request(7, op)];
    assert b.conns == rest[sid := NewConn(0, Reading).(down := [A.Request(7, op)])];
    z := GoPeer(b, 0, ReadRequest(sid));
    assert z.conns == rest[sid := NewConn(0, Reading)];
    assert z.peers[0].addon == A.ReadRequest(A.Idle.(session := Some(sid)), A.Request(7, op));
  }

  /** The Blender drops its connection; its writer thread, and what it has queued, stay. */
  lemma Drops(y: System, sid: SessionId, rest: map<SessionId, Conn>) returns (z: System)
    requires Reachable(y) && 0 in y.peers && y.conns == rest[sid := NewConn(0, Reading)]
    ensures Reachable(z) && z.slot == y.slot && z.calls == y.calls && z.pending == y.pending
    ensures z.conns == rest[sid := Left(0, Reading)]
    ensures z.peers == y.peers[0 := Peer(y.peers[0].addon.(session := None))]
  {
    hide Reachable, ServerAct, PeerAct, WriterAct, CallAct;
    var b := GoPeer(y, 0, LeaveRead(sid));
    assert b.conns == rest[sid := NewConn(0, Reading).(reader := Leaving)];
    z := GoPeer(b, 0, Close(sid));
    assert z.conns == rest[sid := Left(0, Reading)];
    assert z.peers == y.peers[0 := Peer(y.peers[0].addon.(session := None))];
  }

  /** The replaced connection's writer task still takes the request. */
  lemma SentLate(op: nat) returns (y: System)
    ensures Reachable(y)
    ensures Look(y) == View(Some(20), Table(map[7 := Entry(10, op)], map[7 := Waiting]), map[0 := Awaiting(7, op)],
                            map[10 := NewConn(0, Reading).(outbound := [A.Request(7, op)]), 20 := NewConn(1, Reading)],
                            map[0 := Peer(A0), 1 := Peer(A.Idle.(session := Some(20)))])
  {
    hide Reachable, ServerAct, PeerAct, WriterAct, CallAct;
    var a := LateRegistration(op);
    y := Sends(a, 10, map[20 := NewConn(1, Reading)], op);
    assert y.conns == map[10 := NewConn(0, Reading).(outbound := [A.Request(7, op)]), 20 := NewConn(1, Reading)];
  }

  /** Its Blender still reads it. */
  lemma StillRead(op: nat) returns (y: System)
    ensures Reachable(y) && y.slot == Some(20) && y.calls == map[0 := Awaiting(7, op)]
    ensures y.pending == Table(map[7 := Entry(10, op)], map[7 := Waiting])
    ensures y.conns == map[10 := NewConn(0, Reading), 20 := NewConn(1, Reading)]
    ensures 0 in y.peers
    ensures y.peers[0].addon.inbox == [A.Request(7, op)] && y.peers[0].addon.busy == None && y.peers[0].addon.outbox == []
  {
    hide Reachable, ServerAct, PeerAct, WriterAct, CallAct;
    var a := SentLate(op);
    y := Arrives(a, 10, map[20 := NewConn(1, Reading)], op);
    assert y.conns == map[10 := NewConn(0, Reading), 20 := NewConn(1, Reading)];
  }

  /** That Blender drops the old connection. */
  lemma Dropped(op: nat) returns (y: System)
    ensures Reachable(y) && y.slot == Some(20) && y.calls == map[0 := Awaiting(7, op)]
    ensures y.pending == Table(map[7 := Entry(10, op)], map[7 := Waiting])
    ensures y.conns == map[10 := Left(0, Reading), 20 := NewConn(1, Reading)]
    ensures 0 in y.peers
    ensures y.peers[0].addon.inbox == [A.Request(7, op)] && y.peers[0].addon.busy == None && y.peers[0].addon.outbox == []
  {
    hide Reachable, ServerAct, PeerAct, WriterAct, CallAct;
    var a := StillRead(op);
    y := Drops(a, 10, map[20 := NewConn(1, Reading)]);
    assert y.conns == map[10 := Left(0, Reading), 20 := NewConn(1, Reading)];
  }

  /** It reconnects under 30, replacing 20; nothing fails the late request. */
  lemma Reconnected(op: nat) returns (y: System)
    ensures Reachable(y) && y.slot == Some(30) && y.calls == map[0 := Awaiting(7, op)]
    ensures y.pending == Table(map[7 := Entry(10, op)], map[7 := Waiting])
    ensures y.conns == map[10 := Left(0, Reading), 20 := NewConn(1, Reading), 30 := NewConn(0, Reading)]
    ensures 0 in y.peers
    ensures y.peers[0].addon.inbox == [A.Request(7, op)] && y.peers[0].addon.busy == None && y.peers[0].addon.outbox == []
  {
    hide Reachable, ServerAct, PeerAct, WriterAct, CallAct;
    var a := Dropped(op);
    var b := Attach(a, 0, 30);
    y := FailNothing(b, 0, 30, 20, a.conns);
  }

  /** The request is handled and answered; the answer goes to the outbox. */
  lemma Handles(y: System, op: nat) returns (z: System)
    requires Reachable(y) && 0 in y.peers && y.peers[0].addon.inbox == [A.Request(7, op)]
    requires y.peers[0].addon.busy == None && y.peers[0].addon.outbox == []
    ensures Reachable(z) && z.slot == y.slot && z.calls == y.calls && z.pending == y.pending && z.conns == y.conns
    ensures z.past == y.past && z.runs == y.runs + [Run(7, op, Ok(1))]
    ensures 0 in z.peers && z.peers[0].addon.outbox == [A.Response(7, Ok(1))]
  {
    hide Reachable, ServerAct, PeerAct, WriterAct, CallAct;
    var b := GoPeer(y, 0, TakeRequest);
    assert b.peers[0].addon.busy == Some(A.Request(7, op)) && b.peers[0].addon.outbox == [] && b.conns == y.conns;
    z := GoPeer(b, 0, Finish(Ok(1)));
    assert z.peers[0].addon == A.Answer(b.peers[0].addon, Ok(1));
  }

  /** The answer crosses the new connection. */
  lemma AnswerCrosses(y: System, op: nat, rest: map<SessionId, Conn>) returns (z: System)
    requires Reachable(y) && 0 in y.peers && y.peers[0].addon.inbox == [A.Request(7, op)]
    requires y.peers[0].addon.busy == None && y.peers[0].addon.outbox == []
    requires y.conns == rest[30 := NewConn(0, Reading)]
    ensures Reachable(z) && z.slot == y.slot && z.calls == y.calls && z.pending == y.pending
    ensures z.conns == rest[30 := NewConn(0, Reading).(up := [A.Response(7, Ok(1))])]
  {
    hide Reachable, ServerAct, PeerAct, WriterAct, CallAct;
    var a := Handles(y, op);
    var b := GoWriter(a, 30, TakeFrame);
    assert b.conns[30] == NewConn(0, Reading).(hand := Some(A.Response(7, Ok(1))));
    z := GoWriter(b, 30, WriteFrame);
    assert z.conns[30] == NewConn(0, Reading).(up := [A.Response(7, Ok(1))]);
    assert z.conns == y.conns[30 := z.conns[30]];
  }

  /** Its task takes the entry out to look at it. */
  lemma StrayTaken(y: System, op: nat, rest: map<SessionId, Conn>) returns (z: System)
    requires Reachable(y) && y.pending == Table(map[7 := Entry(10, op)], map[7 := Waiting])
    requires y.conns == rest[30 := NewConn(0, Reading).(up := [A.Response(7, Ok(1))])]
    ensures Reachable(z) && z.slot == y.slot && z.calls == y.calls
    ensures z.pending == Table(map[], map[7 := Waiting])
    ensures z.conns == rest[30 := NewConn(0, HoldingStray(7, Entry(10, op)))]
  {
    hide Reachable, ServerAct, PeerAct, WriterAct, CallAct;
    z := GoServer(y, 30, ReadFrame);
    var was := y.conns[30];
    assert was.up[1..] == [] && was.up[0] == A.Response(7, Ok(1));
    assert IsStray(y.pending, 30, was.up[0]);
    assert z.conns[30] == NewConn(0, HoldingStray(7, Entry(10, op)));
    assert z.conns == rest[30 := NewConn(0, HoldingStray(7, Entry(10, op)))];
    assert z.pending.entries == map[];
  }

  lemma StrayInHand(op: nat) returns (y: System)
    ensures Reachable(y) && y.slot == Some(30) && y.calls == map[0 := Awaiting(7, op)]
    ensures y.pending == Table(map[], map[7 := Waiting])
    ensures y.conns.Keys == {10, 20, 30} && y.conns[30].pc == HoldingStray(7, Entry(10, op))
    ensures y.conns[10].pc == Reading && y.conns[20].pc == Reading
  {
    hide Reachable, ServerAct, PeerAct, WriterAct, CallAct;
    var a := Reconnected(op);
    var rest := map[10 := Left(0, Reading), 20 := NewConn(1, Reading)];
    assert a.conns == rest[30 := NewConn(0, Reading)];
    var b := AnswerCrosses(a, op, rest);
    y := StrayTaken(b, op, rest);
  }

  /** In a reachable state the call is over, nobody holds its entry, and the entry is in the table and stays there whatever
      happens next. */
  lemma AnEntryCanOutliveItsCall(op: nat) returns (y: System)
    ensures Reachable(y) && 0 in y.calls && y.calls[0] == Done(7, op, TimedOut)
    ensures 7 in y.pending.entries && !Held(y, 7) && G.ForGood(y, 7)
  {
    hide Reachable, ServerAct, PeerAct, WriterAct, CallAct;
    var a := StrayInHand(op);
    var b := GoCall(a, 0, Expire);
    assert b.conns == a.conns && b.pending == a.pending;
    var c := GoCall(b, 0, CancelExpired);
    assert c.conns == a.conns && c.pending == a.pending;
    y := GoServer(c, 30, RestoreStray);
    assert y.conns == a.conns[30 := a.conns[30].(pc := Reading)] && y.slot == Some(30);
    assert 7 in y.pending.entries && y.pending.entries[7] == Entry(10, op);
    LeftForGood(y, op);
  }

  lemma LeftForGood(y: System, op: nat)
    requires Reachable(y) && 0 in y.calls && y.calls[0] == Done(7, op, TimedOut)
    requires 7 in y.pending.entries && y.pending.entries[7].session == 10 && y.slot == Some(30)
    requires forall sid | sid in y.conns :: y.conns[sid].pc == Reading
    ensures !Held(y, 7) && G.ForGood(y, 7)
  {
    hide Reachable, ServerAct, PeerAct, WriterAct, CallAct;
    AllReading(y);
    assert G.Ended(y, 0, 7);
    hide *;
    ReachableIsKnown(y);
    G.SessionOfEntry(y, 7);
    WasFailed(y, 10);
    G.FailedBy(y, 7);
    G.ForGoodExactlyWhen(y, 0, 7);
  }

  lemma AllReading(y: System)
    requires forall sid | sid in y.conns :: y.conns[sid].pc == Reading
    ensures (forall d :: !AboutToFail(y, d)) && (forall id :: !Held(y, id))
  {
  }
}
