/** What holds in every reachable state of the bridge, whatever is interleaved, replaced, cut, refused or timed out. */
module BridgeRuns {
  import opened Wrappers
  import opened Pending
  import opened Bridge
  import opened BridgeFields
  import opened BridgeSlot
  import opened BridgeWaiters
  import opened BridgeTokens
  import T = BridgeTruth
  import A = AddOn

  ghost predicate Inv(y: System)
  {
    SlotInv(y) && AccountInv(y) && WaiterInv(y) && TokenInv(y) && T.TruthInv(y) && T.EventInv(y)
  }

  lemma InitialInv(y: System)
    requires Initial(y)
    ensures Inv(y)
  {
    hide Initial, SlotInv, AccountInv, WaiterInv, TokenInv, T.FramesOk, T.CellsOk, T.RepliesOk, T.StraysWereSent, T.EventInv;
    InitialQueues(y);
    InitialCalls(y);
  }

  lemma InitialQueues(y: System)
    requires Initial(y)
    ensures AccountInv(y) && TokenInv(y) && T.FramesOk(y) && T.EventInv(y)
  {
    forall p | p in y.peers
      ensures A.Accounted(y.peers[p].addon)
    {
      assert y.peers[p].addon == A.Idle;
    }
  }

  lemma InitialCalls(y: System)
    requires Initial(y)
    ensures SlotInv(y) && WaiterInv(y) && T.CellsOk(y) && T.RepliesOk(y) && T.StraysWereSent(y)
  {
  }

  /** A caller whose send failed was never sent, so no response can hold its entry. */
  lemma FailedSendIsNotHeld(y: System, c: CallId)
    requires TokenInv(y) && T.TruthInv(y) && c in y.calls && y.calls[c].SendFailed?
    ensures !Held(y, y.calls[c].id)
  {
  }

  lemma WaitersStep(y: System, a: Step)
    requires WaiterInv(y) && TokenInv(y) && T.TruthInv(y) && Enabled(y, a)
    ensures WaiterInv(Act(y, a))
  {
    match a
    case Server(sid, s) => ServerKeeps(y, sid, s);
    case Main(p, s) =>
      PeerIsQuiet(y, p, s);
      QuietKeeps(y, PeerAct(y, p, s));
    case Writer(sid, s) =>
      WriterIsQuiet(y, sid, s);
      QuietKeeps(y, WriterAct(y, sid, s));
    case Caller(c, s) =>
      if s.CancelFailed? { FailedSendIsNotHeld(y, c); }
      CallKeeps(y, c, s);
  }

  lemma TokensStep(y: System, a: Step)
    requires WaiterInv(y) && TokenInv(y) && Enabled(y, a)
    ensures TokenInv(Act(y, a))
  {
    match a
    case Server(sid, s) =>
      ServerMovesTokens(y, sid, s);
      MoveKeeps(y, ServerAct(y, sid, s), ServerMove(y, sid, s));
    case Main(p, s) =>
      PeerMovesTokens(y, p, s);
      MoveKeeps(y, PeerAct(y, p, s), PeerMove(y, p, s));
    case Writer(sid, s) =>
      WriterMovesTokens(y, sid, s);
      MoveKeeps(y, WriterAct(y, sid, s), Still);
    case Caller(c, s) =>
      if s.Send? { SendKeeps(y, c); } else { CallKeepsTokens(y, c, s); }
  }

  lemma TruthStep(y: System, a: Step)
    requires T.TruthInv(y) && TokenInv(y) && Enabled(y, a)
    ensures T.TruthInv(Act(y, a))
  {
    match a
    case Server(sid, s) => T.ServerKeepsTruth(y, sid, s);
    case Main(p, s) => T.PeerKeepsTruth(y, p, s);
    case Writer(sid, s) => T.WriterKeepsTruth(y, sid, s);
    case Caller(c, s) => T.CallKeepsTruth(y, c, s);
  }

  lemma EventsStep(y: System, a: Step)
    requires T.EventInv(y) && T.TruthInv(y) && Enabled(y, a)
    ensures T.EventInv(Act(y, a))
  {
    match a
    case Server(sid, s) => T.ServerKeepsEvents(y, sid, s);
    case Main(p, s) => T.PeerKeepsEvents(y, p, s);
    case Writer(sid, s) => T.WriterKeepsEvents(y, sid, s);
    case Caller(c, s) => T.CallKeepsEvents(y, c, s);
  }

  lemma StepKeepsInv(y: System, a: Step)
    requires Inv(y) && Enabled(y, a)
    ensures Inv(Act(y, a))
  {
    StepKeepsSlot(y, a);
    StepKeepsAccounts(y, a);
    WaitersStep(y, a);
    TokensStep(y, a);
    TruthStep(y, a);
    EventsStep(y, a);
  }

  lemma {:induction false} RunKeepsInv(y: System, steps: seq<Step>)
    requires Inv(y) && Runs(y, steps)
    ensures Inv(After(y, steps))
    decreases |steps|
  {
    if steps != [] {
      StepKeepsInv(y, steps[0]);
      RunKeepsInv(Act(y, steps[0]), steps[1..]);
    }
  }

  lemma ReachedInv(start: System, steps: seq<Step>)
    requires Initial(start) && Runs(start, steps)
    ensures Inv(After(start, steps))
  {
    hide *;
    InitialInv(start);
    RunKeepsInv(start, steps);
  }

  // ---------------------------------------------------------------------------
  // The theorems
  // ---------------------------------------------------------------------------

  /** Each request's handler runs at most once, on one Blender, and what ran is what was sent. */
  lemma HandlerRunsAtMostOnce(start: System, steps: seq<Step>)
    requires Initial(start) && Runs(start, steps)
    ensures var y := After(start, steps);
            && (forall i, j | 0 <= i < j < |y.runs| :: y.runs[i].id != y.runs[j].id)
            && (forall i | 0 <= i < |y.runs| :: WasSent(y, A.Request(y.runs[i].id, y.runs[i].op)))
  {
    hide *;
    ReachedInv(start, steps);
    InvTokens(After(start, steps));
    RanOnce(After(start, steps));
  }

  lemma InvTokens(y: System)
    requires Inv(y)
    ensures TokenInv(y)
  {
  }

  lemma RanOnce(y: System)
    requires TokenInv(y)
    ensures forall i, j | 0 <= i < j < |y.runs| :: y.runs[i].id != y.runs[j].id
    ensures forall i | 0 <= i < |y.runs| :: WasSent(y, A.Request(y.runs[i].id, y.runs[i].op))
  {
    forall i, j | 0 <= i < j < |y.runs|
      ensures y.runs[i].id != y.runs[j].id
    {
      assert Here(y, AtRun(i)) && Here(y, AtRun(j));
      assert Token(y, AtRun(i)).id == y.runs[i].id && Token(y, AtRun(j)).id == y.runs[j].id;
    }
    forall i | 0 <= i < |y.runs|
      ensures WasSent(y, A.Request(y.runs[i].id, y.runs[i].op))
    {
      assert Here(y, AtRun(i));
      assert Token(y, AtRun(i)) == A.Request(y.runs[i].id, y.runs[i].op);
    }
  }

  /** An `Ok` outcome is the value the one run of that very call's request returned for that call's own command. */
  lemma OkIsTheResultOfThatRequest(start: System, steps: seq<Step>, c: CallId, value: int)
    requires Initial(start) && Runs(start, steps)
    requires var y := After(start, steps); c in y.calls && y.calls[c].Done? && y.calls[c].result == Reply(Ok(value))
    ensures var y := After(start, steps);
            && Run(y.calls[c].id, y.calls[c].op, Ok(value)) in y.runs
            && forall r | r in y.runs && r.id == y.calls[c].id :: r == Run(y.calls[c].id, y.calls[c].op, Ok(value))
  {
    hide *;
    ReachedInv(start, steps);
    OkWasRun(After(start, steps), c, value);
  }

  lemma OkWasRun(y: System, c: CallId, value: int)
    requires Inv(y) && c in y.calls && y.calls[c].Done? && y.calls[c].result == Reply(Ok(value))
    ensures Run(y.calls[c].id, y.calls[c].op, Ok(value)) in y.runs
    ensures forall r | r in y.runs && r.id == y.calls[c].id :: r == Run(y.calls[c].id, y.calls[c].op, Ok(value))
  {
    hide SlotInv, AccountInv, WaiterInv, T.EventInv, InOnePlace, AllWereSent;
    InvTokens(y);
    RanOnce(y);
    var k := y.calls[c];
    assert T.FrameOk(y, A.Response(k.id, k.result.body));
    assert T.WasRun(y, k.id, Ok(value));
    assert WasSent(y, A.Request(k.id, k.op));
    forall r | r in y.runs && r.id == k.id
      ensures r == Run(k.id, k.op, Ok(value))
    {
      var i :| 0 <= i < |y.runs| && y.runs[i] == r;
      var j :| 0 <= j < |y.runs| && y.runs[j] == Run(k.id, k.op, Ok(value));
    }
  }

  /** An event a connection broadcasts carries that connection's session id, and was emitted by the add-on that
      connection reaches while it was attached under that id, however old the outbox it waited in. */
  lemma BroadcastEventsAreTheConnectionsOwn(start: System, steps: seq<Step>, k: nat)
    requires Initial(start) && Runs(start, steps) && k < |After(start, steps).broadcast|
    ensures var y := After(start, steps);
            var b := y.broadcast[k];
            && b.event.Event? && b.event.session == b.conn && b.conn in y.conns
            && Emission(y.conns[b.conn].peer, b.event) in y.emitted
  {
    ReachedInv(start, steps);
  }

  /** The slot holds the most recently installed session until that session's own task clears it, and nothing else. */
  lemma SlotHoldsTheLatestSession(start: System, steps: seq<Step>)
    requires Initial(start) && Runs(start, steps)
    ensures var y := After(start, steps);
            && (y.slot.Some? ==>
                  && y.installed != [] && y.slot.value == y.installed[|y.installed| - 1]
                  && y.slot.value in y.conns && BeforeClear(y.conns[y.slot.value].pc))
            && (y.slot.None? && y.installed != [] ==>
                  && y.installed[|y.installed| - 1] in y.conns
                  && !BeforeClear(y.conns[y.installed[|y.installed| - 1]].pc))
  {
    hide *;
    ReachedInv(start, steps);
    SlotIsTheLatest(After(start, steps));
  }

  lemma SlotIsTheLatest(y: System)
    requires Inv(y)
    ensures y.slot.Some? ==>
              && y.installed != [] && y.slot.value == y.installed[|y.installed| - 1]
              && y.slot.value in y.conns && BeforeClear(y.conns[y.slot.value].pc)
    ensures y.slot.None? && y.installed != [] ==>
              && y.installed[|y.installed| - 1] in y.conns
              && !BeforeClear(y.conns[y.installed[|y.installed| - 1]].pc)
  {
    hide AccountInv, WaiterInv, TokenInv, T.TruthInv, T.EventInv;
  }

  /** Nobody is stranded: a caller still awaiting an unanswered request has its entry in the table, or in the hands of
      a task about to put it back. The arm for a sender dropped unanswered is never taken. */
  lemma NoWaiterIsStranded(start: System, steps: seq<Step>, c: CallId)
    requires Initial(start) && Runs(start, steps)
    requires var y := After(start, steps); c in y.calls && y.calls[c].Awaiting?
    ensures var y := After(start, steps);
            var id := y.calls[c].id;
            && id in y.pending.cells && !y.pending.cells[id].Dropped?
            && (y.pending.cells[id].Waiting? <==> InTable(y, id))
  {
    ReachedInv(start, steps);
    var y := After(start, steps);
    var id := y.calls[c].id;
    if InTable(y, id) && Held(y, id) {
      var sid :| HoldsStray(y, sid, id);
    }
  }

  /** Every step settles a waiter at most once: answered, failed or dropped, it stays so; and a finished call stays as
      it finished. */
  lemma SettledStaysSettled(y: System, a: Step, id: RequestId, c: CallId)
    requires Inv(y) && Enabled(y, a)
    ensures id in y.pending.cells && !y.pending.cells[id].Waiting? ==>
              id in Act(y, a).pending.cells && Act(y, a).pending.cells[id] == y.pending.cells[id]
    ensures c in y.calls && y.calls[c].Done? ==> c in Act(y, a).calls && Act(y, a).calls[c] == y.calls[c]
  {
    match a
    case Server(sid, s) => ServerSettles(y, sid, s, id);
    case Main(p, s) => PeerIsQuiet(y, p, s);
    case Writer(sid, s) => WriterIsQuiet(y, sid, s);
    case Caller(d, s) => CallSettles(y, d, s, id, c);
  }

  lemma ServerSettles(y: System, sid: SessionId, a: ServerStep, id: RequestId)
    requires EntriesWait(y) && StraysWait(y) && ServerEnabled(y, sid, a)
    ensures id in y.pending.cells && !y.pending.cells[id].Waiting? ==>
              && id in ServerAct(y, sid, a).pending.cells
              && ServerAct(y, sid, a).pending.cells[id] == y.pending.cells[id]
    ensures ServerAct(y, sid, a).calls == y.calls
  {
    hide ServerAct, ConnAfterServer, BroadcastAfterServer, PastAfterServer;
    ServerFields(y, sid, a);
  }

  lemma CallSettles(y: System, d: CallId, a: CallStep, id: RequestId, c: CallId)
    requires EntriesWait(y) && CallEnabled(y, d, a)
    ensures var z := CallAct(y, d, a);
            && (id in y.pending.cells && !y.pending.cells[id].Waiting? ==>
                  id in z.pending.cells && z.pending.cells[id] == y.pending.cells[id])
            && (c in y.calls && y.calls[c].Done? ==> c in z.calls && z.calls[c] == y.calls[c])
  {
    hide CallAct;
    CallFields(y, d, a);
  }

  /** The entry of a call that is over is out of the table, unless its deadline's cancel found a connection's task
      holding it between the two lock sections of `complete`. */
  lemma EndedCallsLeaveTheTable(start: System, steps: seq<Step>, c: CallId)
    requires Initial(start) && Runs(start, steps)
    requires var y := After(start, steps); c in y.calls && y.calls[c].Done? && y.calls[c].id !in y.missed
    ensures !InTable(After(start, steps), After(start, steps).calls[c].id)
  {
    ReachedInv(start, steps);
  }

  /** When the deadline's cancel finds the entry held, putting it back leaves an entry whose caller is gone. */
  lemma HeldEntryOutlivesItsCall(y: System, c: CallId, sid: SessionId)
    requires Inv(y) && CallEnabled(y, c, CancelExpired) && HoldsStray(y, sid, y.calls[c].id)
    ensures var id := y.calls[c].id;
            var late := CallAct(y, c, CancelExpired);
            && ServerEnabled(late, sid, RestoreStray)
            && var z := ServerAct(late, sid, RestoreStray);
               id in z.pending.entries && z.calls[c] == Done(id, y.calls[c].op, TimedOut)
  {
    var late := CallAct(y, c, CancelExpired);
    assert late.conns == y.conns;
  }
}
