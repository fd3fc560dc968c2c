/** What a call returns, and that a call on a connection that is up can return what its handler made of it. */
module BridgeReturns {
  import opened Wrappers
  import opened Pending
  import opened Bridge
  import opened BridgeFields
  import opened BridgeWaiters
  import opened BridgeAnswers
  import opened BridgePast
  import opened BridgeWays
  import A = AddOn
  import G = BridgeForGood
  import H = BridgeHoming

  /** What an outcome on its channel, or its absence, is to a caller. */
  predicate Means(cell: Cell, result: Result)
  {
    match result
    case Reply(body) => cell == Sent(Answered(body))
    case Lost => cell == Sent(ConnectionLost) || cell == Dropped
    case TimedOut => true
  }

  /** Each step of a caller: it takes the session in the slot; it registers under that session; its request goes to the end of that
      session's queue, if the writer task is up, and it fails otherwise; it returns what its channel tells; and a cancel
      returns a lost connection after a failed send, and a timeout after the deadline. */
  lemma CallStepDoes(y: System, c: CallId, a: CallStep)
    requires CallEnabled(y, c, a)
    ensures var z := CallAct(y, c, a);
            && c in z.calls
            && (forall d | d in y.calls && d != c :: d in z.calls && z.calls[d] == y.calls[d])
            && (a.Pick? ==> y.slot.Some? && z.calls[c] == Picked(y.slot.value, a.op))
            && (!a.Pick? && !a.Register? ==> z.calls[c].id == y.calls[c].id && z.calls[c].op == y.calls[c].op)
            && (a.Register? ==>
                  && z.calls[c] == Call.Registered(a.id, y.calls[c].session, y.calls[c].op)
                  && a.id in z.pending.entries && z.pending.entries[a.id] == Entry(y.calls[c].session, y.calls[c].op))
            && (a.Send? ==>
                  var sid := y.calls[c].session;
                  if sid in y.conns && y.conns[sid].accepting
                  then z.calls[c].Awaiting?
                       && z.conns[sid].outbound == y.conns[sid].outbound + [A.Request(y.calls[c].id, y.calls[c].op)]
                  else z.calls[c].SendFailed? && z.conns == y.conns)
            && (a.Receive? ==>
                  && z.calls[c].Done? && !z.calls[c].result.TimedOut?
                  && Means(y.pending.cells[y.calls[c].id], z.calls[c].result))
            && (a.CancelFailed? ==> z.calls[c].Done? && z.calls[c].result.Lost?)
            && (a.Expire? ==> z.calls[c].Expired?)
            && (a.CancelExpired? ==> z.calls[c].Done? && z.calls[c].result.TimedOut?)
            && (a.CancelFailed? || a.CancelExpired? ==>
                  && z.pending.entries == y.pending.entries - {y.calls[c].id}
                  && (y.calls[c].id in y.pending.entries ==> z.pending.cells == y.pending.cells[y.calls[c].id := Dropped]))
            && (a.Pick? || a.Send? || a.Receive? || a.Expire? ==> z.pending == y.pending)
  {
    hide CallAct;
    CallFields(y, c, a);
  }

  /** Without callers' steps calls stay as they are. */
  lemma {:induction false} CallsRest(y: System, steps: seq<Step>)
    requires Runs(y, steps) && G.Unaided(steps)
    ensures After(y, steps).calls == y.calls
    decreases |steps|
  {
    if steps != [] {
      OneRests(y, steps[0]);
      hide Act, Enabled;
      CallsRest(Act(y, steps[0]), steps[1..]);
    }
  }

  lemma OneRests(y: System, a: Step)
    requires Enabled(y, a) && !a.Caller?
    ensures Act(y, a).calls == y.calls
  {
    hide ServerAct, PeerAct, WriterAct;
    match a
    case Server(sid, s) => ServerFields(y, sid, s);
    case Main(p, s) => PeerFields(y, p, s);
    case Writer(sid, s) => WriterFields(y, sid, s);
  }

  /** A caller that waits, with its entry in the table and its answer still able to come, can return a reply. */
  lemma CanReturnAReply(y: System, c: CallId) returns (later: seq<Step>)
    requires c in y.calls && y.calls[c].Awaiting? && y.calls[c].id in y.pending.entries && OnItsWay(y, y.calls[c].id) && Known(y)
    ensures Runs(y, later) && c in After(y, later).calls
    ensures After(y, later).calls[c].Done? && After(y, later).calls[c].id == y.calls[c].id && After(y, later).calls[c].result.Reply?
  {
    hide Known, Way, Runs, After, InTable, Act;
    var id := y.calls[c].id;
    var s :| Way(y, y.past.sessions[id], s, id);
    var home := H.ComesHome(y, y.past.sessions[id], s, id);
    CallsRest(y, home);
    var z := After(y, home);
    CallStepDoes(z, c, Receive);
    later := home + [Caller(c, Receive)];
    G.One(z, Caller(c, Receive));
    G.RunsOn(y, home, [Caller(c, Receive)]);
    ActOfReceive(z, c);
  }

  lemma ActOfReceive(z: System, c: CallId)
    requires CallEnabled(z, c, Receive)
    ensures Act(z, Caller(c, Receive)) == CallAct(z, c, Receive)
  {
  }

  /** Sending on a connection that is up at both ends opens a way for the answer. */
  lemma SendingOpensAWay(y: System, c: CallId)
    requires c in y.calls && y.calls[c].Registered? && y.calls[c].session in y.conns && y.conns[y.calls[c].session].accepting
    requires var sid := y.calls[c].session; Attentive(y.conns[sid].pc) && Served(y, sid) && Carrying(y, sid)
    requires y.calls[c].id in y.past.sessions && y.past.sessions[y.calls[c].id] == y.calls[c].session
    ensures CallEnabled(y, c, Send) && OnItsWay(CallAct(y, c, Send), y.calls[c].id)
    ensures c in CallAct(y, c, Send).calls && CallAct(y, c, Send).calls[c] == Awaiting(y.calls[c].id, y.calls[c].op)
    ensures CallAct(y, c, Send).pending == y.pending
  {
    hide CallAct, Harmless;
    CallFields(y, c, Send);
    var sid := y.calls[c].session;
    assert Way(CallAct(y, c, Send), sid, Outbound(sid, |y.conns[sid].outbound|), y.calls[c].id);
  }

  lemma RegisteredOnItsSession(y: System, c: CallId)
    requires OutInv(y) && c in y.calls && y.calls[c].Registered?
    ensures y.calls[c].id in y.past.sessions && y.past.sessions[y.calls[c].id] == y.calls[c].session
  {
  }

  /** So a call that has registered on a session whose connection is up can be sent, run and answered, and return the reply. */
  lemma ACallCanSucceed(y: System, c: CallId) returns (later: seq<Step>)
    requires c in y.calls && y.calls[c].Registered? && y.calls[c].session in y.conns && y.conns[y.calls[c].session].accepting
    requires var sid := y.calls[c].session; Attentive(y.conns[sid].pc) && Served(y, sid) && Carrying(y, sid)
    requires y.calls[c].id in y.pending.entries && OutInv(y) && Known(y)
    ensures Runs(y, later) && c in After(y, later).calls
    ensures After(y, later).calls[c].Done? && After(y, later).calls[c].id == y.calls[c].id && After(y, later).calls[c].result.Reply?
  {
    hide Known, OutInv, Runs, After, Attentive, Served, Carrying, OnItsWay, CallAct;
    var a := Caller(c, Send);
    RegisteredOnItsSession(y, c);
    SendingOpensAWay(y, c);
    StepKeepsKnown(y, a);
    var rest := CanReturnAReply(CallAct(y, c, Send), c);
    later := [a] + rest;
    G.Prepend(y, a, rest);
  }

  /** What a frame does when it is read. The answer to a request of this connection's session leaves the table and is what
      its waiter is told; one to another session's leaves the table for the task's hands, and one to no request in it does
      nothing. An event is broadcast exactly when it names the session, and a fatal frame ends the reading. */
  lemma ReadingDoes(y: System, sid: SessionId)
    requires ServerEnabled(y, sid, ReadFrame)
    ensures var f, z := y.conns[sid].up[0], ServerAct(y, sid, ReadFrame);
            var known := f.Response? && f.id in y.pending.entries;
            var own := known && y.pending.entries[f.id].session == sid;
            && sid in z.conns && z.conns[sid].up == y.conns[sid].up[1..]
            && z.pending.entries == (if known then y.pending.entries - {f.id} else y.pending.entries)
            && z.pending.cells == (if own then y.pending.cells[f.id := Sent(Answered(f.body))] else y.pending.cells)
            && z.conns[sid].pc == (if f.Fatal? then Ending
                                   else if known && !own then HoldingStray(f.id, y.pending.entries[f.id])
                                   else Reading)
            && z.broadcast == y.broadcast + if f.Event? && f.session == sid then [Broadcast(sid, f)] else []
  {
    ServerFields(y, sid, ReadFrame);
    var f := y.conns[sid].up[0];
    if f.Response? && f.id in y.pending.entries {
      assert Without(y.pending.entries, f.id) == y.pending.entries - {f.id};
    }
    hide ServerAct;
  }
}
