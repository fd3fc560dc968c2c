/** Failing a session: each installed session is failed at most once, and this is what it leaves behind. */
module BridgeFailing {
  import opened Wrappers
  import opened Pending
  import opened Bridge
  import opened BridgeFields
  import opened BridgeSlot
  import opened BridgeWaiters
  import A = AddOn

  // ---------------------------------------------------------------------------
  // Who is failed, and when
  // ---------------------------------------------------------------------------

  /** The task of `sid` is about to fail the requests of session `d`. */
  ghost predicate TaskFails(y: System, sid: SessionId, d: SessionId)
  {
    && sid in y.conns
    && (y.conns[sid].pc == FailingPrevious(d) || (y.conns[sid].pc.FailingOwn? && sid == d))
  }

  ghost predicate AboutToFail(y: System, d: SessionId)
  {
    exists sid :: TaskFails(y, sid, d)
  }

  /** Each installed session is in the slot, about to be failed by one task, or has been failed: one of the three. */
  ghost predicate StatusInv(y: System)
  {
    && (forall sid, d | TaskFails(y, sid, d) :: d in y.installed && d !in y.past.failed && y.slot != Some(d))
    && (forall sid, other, d | TaskFails(y, sid, d) && TaskFails(y, other, d) :: sid == other)
    && (forall d | d in y.past.failed :: d in y.installed && y.slot != Some(d))
    && (forall d | d in y.installed :: y.slot == Some(d) || d in y.past.failed || AboutToFail(y, d))
    && (y.slot.Some? ==> y.slot.value in y.installed)
  }

  ghost predicate SameStatus(y: System, z: System)
  {
    && (forall sid, d :: TaskFails(z, sid, d) <==> TaskFails(y, sid, d))
    && z.slot == y.slot && z.installed == y.installed && z.past.failed.Keys == y.past.failed.Keys
  }

  lemma SameStatusKeeps(y: System, z: System)
    requires StatusInv(y) && SameStatus(y, z)
    ensures StatusInv(z)
  {
    forall d | AboutToFail(y, d) ensures AboutToFail(z, d) {
      var sid :| TaskFails(y, sid, d);
      assert TaskFails(z, sid, d);
    }
  }

  lemma InstallKeeps(y: System, z: System, sid: SessionId)
    requires StatusInv(y) && sid !in y.installed && z.installed == y.installed + [sid] && z.slot == Some(sid)
    requires forall s: SessionId, d: SessionId :: TaskFails(z, s, d) <==> TaskFails(y, s, d) || (s == sid && y.slot == Some(d))
    requires forall d: SessionId :: !TaskFails(y, sid, d)
    requires z.past.failed == y.past.failed
    ensures StatusInv(z)
  {
    assert forall d :: d in z.installed <==> d in y.installed || d == sid;
    forall d | d in y.installed && y.slot != Some(d) && d !in y.past.failed ensures AboutToFail(z, d) {
      var s :| TaskFails(y, s, d);
      assert TaskFails(z, s, d);
    }
    if y.slot.Some? { assert TaskFails(z, sid, y.slot.value); }
  }

  lemma ClearKeeps(y: System, z: System, sid: SessionId)
    requires StatusInv(y) && y.slot == Some(sid) && z.slot == None && z.installed == y.installed
    requires forall s: SessionId, d: SessionId :: TaskFails(z, s, d) <==> TaskFails(y, s, d) || (s == sid && d == sid)
    requires forall d: SessionId :: !TaskFails(y, sid, d)
    requires z.past.failed == y.past.failed
    ensures StatusInv(z)
  {
    assert TaskFails(z, sid, sid);
    forall d | AboutToFail(y, d) ensures AboutToFail(z, d) {
      var s :| TaskFails(y, s, d);
      assert TaskFails(z, s, d);
    }
  }

  lemma FailKeeps(y: System, z: System, sid: SessionId, d: SessionId)
    requires StatusInv(y) && TaskFails(y, sid, d) && z.slot == y.slot && z.installed == y.installed
    requires forall s: SessionId, e: SessionId :: TaskFails(z, s, e) <==> TaskFails(y, s, e) && s != sid
    requires z.past.failed.Keys == y.past.failed.Keys + {d}
    ensures StatusInv(z)
  {
    forall e | AboutToFail(y, e) && e != d ensures AboutToFail(z, e) {
      var s :| TaskFails(y, s, e);
      assert s != sid;
      assert TaskFails(z, s, e);
    }
  }

  lemma ServerStatus(y: System, sid: SessionId, a: ServerStep)
    requires ServerEnabled(y, sid, a) && !a.Install? && !a.FailPrevious? && !a.FailOwn? && !(a.ClearSlot? && y.slot == Some(sid))
    ensures SameStatus(y, ServerAct(y, sid, a))
  {
    hide ServerAct, BroadcastAfterServer, TableAfterServer;
    ServerFields(y, sid, a);
  }

  lemma PcDecides(y: System, z: System, sid: SessionId, pc: Pc)
    requires z.conns.Keys == y.conns.Keys && sid in y.conns && z.conns[sid].pc == pc
    requires forall d | d in y.conns && d != sid :: z.conns[d].pc == y.conns[d].pc
    ensures forall s, d :: TaskFails(z, s, d) <==>
              if s == sid then pc == FailingPrevious(d) || (pc.FailingOwn? && d == sid) else TaskFails(y, s, d)
  {
  }

  lemma InstallStatus(y: System, sid: SessionId)
    requires SlotInv(y) && StatusInv(y) && ServerEnabled(y, sid, Install)
    ensures StatusInv(ServerAct(y, sid, Install))
  {
    var z := ServerAct(y, sid, Install);
    PcDecides(y, z, sid, if y.slot.Some? then FailingPrevious(y.slot.value) else Reading);
    assert z.installed == y.installed + [sid] && z.slot == Some(sid) && z.past == y.past;
    hide ServerAct, SlotInv, StatusInv;
    assert sid !in y.installed && forall d: SessionId :: !TaskFails(y, sid, d) by { Outside(y, sid); }
    InstallKeeps(y, z, sid);
  }

  lemma Outside(y: System, sid: SessionId)
    requires SlotInv(y) && ServerEnabled(y, sid, Install)
    ensures sid !in y.installed && forall d: SessionId :: !TaskFails(y, sid, d)
  {
  }

  lemma ClearStatus(y: System, sid: SessionId)
    requires StatusInv(y) && ServerEnabled(y, sid, ClearSlot) && y.slot == Some(sid)
    ensures StatusInv(ServerAct(y, sid, ClearSlot))
  {
    var z := ServerAct(y, sid, ClearSlot);
    PcDecides(y, z, sid, FailingOwn);
    assert z.installed == y.installed && z.slot == None && z.past == y.past;
    assert forall d: SessionId :: !TaskFails(y, sid, d);
    hide ServerAct, StatusInv;
    ClearKeeps(y, z, sid);
  }

  /** A failing notes what was registered and what was held, and is over. */
  lemma FailingShape(y: System, sid: SessionId, a: ServerStep)
    requires ServerEnabled(y, sid, a) && (a.FailPrevious? || a.FailOwn?)
    ensures var d := if a.FailOwn? then sid else y.conns[sid].pc.previous;
            var z := ServerAct(y, sid, a);
            && TaskFails(y, sid, d) && Fails(y, z, d)
            && (forall s: SessionId, e: SessionId :: TaskFails(z, s, e) <==> TaskFails(y, s, e) && s != sid)
            && z.slot == y.slot && z.installed == y.installed
            && z.past == y.past.(failed := y.past.failed[d := Failing(y.pending.cells.Keys, HeldIds(y))])
  {
    hide ServerAct, HeldIds, SessionFailed, SameHolds;
    ServerHolds(y, sid, a);
    ServerFields(y, sid, a);
    PcDecides(y, ServerAct(y, sid, a), sid, if a.FailOwn? then Aborting else Reading);
  }

  lemma ServerKeepsStatus(y: System, sid: SessionId, a: ServerStep)
    requires SlotInv(y) && StatusInv(y) && ServerEnabled(y, sid, a)
    ensures StatusInv(ServerAct(y, sid, a))
  {
    hide StatusInv, SlotInv, ServerAct;
    var z := ServerAct(y, sid, a);
    if a.Install? {
      InstallStatus(y, sid);
    } else if a.FailPrevious? || a.FailOwn? {
      FailingShape(y, sid, a);
      FailKeeps(y, z, sid, if a.FailOwn? then sid else y.conns[sid].pc.previous);
    } else if a.ClearSlot? && y.slot == Some(sid) {
      ClearStatus(y, sid);
    } else {
      ServerStatus(y, sid, a);
      SameStatusKeeps(y, z);
    }
  }

  lemma PeerStatus(y: System, p: PeerId, a: PeerStep)
    requires PeerEnabled(y, p, a)
    ensures SameStatus(y, PeerAct(y, p, a))
  {
    hide PeerAct;
    PeerFields(y, p, a);
  }

  lemma WriterStatus(y: System, sid: SessionId, a: WriterStep)
    requires WriterEnabled(y, sid, a)
    ensures SameStatus(y, WriterAct(y, sid, a))
  {
    hide WriterAct;
    WriterFields(y, sid, a);
  }

  lemma CallStatus(y: System, c: CallId, a: CallStep)
    requires CallEnabled(y, c, a)
    ensures SameStatus(y, CallAct(y, c, a))
  {
    hide CallAct;
    CallFields(y, c, a);
  }

  lemma StepKeepsStatus(y: System, a: Step)
    requires SlotInv(y) && StatusInv(y) && Enabled(y, a)
    ensures StatusInv(Act(y, a))
  {
    match a
    case Server(sid, s) => ServerKeepsStatus(y, sid, s);
    case Main(p, s) =>
      PeerStatus(y, p, s);
      SameStatusKeeps(y, PeerAct(y, p, s));
    case Writer(sid, s) =>
      WriterStatus(y, sid, s);
      SameStatusKeeps(y, WriterAct(y, sid, s));
    case Caller(c, s) =>
      CallStatus(y, c, s);
      SameStatusKeeps(y, CallAct(y, c, s));
  }

  // ---------------------------------------------------------------------------
  // What is known of every request
  // ---------------------------------------------------------------------------

  ghost predicate HoldsEntry(y: System, sid: SessionId, id: RequestId, e: Entry)
  {
    sid in y.conns && y.conns[sid].pc == HoldingStray(id, e)
  }

  /** The entry of the request is in the table, or in a task's hands. */
  ghost predicate Carries(y: System, id: RequestId, e: Entry)
  {
    (id in y.pending.entries && y.pending.entries[id] == e) || exists sid :: HoldsEntry(y, sid, id, e)
  }

  /** Every request is registered under a session that was installed, and its entry says which. */
  ghost predicate SessionsInv(y: System)
  {
    && y.past.sessions.Keys == y.pending.cells.Keys
    && (forall id | id in y.past.sessions :: y.past.sessions[id] in y.installed)
    && (forall c | c in y.calls && y.calls[c].Picked? :: y.calls[c].session in y.installed)
    && (forall id, e | Carries(y, id, e) :: id in y.past.sessions && e.session == y.past.sessions[id])
    && (forall d | d in y.past.failed :: y.past.failed[d].known <= y.pending.cells.Keys)
  }

  /** What its channel tells of a request: it waits exactly while its entry is about, and it was told that the connection
      is lost exactly when it was in the table while its session was failed. */
  ghost predicate CellsTell(y: System)
  {
    && (forall id | id in y.pending.cells && y.pending.cells[id].Waiting? :: InTable(y, id))
    && (forall id | id in y.pending.cells && id in y.past.sessions && y.past.sessions[id] in y.past.failed ::
          Met(y, id) ==> !y.pending.cells[id].Waiting?)
    && (forall id | id in y.pending.cells && y.pending.cells[id] == Sent(ConnectionLost) ::
          id in y.past.sessions && y.past.sessions[id] in y.past.failed && Met(y, id))
  }

  /** The failing of its session met the request: it was registered by then, and no task held it as a stray. */
  ghost predicate Met(y: System, id: RequestId)
    requires id in y.past.sessions && y.past.sessions[id] in y.past.failed
  {
    var f := y.past.failed[y.past.sessions[id]];
    id in f.known && id !in f.held
  }

  ghost predicate LedgerInv(y: System)
  {
    SessionsInv(y) && CellsTell(y)
  }

  // --- kinds of change -------------------------------------------------------

  ghost predicate SamePast(y: System, z: System)
  {
    z.past.sessions == y.past.sessions && z.past.failed == y.past.failed
  }

  /** No entry comes from nowhere. */
  ghost predicate EntriesMove(y: System, z: System)
  {
    forall id, e | Carries(z, id, e) :: Carries(y, id, e)
  }

  ghost predicate SamePicks(y: System, z: System)
  {
    && (forall d | d in y.installed :: d in z.installed)
    && forall c | c in z.calls && z.calls[c].Picked? :: z.calls[c].session in z.installed
  }

  lemma SessionsStay(y: System, z: System)
    requires SessionsInv(y) && z.past.sessions == y.past.sessions && z.pending.cells.Keys == y.pending.cells.Keys
    requires EntriesMove(y, z) && SamePicks(y, z)
    requires forall d | d in z.past.failed :: z.past.failed[d].known <= y.pending.cells.Keys
    ensures SessionsInv(z)
  {
  }

  lemma QuietTells(y: System, z: System)
    requires CellsTell(y) && Quiet(y, z) && SamePast(y, z)
    ensures CellsTell(z)
  {
    SameHeld(y, z);
  }

  lemma HeldIdsAreHeld(y: System)
    ensures forall id :: id in HeldIds(y) <==> Held(y, id)
  {
    forall id | Held(y, id) ensures id in HeldIds(y) {
      var sid :| HoldsStray(y, sid, id);
      assert y.conns[sid].pc.id == id;
    }
    forall id | id in HeldIds(y) ensures Held(y, id) {
      var sid :| sid in y.conns && y.conns[sid].pc.HoldingStray? && y.conns[sid].pc.id == id;
      assert HoldsStray(y, sid, id);
    }
  }

  lemma FailsTells(y: System, z: System, d: SessionId)
    requires WaiterInv(y) && LedgerInv(y) && Fails(y, z, d) && d !in y.past.failed
    requires z.past.sessions == y.past.sessions
    requires z.past.failed == y.past.failed[d := Failing(y.pending.cells.Keys, HeldIds(y))]
    ensures CellsTell(z) && z.pending.cells.Keys == y.pending.cells.Keys
  {
    hide CellsTell, SessionsInv, WaiterInv, SessionFailed, HeldIds, Met, SameHolds;
    forall id | id in y.pending.cells ensures id in z.pending.cells && TellsOf(z, id) {
      FailsTellsOne(y, z, d, id);
    }
    FailsKeepsCells(y, z, d);
    TellsAll(z);
  }

  /** What is to be shown of one request. */
  ghost predicate TellsOf(y: System, id: RequestId)
    requires id in y.pending.cells
  {
    && (y.pending.cells[id].Waiting? ==> InTable(y, id))
    && (id in y.past.sessions && y.past.sessions[id] in y.past.failed ==> Met(y, id) ==> !y.pending.cells[id].Waiting?)
    && (y.pending.cells[id] == Sent(ConnectionLost) ==>
          id in y.past.sessions && y.past.sessions[id] in y.past.failed && Met(y, id))
  }

  lemma TellsAll(y: System)
    ensures (forall id | id in y.pending.cells :: TellsOf(y, id)) <==> CellsTell(y)
  {
    hide InTable, Met;
    if CellsTell(y) { forall id | id in y.pending.cells ensures TellsOf(y, id) { } }
    if forall id | id in y.pending.cells :: TellsOf(y, id) {
      forall id | id in y.pending.cells && y.pending.cells[id].Waiting? ensures InTable(y, id) { assert TellsOf(y, id); }
      forall id | id in y.pending.cells && y.pending.cells[id] == Sent(ConnectionLost)
        ensures id in y.past.sessions && y.past.sessions[id] in y.past.failed && Met(y, id)
      {
        assert TellsOf(y, id);
      }
      forall id | id in y.pending.cells && id in y.past.sessions && y.past.sessions[id] in y.past.failed && Met(y, id)
        ensures !y.pending.cells[id].Waiting?
      {
        assert TellsOf(y, id);
      }
    }
  }

  lemma FailsKeepsCells(y: System, z: System, d: SessionId)
    requires WaiterInv(y) && LedgerInv(y) && Fails(y, z, d)
    ensures z.pending.cells.Keys == y.pending.cells.Keys
  {
    GoneAre(y, d);
    hide WaiterInv, SessionsInv, CellsTell, OfSession;
  }

  lemma FailsTellsOne(y: System, z: System, d: SessionId, id: RequestId)
    requires WaiterInv(y) && LedgerInv(y) && Fails(y, z, d) && d !in y.past.failed && id in y.pending.cells
    requires z.past.sessions == y.past.sessions
    requires z.past.failed == y.past.failed[d := Failing(y.pending.cells.Keys, HeldIds(y))]
    ensures id in z.pending.cells && TellsOf(z, id)
  {
    hide WaiterInv, SessionsInv, HeldIds, Carries, CellsTell, OfSession, Held, SameHolds;
    SameHeld(y, z);
    HeldIdsAreHeld(y);
    GoneAre(y, d);
    TellsAll(y);
    assert TellsOf(y, id);
  }

  /** Who leaves when a session is failed: exactly its requests that wait and are not held. */
  lemma GoneAre(y: System, d: SessionId)
    requires WaiterInv(y) && LedgerInv(y)
    ensures y.past.sessions.Keys == y.pending.cells.Keys
    ensures forall id :: id in OfSession(y.pending, d) <==>
              id in y.pending.cells && y.past.sessions[id] == d && y.pending.cells[id].Waiting? && !Held(y, id)
    ensures OfSession(y.pending, d) <= y.pending.cells.Keys
    ensures forall id | id in y.past.failed :: y.past.failed[id].known <= y.pending.cells.Keys
    ensures forall id | id in OfSession(y.pending, d) :: id in y.pending.entries
    ensures forall id | Held(y, id) :: id !in y.pending.entries
  {
    var gone := OfSession(y.pending, d);
    forall id | id in gone ensures id in y.pending.cells && !Held(y, id) && y.past.sessions[id] == d {
      assert Carries(y, id, y.pending.entries[id]);
    }
    forall id | id in y.pending.cells && y.pending.cells[id].Waiting? && y.past.sessions[id] == d && !Held(y, id)
      ensures id in gone
    {
      assert InTable(y, id);
      assert Carries(y, id, y.pending.entries[id]);
    }
  }

  lemma DeliversTells(y: System, z: System, id: RequestId, body: Body)
    requires WaiterInv(y) && CellsTell(y) && Delivers(y, z, id, body) && SamePast(y, z)
    ensures CellsTell(z) && z.pending.cells.Keys == y.pending.cells.Keys
  {
    SameHeld(y, z);
  }

  lemma TakesOutTells(y: System, z: System, sid: SessionId, id: RequestId)
    requires CellsTell(y) && TakesOut(y, z, sid, id) && SamePast(y, z)
    ensures CellsTell(z)
  {
    forall i | InTable(y, i) ensures InTable(z, i) {
      if Held(y, i) { var d :| HoldsStray(y, d, i); assert HoldsStray(z, d, i); }
      if i == id { assert HoldsStray(z, sid, id); }
    }
  }

  lemma RestoresTells(y: System, z: System, sid: SessionId, id: RequestId)
    requires CellsTell(y) && Restores(y, z, sid, id) && SamePast(y, z)
    ensures CellsTell(z)
  {
    forall i | InTable(y, i) ensures InTable(z, i) {
      if Held(y, i) && i != id { var d :| HoldsStray(y, d, i); assert HoldsStray(z, d, i); }
    }
  }

  lemma RegisterTells(y: System, z: System, id: RequestId, session: SessionId, op: nat)
    requires LedgerInv(y) && id !in y.pending.cells && SameHolds(y, z)
    requires z.pending == Pending.Registered(y.pending, id, session, op)
    requires z.past == y.past.(sessions := y.past.sessions[id := session])
    ensures CellsTell(z)
  {
    SameHeld(y, z);
    forall i | i in y.pending.cells && y.pending.cells[i].Waiting? ensures InTable(z, i) { assert InTable(y, i); }
  }

  lemma CancelTells(y: System, z: System, id: RequestId)
    requires WaiterInv(y) && CellsTell(y) && SameHolds(y, z) && z.pending == Cancelled(y.pending, id) && SamePast(y, z)
    ensures CellsTell(z) && z.pending.cells.Keys == y.pending.cells.Keys
  {
    SameHeld(y, z);
    forall i | i in y.pending.cells && y.pending.cells[i].Waiting? && i != id ensures InTable(z, i) { assert InTable(y, i); }
  }

  // ---------------------------------------------------------------------------
  // Every step keeps the ledger
  // ---------------------------------------------------------------------------

  /** Tasks hold the very entries they held. */
  ghost predicate SameStrays(y: System, z: System)
  {
    forall sid, id, e :: HoldsEntry(z, sid, id, e) <==> HoldsEntry(y, sid, id, e)
  }

  ghost predicate EntriesShrink(y: System, z: System)
  {
    forall id | id in z.pending.entries :: id in y.pending.entries && z.pending.entries[id] == y.pending.entries[id]
  }

  lemma ShrinkingMoves(y: System, z: System)
    requires SameStrays(y, z) && EntriesShrink(y, z)
    ensures EntriesMove(y, z)
  {
    forall id, e | Carries(z, id, e) ensures Carries(y, id, e) {
      if !(id in z.pending.entries && z.pending.entries[id] == e) {
        var sid :| HoldsEntry(z, sid, id, e);
        assert HoldsEntry(y, sid, id, e);
      }
    }
  }

  lemma QuietLedger(y: System, z: System)
    requires LedgerInv(y) && Quiet(y, z) && SamePast(y, z) && SameStrays(y, z) && SamePicks(y, z)
    ensures LedgerInv(z)
  {
    ShrinkingMoves(y, z);
    QuietTells(y, z);
    SessionsStay(y, z);
  }

  lemma PcHolds(y: System, z: System, sid: SessionId)
    requires sid in z.conns && z.conns.Keys == y.conns.Keys + {sid}
    requires forall d | d in y.conns && d != sid :: z.conns[d].pc == y.conns[d].pc
    requires sid in y.conns ==> !y.conns[sid].pc.HoldingStray? || y.conns[sid].pc == z.conns[sid].pc
    requires z.conns[sid].pc.HoldingStray? ==> sid in y.conns && y.conns[sid].pc == z.conns[sid].pc
    ensures SameStrays(y, z)
  {
  }

  lemma ServerStrays(y: System, sid: SessionId, a: ServerStep)
    requires ServerEnabled(y, sid, a) && !a.ReadFrame? && !a.RestoreStray?
    ensures SameStrays(y, ServerAct(y, sid, a))
  {
    hide ServerAct, SameStrays;
    ServerFields(y, sid, a);
    PcHolds(y, ServerAct(y, sid, a), sid);
  }

  lemma ServerPast(y: System, sid: SessionId, a: ServerStep)
    requires ServerEnabled(y, sid, a) && !a.FailPrevious? && !a.FailOwn?
    ensures ServerAct(y, sid, a).past == y.past
  {
    hide ServerAct;
    ServerFields(y, sid, a);
  }

  lemma ServerInstalled(y: System, sid: SessionId, a: ServerStep)
    requires ServerEnabled(y, sid, a)
    ensures forall d | d in y.installed :: d in ServerAct(y, sid, a).installed
    ensures ServerAct(y, sid, a).calls == y.calls
  {
    hide ServerAct;
    ServerFields(y, sid, a);
  }

  lemma FailingLedger(y: System, z: System, d: SessionId)
    requires WaiterInv(y) && LedgerInv(y) && Fails(y, z, d) && d !in y.past.failed && SameStrays(y, z) && SamePicks(y, z)
    requires z.past == y.past.(failed := y.past.failed[d := Failing(y.pending.cells.Keys, HeldIds(y))])
    ensures LedgerInv(z)
  {
    FailsTells(y, z, d);
    ShrinkingMoves(y, z);
    SessionsStay(y, z);
  }

  lemma RestoresLedger(y: System, z: System, sid: SessionId, id: RequestId, e: Entry)
    requires WaiterInv(y) && LedgerInv(y) && Restores(y, z, sid, id) && HoldsEntry(y, sid, id, e)
    requires z.pending == PutBack(y.pending, id, e) && z.past == y.past && z.installed == y.installed
    requires forall d, i, f :: HoldsEntry(z, d, i, f) <==> HoldsEntry(y, d, i, f) && d != sid
    ensures LedgerInv(z)
  {
    RestoresTells(y, z, sid, id);
    forall i, f | Carries(z, i, f) ensures Carries(y, i, f) {
      if exists d :: HoldsEntry(z, d, i, f) {
        var d :| HoldsEntry(z, d, i, f);
        assert HoldsEntry(y, d, i, f);
      }
    }
    SessionsStay(y, z);
  }

  lemma RestoreLedger(y: System, sid: SessionId)
    requires WaiterInv(y) && LedgerInv(y) && ServerEnabled(y, sid, RestoreStray)
    ensures LedgerInv(ServerAct(y, sid, RestoreStray))
  {
    hide ServerAct, WaiterInv, LedgerInv;
    var z := ServerAct(y, sid, RestoreStray);
    var pc := y.conns[sid].pc;
    ServerRestores(y, sid);
    ServerFields(y, sid, RestoreStray);
    hide Restores;
    assert HoldsEntry(y, sid, pc.id, pc.entry);
    assert forall d, i, f :: HoldsEntry(z, d, i, f) <==> HoldsEntry(y, d, i, f) && d != sid;
    RestoresLedger(y, z, sid, pc.id, pc.entry);
  }

  lemma FrameStray(y: System, sid: SessionId, f: A.Frame)
    requires WaiterInv(y) && LedgerInv(y) && sid in y.conns && y.conns[sid].pc.Reading? && IsStray(y.pending, sid, f)
    ensures LedgerInv(HandleFrame(y, sid, f))
  {
    hide WaiterInv, LedgerInv;
    var z := HandleFrame(y, sid, f);
    assert TakesOut(y, z, sid, f.id);
    assert forall d, i, e :: HoldsEntry(z, d, i, e) <==>
      HoldsEntry(y, d, i, e) || (d == sid && i == f.id && e == y.pending.entries[f.id]);
    StrayLedger(y, z, sid, f.id);
  }

  lemma StrayLedger(y: System, z: System, sid: SessionId, id: RequestId)
    requires LedgerInv(y) && TakesOut(y, z, sid, id) && SamePast(y, z) && z.installed == y.installed
    requires forall d, i, e :: HoldsEntry(z, d, i, e) <==>
               HoldsEntry(y, d, i, e) || (d == sid && i == id && e == y.pending.entries[id])
    ensures LedgerInv(z)
  {
    TakesOutTells(y, z, sid, id);
    forall i, e | Carries(z, i, e) ensures Carries(y, i, e) {
      if exists d :: HoldsEntry(z, d, i, e) {
        var d :| HoldsEntry(z, d, i, e);
        assert HoldsEntry(y, d, i, e) || Carries(y, i, e);
      }
    }
    SessionsStay(y, z);
    hide Carries, CellsTell;
  }

  lemma FrameAnswers(y: System, sid: SessionId, f: A.Frame)
    requires WaiterInv(y) && LedgerInv(y) && sid in y.conns && y.conns[sid].pc.Reading?
    requires f.Response? && f.id in y.pending.entries && !IsStray(y.pending, sid, f)
    ensures LedgerInv(HandleFrame(y, sid, f))
  {
    var z := HandleFrame(y, sid, f);
    OnePcHolds(y, z, sid);
    PcHolds(y, z, sid);
    assert Delivers(y, z, f.id, f.body) && SamePast(y, z) && SamePicks(y, z);
    DeliversTells(y, z, f.id, f.body);
    ShrinkingMoves(y, z);
    SessionsStay(y, z);
  }

  lemma FrameLedger(y: System, sid: SessionId, f: A.Frame)
    requires WaiterInv(y) && LedgerInv(y) && sid in y.conns && y.conns[sid].pc.Reading?
    ensures LedgerInv(HandleFrame(y, sid, f))
  {
    if f.Response? && f.id in y.pending.entries {
      if IsStray(y.pending, sid, f) { FrameStray(y, sid, f); } else { FrameAnswers(y, sid, f); }
    } else {
      var z := HandleFrame(y, sid, f);
      OnePcHolds(y, z, sid);
      PcHolds(y, z, sid);
      QuietLedger(y, z);
    }
  }

  lemma ReadLedger(y: System, sid: SessionId)
    requires WaiterInv(y) && LedgerInv(y) && ServerEnabled(y, sid, ReadFrame)
    ensures LedgerInv(ServerAct(y, sid, ReadFrame))
  {
    var c := y.conns[sid];
    var x := SetConn(y, sid, c.(up := c.up[1..]));
    OnePcHolds(y, x, sid);
    PcHolds(y, x, sid);
    assert x.pending == y.pending && x.past == y.past && x.installed == y.installed && x.calls == y.calls;
    QuietLedger(y, x);
    QuietKeeps(y, x);
    FrameLedger(x, sid, c.up[0]);
  }

  lemma FailStepLedger(y: System, sid: SessionId, a: ServerStep)
    requires WaiterInv(y) && StatusInv(y) && LedgerInv(y) && ServerEnabled(y, sid, a) && (a.FailPrevious? || a.FailOwn?)
    ensures LedgerInv(ServerAct(y, sid, a))
  {
    var z := ServerAct(y, sid, a);
    FailingShape(y, sid, a);
    ServerStrays(y, sid, a);
    ServerInstalled(y, sid, a);
    hide ServerAct, WaiterInv;
    FailingLedger(y, z, if a.FailOwn? then sid else y.conns[sid].pc.previous);
  }

  lemma ServerKeepsLedger(y: System, sid: SessionId, a: ServerStep)
    requires WaiterInv(y) && StatusInv(y) && LedgerInv(y) && ServerEnabled(y, sid, a)
    ensures LedgerInv(ServerAct(y, sid, a))
  {
    if a.ReadFrame? {
      ReadLedger(y, sid);
    } else if a.RestoreStray? {
      RestoreLedger(y, sid);
    } else if a.FailPrevious? || a.FailOwn? {
      FailStepLedger(y, sid, a);
    } else {
      hide ServerAct, WaiterInv;
      ServerStrays(y, sid, a);
      ServerHolds(y, sid, a);
      ServerPast(y, sid, a);
      ServerInstalled(y, sid, a);
      QuietLedger(y, ServerAct(y, sid, a));
    }
  }

  lemma PeerStrays(y: System, p: PeerId, a: PeerStep)
    requires PeerEnabled(y, p, a)
    ensures var z := PeerAct(y, p, a); SameStrays(y, z) && z.past == y.past && z.installed == y.installed
  {
    var z := PeerAct(y, p, a);
    if ReaderOf(a).Some? { PcHolds(y, z, ReaderOf(a).value); }
  }

  lemma WriterStrays(y: System, sid: SessionId, a: WriterStep)
    requires WriterEnabled(y, sid, a)
    ensures var z := WriterAct(y, sid, a); SameStrays(y, z) && SamePast(y, z) && z.installed == y.installed
  {
    PcHolds(y, WriterAct(y, sid, a), sid);
  }

  lemma CallStrays(y: System, c: CallId, a: CallStep)
    requires CallEnabled(y, c, a)
    ensures var z := CallAct(y, c, a); SameStrays(y, z) && z.installed == y.installed && z.past.failed == y.past.failed
  {
    var z := CallAct(y, c, a);
    if z.conns != y.conns { PcHolds(y, z, y.calls[c].session); }
  }

  lemma CallPicks(y: System, c: CallId, a: CallStep)
    requires StatusInv(y) && SessionsInv(y) && CallEnabled(y, c, a)
    ensures var z := CallAct(y, c, a);
            SamePicks(y, z) && (a.Register? || (z.past.sessions == y.past.sessions && EntriesShrink(y, z)))
  {
    if !a.Register? { CallEntriesShrink(y, c, a); }
    CallPicksOnly(y, c, a);
    hide CallAct, EntriesShrink;
  }

  lemma CallEntriesShrink(y: System, c: CallId, a: CallStep)
    requires CallEnabled(y, c, a) && !a.Register?
    ensures CallAct(y, c, a).past.sessions == y.past.sessions && EntriesShrink(y, CallAct(y, c, a))
  {
    hide CallAct;
    CallFields(y, c, a);
  }

  lemma CallPicksOnly(y: System, c: CallId, a: CallStep)
    requires CallEnabled(y, c, a)
    ensures var z := CallAct(y, c, a);
            && z.installed == y.installed
            && forall d | d in z.calls && z.calls[d].Picked? ::
                 (d in y.calls && z.calls[d] == y.calls[d]) || y.slot == Some(z.calls[d].session)
  {
    hide CallAct;
    CallFields(y, c, a);
  }

  lemma RegisterLedger(y: System, c: CallId, id: RequestId)
    requires StatusInv(y) && LedgerInv(y) && CallEnabled(y, c, Register(id))
    ensures LedgerInv(CallAct(y, c, Register(id)))
  {
    hide CallAct, StatusInv, SessionsInv, CellsTell, SameHolds, SameStrays;
    var z := CallAct(y, c, Register(id));
    var k := y.calls[c];
    CallFields(y, c, Register(id));
    CallHolds(y, c, Register(id));
    CallStrays(y, c, Register(id));
    CallPicks(y, c, Register(id));
    RegisterTells(y, z, id, k.session, k.op);
    RegisterSessions(y, z, c, id);
  }

  lemma RegisterSessions(y: System, z: System, c: CallId, id: RequestId)
    requires SessionsInv(y) && c in y.calls && y.calls[c].Picked? && id !in y.pending.cells
    requires z.pending == Pending.Registered(y.pending, id, y.calls[c].session, y.calls[c].op)
    requires z.past == y.past.(sessions := y.past.sessions[id := y.calls[c].session])
    requires SameStrays(y, z) && SamePicks(y, z)
    ensures SessionsInv(z)
  {
    forall i, e | Carries(z, i, e) ensures i in z.past.sessions && e.session == z.past.sessions[i] {
      if i in z.pending.entries && z.pending.entries[i] == e {
        assert i != id ==> Carries(y, i, e);
      } else {
        var d :| HoldsEntry(z, d, i, e);
        assert HoldsEntry(y, d, i, e) && Carries(y, i, e);
      }
    }
  }

  lemma CancelLedger(y: System, c: CallId, a: CallStep)
    requires WaiterInv(y) && StatusInv(y) && LedgerInv(y) && CallEnabled(y, c, a) && (a.CancelFailed? || a.CancelExpired?)
    ensures LedgerInv(CallAct(y, c, a))
  {
    hide CallAct, WaiterInv, SessionsInv, CellsTell, StatusInv, EntriesShrink, SameHolds, SameStrays;
    var z := CallAct(y, c, a);
    CallFields(y, c, a);
    CallHolds(y, c, a);
    CallStrays(y, c, a);
    CallPicks(y, c, a);
    CancelTells(y, z, y.calls[c].id);
    ShrinkingMoves(y, z);
    assert forall d | d in z.past.failed :: z.past.failed[d].known <= y.pending.cells.Keys by { FailedKnew(y); }
    SessionsStay(y, z);
  }

  lemma FailedKnew(y: System)
    requires SessionsInv(y)
    ensures forall d | d in y.past.failed :: y.past.failed[d].known <= y.pending.cells.Keys
  {
  }

  lemma OtherCallLedger(y: System, c: CallId, a: CallStep)
    requires StatusInv(y) && LedgerInv(y) && CallEnabled(y, c, a)
    requires !a.Register? && !a.CancelFailed? && !a.CancelExpired?
    ensures LedgerInv(CallAct(y, c, a))
  {
    var z := CallAct(y, c, a);
    CallHolds(y, c, a);
    CallStrays(y, c, a);
    CallPicks(y, c, a);
    assert z.pending == y.pending && z.past == y.past;
    hide CallAct;
    SameHeld(y, z);
    ShrinkingMoves(y, z);
    SessionsStay(y, z);
  }

  lemma StepKeepsLedger(y: System, a: Step)
    requires WaiterInv(y) && StatusInv(y) && LedgerInv(y) && Enabled(y, a)
    ensures LedgerInv(Act(y, a))
  {
    hide WaiterInv, StatusInv, LedgerInv;
    match a
    case Server(sid, s) => ServerKeepsLedger(y, sid, s);
    case Main(p, s) =>
      PeerIsQuiet(y, p, s);
      PeerStrays(y, p, s);
      PeerLedger(y, PeerAct(y, p, s));
    case Writer(sid, s) =>
      WriterIsQuiet(y, sid, s);
      WriterStrays(y, sid, s);
      PeerLedger(y, WriterAct(y, sid, s));
    case Caller(c, s) =>
      if s.Register? { RegisterLedger(y, c, s.id); }
      else if s.CancelFailed? || s.CancelExpired? { CancelLedger(y, c, s); }
      else { OtherCallLedger(y, c, s); }
  }

  lemma PeerLedger(y: System, z: System)
    requires LedgerInv(y) && Quiet(y, z) && SamePast(y, z) && SameStrays(y, z) && z.installed == y.installed
    ensures LedgerInv(z)
  {
    QuietLedger(y, z);
  }

  // ---------------------------------------------------------------------------
  // Whose entries tasks hold
  // ---------------------------------------------------------------------------

  /** A task only ever holds an entry of another session. */
  ghost predicate StraysElsewhere(y: System)
  {
    forall sid, id, e | HoldsEntry(y, sid, id, e) :: e.session != sid
  }

  lemma FrameElsewhere(y: System, sid: SessionId, f: A.Frame)
    requires StraysElsewhere(y) && sid in y.conns
    ensures StraysElsewhere(HandleFrame(y, sid, f))
  {
    var z := HandleFrame(y, sid, f);
    forall d, id, e | HoldsEntry(z, d, id, e) ensures e.session != d {
      assert HoldsEntry(y, d, id, e) || (d == sid && IsStray(y.pending, sid, f) && e == y.pending.entries[f.id]);
    }
  }

  lemma SameStraysElsewhere(y: System, z: System)
    requires StraysElsewhere(y) && forall sid, id, e | HoldsEntry(z, sid, id, e) :: HoldsEntry(y, sid, id, e)
    ensures StraysElsewhere(z)
  {
  }

  lemma ServerElsewhere(y: System, sid: SessionId, a: ServerStep)
    requires StraysElsewhere(y) && ServerEnabled(y, sid, a)
    ensures StraysElsewhere(ServerAct(y, sid, a))
  {
    if a.ReadFrame? {
      var c := y.conns[sid];
      var x := SetConn(y, sid, c.(up := c.up[1..]));
      PcHolds(y, x, sid);
      SameStraysElsewhere(y, x);
      FrameElsewhere(x, sid, c.up[0]);
    } else if a.RestoreStray? {
      var z := ServerAct(y, sid, a);
      assert forall d, i, f :: HoldsEntry(z, d, i, f) ==> HoldsEntry(y, d, i, f);
      SameStraysElsewhere(y, z);
    } else {
      ServerStrays(y, sid, a);
      SameStraysElsewhere(y, ServerAct(y, sid, a));
    }
  }

  lemma StepKeepsElsewhere(y: System, a: Step)
    requires StraysElsewhere(y) && Enabled(y, a)
    ensures StraysElsewhere(Act(y, a))
  {
    hide StraysElsewhere;
    match a
    case Server(sid, s) => ServerElsewhere(y, sid, s);
    case Main(p, s) => PeerStrays(y, p, s); SameStraysElsewhere(y, PeerAct(y, p, s));
    case Writer(sid, s) => WriterStrays(y, sid, s); SameStraysElsewhere(y, WriterAct(y, sid, s));
    case Caller(c, s) => CallStrays(y, c, s); SameStraysElsewhere(y, CallAct(y, c, s));
  }
}
