/** Waiters of the bridge: every request's channel is settled at most once, nobody is stranded, and an entry outlives
    its call only when a deadline's cancel falls between the two lock sections of `complete`. */
module BridgeWaiters {
  import opened Pending
  import opened Bridge
  import opened BridgeFields
  import A = AddOn

  predicate HasId(k: Call)
  {
    !k.Picked?
  }

  predicate Live(k: Call)
  {
    HasId(k) && !k.Done?
  }

  ghost predicate InTable(y: System, id: RequestId)
  {
    id in y.pending.entries || Held(y, id)
  }

  ghost predicate EntriesWait(y: System)
  {
    forall id | id in y.pending.entries :: id in y.pending.cells && y.pending.cells[id].Waiting?
  }

  ghost predicate StraysWait(y: System)
  {
    && (forall sid, id | HoldsStray(y, sid, id) ::
          id in y.pending.cells && y.pending.cells[id].Waiting? && id !in y.pending.entries)
    && (forall sid, other, id | HoldsStray(y, sid, id) && HoldsStray(y, other, id) :: sid == other)
  }

  ghost predicate CallsDistinct(y: System)
  {
    && (forall c | c in y.calls && HasId(y.calls[c]) :: y.calls[c].id in y.pending.cells)
    && (forall c, d | c in y.calls && d in y.calls && HasId(y.calls[c]) && HasId(y.calls[d]) && y.calls[c].id == y.calls[d].id
          :: c == d)
  }

  /** A caller still waiting has a channel that was answered, or whose entry is in the table or in a task's hands. */
  ghost predicate NobodyStranded(y: System)
  {
    forall c | c in y.calls && Live(y.calls[c]) && y.calls[c].id in y.pending.cells ::
      && !y.pending.cells[y.calls[c].id].Dropped?
      && (y.pending.cells[y.calls[c].id].Waiting? ==> InTable(y, y.calls[c].id))
  }

  /** A call that is over has left nothing behind, except where its cancel missed. */
  ghost predicate NothingLeftBehind(y: System)
  {
    forall c | c in y.calls && y.calls[c].Done? && InTable(y, y.calls[c].id) :: y.calls[c].id in y.missed
  }

  ghost predicate WaiterInv(y: System)
  {
    EntriesWait(y) && StraysWait(y) && CallsDistinct(y) && NobodyStranded(y) && NothingLeftBehind(y)
  }

  // ---------------------------------------------------------------------------
  // Kinds of change
  // ---------------------------------------------------------------------------

  ghost predicate SameHolds(y: System, z: System)
  {
    forall sid, id :: HoldsStray(z, sid, id) <==> HoldsStray(y, sid, id)
  }

  ghost predicate SameCallers(y: System, z: System)
  {
    z.calls == y.calls && z.missed == y.missed
  }

  ghost predicate Quiet(y: System, z: System)
  {
    z.pending == y.pending && SameCallers(y, z) && SameHolds(y, z)
  }

  ghost predicate Fails(y: System, z: System, d: SessionId)
  {
    z.pending == SessionFailed(y.pending, d) && SameCallers(y, z) && SameHolds(y, z)
  }

  ghost predicate Delivers(y: System, z: System, id: RequestId, body: Body)
  {
    && id in y.pending.entries && z.pending == Delivered(Taken(y.pending, id), id, body)
    && SameCallers(y, z) && SameHolds(y, z)
  }

  ghost predicate TakesOut(y: System, z: System, sid: SessionId, id: RequestId)
  {
    && id in y.pending.entries && z.pending == Taken(y.pending, id) && SameCallers(y, z)
    && !(exists other :: HoldsStray(y, sid, other))
    && (forall d, i :: HoldsStray(z, d, i) <==> HoldsStray(y, d, i) || (d == sid && i == id))
  }

  ghost predicate Restores(y: System, z: System, sid: SessionId, id: RequestId)
  {
    && HoldsStray(y, sid, id) && (exists e :: z.pending == PutBack(y.pending, id, e)) && SameCallers(y, z)
    && (forall d, i :: HoldsStray(z, d, i) <==> HoldsStray(y, d, i) && d != sid)
  }

  lemma SameHeld(y: System, z: System)
    requires SameHolds(y, z)
    ensures forall id :: Held(z, id) <==> Held(y, id)
  {
    forall id | Held(y, id) ensures Held(z, id) {
      var sid :| HoldsStray(y, sid, id);
      assert HoldsStray(z, sid, id);
    }
    forall id | Held(z, id) ensures Held(y, id) {
      var sid :| HoldsStray(z, sid, id);
      assert HoldsStray(y, sid, id);
    }
  }

  lemma QuietKeeps(y: System, z: System)
    requires WaiterInv(y) && Quiet(y, z)
    ensures WaiterInv(z)
  {
    SameHeld(y, z);
  }

  lemma FailsKeeps(y: System, z: System, d: SessionId)
    requires WaiterInv(y) && Fails(y, z, d)
    ensures WaiterInv(z)
  {
    SameHeld(y, z);
    assert OfSession(y.pending, d) <= y.pending.entries.Keys;
  }

  lemma DeliversKeeps(y: System, z: System, id: RequestId, body: Body)
    requires WaiterInv(y) && Delivers(y, z, id, body)
    ensures WaiterInv(z)
  {
    SameHeld(y, z);
  }

  lemma TakesOutKeeps(y: System, z: System, sid: SessionId, id: RequestId)
    requires WaiterInv(y) && TakesOut(y, z, sid, id)
    ensures WaiterInv(z)
  {
    forall i ensures Held(z, i) <==> Held(y, i) || i == id {
      if Held(y, i) { var d :| HoldsStray(y, d, i); assert HoldsStray(z, d, i); }
      if i == id { assert HoldsStray(z, sid, id); }
      if Held(z, i) { var d :| HoldsStray(z, d, i); assert HoldsStray(y, d, i) || i == id; }
    }
    assert forall i :: InTable(z, i) <==> InTable(y, i);
  }

  lemma RestoresKeeps(y: System, z: System, sid: SessionId, id: RequestId)
    requires WaiterInv(y) && Restores(y, z, sid, id)
    ensures WaiterInv(z)
  {
    forall i ensures Held(z, i) <==> Held(y, i) && i != id {
      if Held(y, i) && i != id { var d :| HoldsStray(y, d, i); assert HoldsStray(z, d, i); }
      if Held(z, i) { var d :| HoldsStray(z, d, i); assert HoldsStray(y, d, i); }
    }
    assert Held(y, id);
    assert forall i :: InTable(z, i) <==> InTable(y, i);
  }

  // ---------------------------------------------------------------------------
  // Every step is one of those, or a caller's
  // ---------------------------------------------------------------------------

  lemma OnePcHolds(y: System, z: System, sid: SessionId)
    requires sid in z.conns && z.conns.Keys == y.conns.Keys + {sid}
    requires forall d | d in y.conns && d != sid :: z.conns[d].pc == y.conns[d].pc
    requires sid in y.conns ==> !y.conns[sid].pc.HoldingStray? || y.conns[sid].pc == z.conns[sid].pc
    requires z.conns[sid].pc.HoldingStray? ==> sid in y.conns && y.conns[sid].pc == z.conns[sid].pc
    ensures SameHolds(y, z)
  {
  }

  lemma FrameKeeps(y: System, sid: SessionId, f: A.Frame)
    requires WaiterInv(y) && sid in y.conns && y.conns[sid].pc.Reading?
    ensures WaiterInv(HandleFrame(y, sid, f))
  {
    var z := HandleFrame(y, sid, f);
    if f.Response? && f.id in y.pending.entries {
      if y.pending.entries[f.id].session == sid {
        OnePcHolds(y, z, sid);
        DeliversKeeps(y, z, f.id, f.body);
      } else {
        TakesOutKeeps(y, z, sid, f.id);
      }
    } else {
      OnePcHolds(y, z, sid);
      QuietKeeps(y, z);
    }
  }

  lemma ServerKeeps(y: System, sid: SessionId, a: ServerStep)
    requires WaiterInv(y) && ServerEnabled(y, sid, a)
    ensures WaiterInv(ServerAct(y, sid, a))
  {
    var z := ServerAct(y, sid, a);
    if a.ReadFrame? {
      var c := y.conns[sid];
      var x := SetConn(y, sid, c.(up := c.up[1..]));
      OnePcHolds(y, x, sid);
      QuietKeeps(y, x);
      FrameKeeps(x, sid, c.up[0]);
    } else if a.RestoreStray? {
      ServerRestores(y, sid);
      RestoresKeeps(y, z, sid, y.conns[sid].pc.id);
    } else {
      ServerHolds(y, sid, a);
      if a.FailPrevious? {
        FailsKeeps(y, z, y.conns[sid].pc.previous);
      } else if a.FailOwn? {
        FailsKeeps(y, z, sid);
      } else {
        QuietKeeps(y, z);
      }
    }
  }

  lemma ServerRestores(y: System, sid: SessionId)
    requires ServerEnabled(y, sid, RestoreStray)
    ensures Restores(y, ServerAct(y, sid, RestoreStray), sid, y.conns[sid].pc.id)
  {
    var pc := y.conns[sid].pc;
    assert ServerAct(y, sid, RestoreStray).pending == PutBack(y.pending, pc.id, pc.entry);
  }

  lemma ServerHolds(y: System, sid: SessionId, a: ServerStep)
    requires ServerEnabled(y, sid, a) && !a.ReadFrame? && !a.RestoreStray?
    ensures var z := ServerAct(y, sid, a);
            && SameHolds(y, z) && SameCallers(y, z)
            && z.pending == if a.FailPrevious? then SessionFailed(y.pending, y.conns[sid].pc.previous)
                            else if a.FailOwn? then SessionFailed(y.pending, sid) else y.pending
  {
    hide ServerAct, SameHolds, SessionFailed;
    ServerFields(y, sid, a);
    OnePcHolds(y, ServerAct(y, sid, a), sid);
  }

  lemma PeerIsQuiet(y: System, p: PeerId, a: PeerStep)
    requires PeerEnabled(y, p, a)
    ensures Quiet(y, PeerAct(y, p, a))
  {
    var z := PeerAct(y, p, a);
    if ReaderOf(a).Some? { OnePcHolds(y, z, ReaderOf(a).value); }
  }

  lemma WriterIsQuiet(y: System, sid: SessionId, a: WriterStep)
    requires WriterEnabled(y, sid, a)
    ensures Quiet(y, WriterAct(y, sid, a))
  {
    OnePcHolds(y, WriterAct(y, sid, a), sid);
  }

  lemma CallHolds(y: System, c: CallId, a: CallStep)
    requires CallEnabled(y, c, a)
    ensures SameHolds(y, CallAct(y, c, a))
  {
    var z := CallAct(y, c, a);
    if z.conns != y.conns { OnePcHolds(y, z, y.calls[c].session); }
  }

  /** One caller moves on; the table changes only as `cancel` or `register` of its own request changes it. */
  ghost predicate CallerMoves(y: System, z: System, c: CallId)
  {
    && SameHolds(y, z) && c in z.calls
    && z.calls.Keys == y.calls.Keys + {c} && (forall d | d in y.calls && d != c :: z.calls[d] == y.calls[d])
    && y.missed <= z.missed
  }

  lemma KeepsIdKeeps(y: System, z: System, c: CallId)
    requires WaiterInv(y) && CallerMoves(y, z, c) && z.pending == y.pending && z.missed == y.missed
    requires (c !in y.calls && !HasId(z.calls[c]))
          || (c in y.calls && HasId(y.calls[c]) && HasId(z.calls[c]) && y.calls[c].id == z.calls[c].id
              && Live(y.calls[c])
              && (z.calls[c].Done? ==> z.calls[c].id in y.pending.cells && !y.pending.cells[z.calls[c].id].Waiting?))
    ensures WaiterInv(z)
  {
    SameHeld(y, z);
  }

  lemma RegisterKeeps(y: System, z: System, c: CallId, id: RequestId, session: SessionId, op: nat)
    requires WaiterInv(y) && CallerMoves(y, z, c) && id !in y.pending.cells && c in y.calls && !HasId(y.calls[c])
    requires z.pending == Pending.Registered(y.pending, id, session, op) && z.missed == y.missed
    requires z.calls[c] == Call.Registered(id, session, op)
    ensures WaiterInv(z)
  {
    hide Held, SameHolds;
    SameHeld(y, z);
    HoldsAlike(y, z);
    hide HoldsStray;
  }

  lemma HoldsAlike(y: System, z: System)
    requires SameHolds(y, z)
    ensures forall sid, id :: HoldsStray(z, sid, id) <==> HoldsStray(y, sid, id)
  {
  }

  lemma CancelKeeps(y: System, z: System, c: CallId)
    requires WaiterInv(y) && CallerMoves(y, z, c) && c in y.calls && Live(y.calls[c])
    requires z.calls[c].Done? && z.calls[c].id == y.calls[c].id && z.pending == Cancelled(y.pending, y.calls[c].id)
    requires Held(y, y.calls[c].id) ==> y.calls[c].id in z.missed
    ensures WaiterInv(z)
  {
    SameHeld(y, z);
    HoldsAlike(y, z);
    var id := y.calls[c].id;
    if id in y.pending.entries { assert !Held(y, id); }
    hide HoldsStray, SameHolds, Held;
  }

  /** Before its deadline a caller's cancel never races a stray: its send failed before anything was answered, or
      answering took the entry. A failed send finds its entry unless some connection holds it. */
  lemma CallKeeps(y: System, c: CallId, a: CallStep)
    requires WaiterInv(y) && CallEnabled(y, c, a)
    requires a.CancelFailed? ==> !Held(y, y.calls[c].id)
    ensures WaiterInv(CallAct(y, c, a))
  {
    var z := CallAct(y, c, a);
    CallHolds(y, c, a);
    CallFields(y, c, a);
    hide CallAct, WaiterInv, SameHolds;
    assert CallerMoves(y, z, c);
    match a
    case Pick(_) => KeepsIdKeeps(y, z, c);
    case Register(id) => RegisterKeeps(y, z, c, id, y.calls[c].session, y.calls[c].op);
    case Send => KeepsIdKeeps(y, z, c);
    case CancelFailed => CancelKeeps(y, z, c);
    case Receive => KeepsIdKeeps(y, z, c);
    case Expire => KeepsIdKeeps(y, z, c);
    case CancelExpired => CancelKeeps(y, z, c);
  }
}
