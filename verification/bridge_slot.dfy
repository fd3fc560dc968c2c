/** The session slot and the queues' accounts, over every reachable state of the bridge. */
module BridgeSlot {
  import opened Wrappers
  import opened Pending
  import opened Bridge
  import opened BridgeFields
  import A = AddOn

  /** The task still may clear the slot. */
  predicate BeforeClear(pc: Pc)
  {
    pc.FailingPrevious? || pc.Reading? || pc.HoldingStray? || pc.Ending?
  }

  predicate NotInstalled(pc: Pc)
  {
    pc.Offered? || pc.Acked?
  }

  ghost predicate Replaced(y: System, old_: SessionId, new_: SessionId)
  {
    exists k :: 0 < k < |y.installed| && y.installed[k] == new_ && y.installed[k - 1] == old_
  }

  /** The slot is decided by history: the most recently installed session until its own task clears it. */
  ghost predicate SlotInv(y: System)
  {
    && (forall i, j | 0 <= i < j < |y.installed| :: y.installed[i] != y.installed[j])
    && (forall k | 0 <= k < |y.installed| :: y.installed[k] in y.conns)
    && (forall sid | sid in y.conns :: sid in y.installed <==> !NotInstalled(y.conns[sid].pc))
    && (forall sid | sid in y.conns && y.conns[sid].pc.FailingPrevious? :: Replaced(y, y.conns[sid].pc.previous, sid))
    && y.slot == if y.installed != [] && BeforeClear(y.conns[y.installed[|y.installed| - 1]].pc)
                 then Some(y.installed[|y.installed| - 1]) else None
  }

  /** Every task but that of `sid` stands where it stood. */
  ghost predicate OthersStay(y: System, z: System, sid: SessionId)
  {
    && z.conns.Keys == y.conns.Keys + {sid}
    && forall d | d in y.conns && d != sid :: z.conns[d].pc == y.conns[d].pc
  }

  /** A step of one task that installs nothing: it only gives up the slot when it passes the clearing. */
  ghost predicate TaskMoves(y: System, z: System, sid: SessionId)
  {
    && z.installed == y.installed && sid in y.conns && OthersStay(y, z, sid)
    && var was, now := y.conns[sid].pc, z.conns[sid].pc;
       && NotInstalled(was) == NotInstalled(now)
       && (now.FailingPrevious? ==> was == now)
       && (BeforeClear(now) ==> BeforeClear(was))
       && z.slot == if BeforeClear(was) && !BeforeClear(now) && y.slot == Some(sid) then None else y.slot
  }

  lemma TaskMoveKeepsSlot(y: System, z: System, sid: SessionId)
    requires SlotInv(y) && TaskMoves(y, z, sid)
    ensures SlotInv(z)
  {
    ReplacedStay(y, z);
    hide Replaced;
    if y.installed != [] {
      var last := y.installed[|y.installed| - 1];
      if last != sid { assert z.conns[last].pc == y.conns[last].pc; }
    }
  }

  lemma ReplacedStay(y: System, z: System)
    requires z.installed == y.installed
    ensures forall p, d | Replaced(y, p, d) :: Replaced(z, p, d)
  {
  }

  lemma Installs(y: System, z: System, sid: SessionId)
    requires SlotInv(y) && sid in y.conns && NotInstalled(y.conns[sid].pc) && OthersStay(y, z, sid)
    requires z.installed == y.installed + [sid] && z.slot == Some(sid)
    requires z.conns[sid].pc == if y.slot.Some? then FailingPrevious(y.slot.value) else Reading
    ensures SlotInv(z)
  {
    hide Replaced;
    AppendedOnce(y.installed, sid);
    assert z.installed[|y.installed|] == sid;
    assert BeforeClear(z.conns[sid].pc);
    forall d | d in z.conns ensures d in z.installed <==> !NotInstalled(z.conns[d].pc) {
      if d != sid { assert z.conns[d].pc == y.conns[d].pc; }
    }
    forall d | d in z.conns && z.conns[d].pc.FailingPrevious? ensures Replaced(z, z.conns[d].pc.previous, d) {
      if d == sid { ReplacesLast(y, z, sid); } else { ReplacedGrow(y, z, sid, z.conns[d].pc.previous, d); }
    }
  }

  lemma ReplacesLast(y: System, z: System, sid: SessionId)
    requires z.installed == y.installed + [sid] && y.installed != []
    ensures Replaced(z, y.installed[|y.installed| - 1], sid)
  {
    var n := |y.installed|;
    assert z.installed[n] == sid && z.installed[n - 1] == y.installed[n - 1];
  }

  lemma AppendedOnce(list: seq<SessionId>, sid: SessionId)
    requires (forall i, j | 0 <= i < j < |list| :: list[i] != list[j]) && sid !in list
    ensures var longer := list + [sid];
            && (forall i, j | 0 <= i < j < |longer| :: longer[i] != longer[j])
            && (forall d :: d in longer <==> d in list || d == sid)
  {
  }

  lemma ReplacedGrow(y: System, z: System, sid: SessionId, p: SessionId, d: SessionId)
    requires z.installed == y.installed + [sid] && Replaced(y, p, d)
    ensures Replaced(z, p, d)
  {
    var k :| 0 < k < |y.installed| && y.installed[k] == d && y.installed[k - 1] == p;
    assert z.installed[k] == d && z.installed[k - 1] == p;
  }

  lemma Offers(y: System, z: System, sid: SessionId)
    requires SlotInv(y) && sid !in y.conns && OthersStay(y, z, sid) && z.conns[sid].pc == Offered
    requires z.installed == y.installed && z.slot == y.slot
    ensures SlotInv(z)
  {
    ReplacedStay(y, z);
    hide Replaced;
  }

  lemma ServerMoves(y: System, sid: SessionId, a: ServerStep)
    requires ServerEnabled(y, sid, a) && !a.Install? && !a.Offer?
    ensures TaskMoves(y, ServerAct(y, sid, a), sid)
  {
    hide ServerAct, TableAfterServer, BroadcastAfterServer, PastAfterServer;
    ServerFields(y, sid, a);
  }

  lemma ServerInstalls(y: System, sid: SessionId, a: ServerStep)
    requires ServerEnabled(y, sid, a) && (a.Install? || a.Offer?)
    ensures OthersStay(y, ServerAct(y, sid, a), sid)
  {
    hide ServerAct;
    ServerFields(y, sid, a);
  }

  lemma PeerMoves(y: System, p: PeerId, a: PeerStep)
    requires PeerEnabled(y, p, a)
    ensures var z := PeerAct(y, p, a);
            if ReaderOf(a).Some? then TaskMoves(y, z, ReaderOf(a).value)
            else z.conns == y.conns && z.slot == y.slot && z.installed == y.installed
  {
    hide PeerAct;
    PeerFields(y, p, a);
  }

  lemma WriterMoves(y: System, sid: SessionId, a: WriterStep)
    requires WriterEnabled(y, sid, a)
    ensures TaskMoves(y, WriterAct(y, sid, a), sid)
  {
    hide WriterAct;
    WriterFields(y, sid, a);
  }

  lemma CallMoves(y: System, c: CallId, a: CallStep)
    requires CallEnabled(y, c, a)
    ensures var z := CallAct(y, c, a);
            || (z.conns == y.conns && z.slot == y.slot && z.installed == y.installed)
            || (a.Send? && TaskMoves(y, z, y.calls[c].session))
  {
    hide CallAct;
    CallFields(y, c, a);
  }

  lemma UnmovedKeepsSlot(y: System, z: System)
    requires SlotInv(y) && z.conns == y.conns && z.slot == y.slot && z.installed == y.installed
    ensures SlotInv(z)
  {
    ReplacedStay(y, z);
    hide Replaced;
  }

  lemma ServerKeepsSlot(y: System, sid: SessionId, a: ServerStep)
    requires SlotInv(y) && ServerEnabled(y, sid, a)
    ensures SlotInv(ServerAct(y, sid, a))
  {
    var z := ServerAct(y, sid, a);
    if a.Install? {
      ServerInstalls(y, sid, a);
      Installs(y, z, sid);
    } else if a.Offer? {
      ServerInstalls(y, sid, a);
      Offers(y, z, sid);
    } else {
      ServerMoves(y, sid, a);
      TaskMoveKeepsSlot(y, z, sid);
    }
  }

  lemma PeerKeepsSlot(y: System, p: PeerId, a: PeerStep)
    requires SlotInv(y) && PeerEnabled(y, p, a)
    ensures SlotInv(PeerAct(y, p, a))
  {
    var z := PeerAct(y, p, a);
    PeerMoves(y, p, a);
    if ReaderOf(a).Some? { TaskMoveKeepsSlot(y, z, ReaderOf(a).value); } else { UnmovedKeepsSlot(y, z); }
  }

  lemma CallKeepsSlot(y: System, c: CallId, a: CallStep)
    requires SlotInv(y) && CallEnabled(y, c, a)
    ensures SlotInv(CallAct(y, c, a))
  {
    var z := CallAct(y, c, a);
    CallMoves(y, c, a);
    if z.conns == y.conns && z.slot == y.slot && z.installed == y.installed {
      UnmovedKeepsSlot(y, z);
    } else {
      TaskMoveKeepsSlot(y, z, y.calls[c].session);
    }
  }

  lemma StepKeepsSlot(y: System, a: Step)
    requires SlotInv(y) && Enabled(y, a)
    ensures SlotInv(Act(y, a))
  {
    match a
    case Server(sid, s) => ServerKeepsSlot(y, sid, s);
    case Main(p, s) => PeerKeepsSlot(y, p, s);
    case Writer(sid, s) =>
      WriterMoves(y, sid, s);
      TaskMoveKeepsSlot(y, WriterAct(y, sid, s), sid);
    case Caller(c, s) => CallKeepsSlot(y, c, s);
  }

  /** The requests whose entries are in the table under session `d`. */
  ghost function EntriesOf(y: System, d: SessionId): set<RequestId>
  {
    OfSession(y.pending, d)
  }

  /** Apart from handling a frame it read, no task takes out a request of the session in the slot: no replacement and
      no exit of a connection ever fails it. In particular the exit of a superseded connection neither
      clears the slot nor fails a newer session. */
  lemma OnlyItsOwnEndFailsASession(y: System, sid: SessionId, a: ServerStep, d: SessionId)
    requires SlotInv(y) && ServerEnabled(y, sid, a) && !a.ReadFrame? && !a.RestoreStray?
    requires ServerAct(y, sid, a).slot == Some(d)
    ensures EntriesOf(y, d) <= EntriesOf(ServerAct(y, sid, a), d)
  {
    hide ServerAct, ConnAfterServer, BroadcastAfterServer, PastAfterServer, SessionFailed;
    ServerFields(y, sid, a);
    if a.FailPrevious? {
      assert Replaced(y, y.conns[sid].pc.previous, sid);
      FailingSparesOthers(y.pending, y.conns[sid].pc.previous, d);
    } else if a.FailOwn? {
      FailingSparesOthers(y.pending, sid, d);
    }
  }

  lemma FailingSparesOthers(t: Table, failed: SessionId, d: SessionId)
    requires failed != d
    ensures OfSession(t, d) <= OfSession(SessionFailed(t, failed), d)
  {
  }

  /** The exit of a connection that is not the one installed last leaves slot, table and waiters alone. */
  lemma SupersededExitIsHarmless(y: System, sid: SessionId, a: ServerStep)
    requires SlotInv(y) && ServerEnabled(y, sid, a) && (a.EndRead? || a.ClearSlot? || a.Abort?)
    requires sid != y.installed[|y.installed| - 1]
    ensures ServerAct(y, sid, a).slot == y.slot && ServerAct(y, sid, a).pending == y.pending
    ensures a.ClearSlot? ==> ServerAct(y, sid, a).conns[sid].pc == Aborting
  {
    hide ServerAct;
    ServerFields(y, sid, a);
  }

  /** Every add-on keeps the account of its queues. */
  ghost predicate AccountInv(y: System)
  {
    forall p | p in y.peers :: A.Accounted(y.peers[p].addon)
  }

  ghost predicate OneAddonMoves(y: System, z: System, p: PeerId, a: Option<A.Action>)
  {
    && p in y.peers && z.peers.Keys == y.peers.Keys
    && (forall q | q in y.peers && q != p :: z.peers[q] == y.peers[q])
    && match a
       case None => z.peers[p].addon == y.peers[p].addon
       case Some(b) => A.Enabled(y.peers[p].addon, b) && z.peers[p].addon == A.Act(y.peers[p].addon, b)
  }

  lemma PeerMovesOneAddon(y: System, p: PeerId, a: PeerStep)
    requires PeerEnabled(y, p, a)
    ensures OneAddonMoves(y, PeerAct(y, p, a), p, AddonAction(y, p, a))
  {
    hide PeerAct;
    PeerFields(y, p, a);
  }

  lemma WriterMovesOneAddon(y: System, sid: SessionId, a: WriterStep)
    requires WriterEnabled(y, sid, a)
    ensures var z := WriterAct(y, sid, a);
            if a.TakeFrame? then OneAddonMoves(y, z, y.conns[sid].peer, Some(A.DoPop)) else z.peers == y.peers
  {
    hide WriterAct;
    WriterFields(y, sid, a);
  }

  lemma OthersMoveNoAddon(y: System, a: Step)
    requires Enabled(y, a) && (a.Server? || a.Caller?)
    ensures Act(y, a).peers == y.peers
  {
    hide ServerAct, CallAct;
    match a
    case Server(sid, s) => ServerFields(y, sid, s);
    case Caller(c, s) => CallFields(y, c, s);
    case _ =>
  }

  lemma OneAccount(y: System, z: System, p: PeerId, a: Option<A.Action>)
    requires AccountInv(y) && OneAddonMoves(y, z, p, a)
    ensures AccountInv(z)
  {
    if a.Some? { A.StepKeepsAccount(y.peers[p].addon, a.value); }
  }

  lemma StepKeepsAccounts(y: System, a: Step)
    requires AccountInv(y) && Enabled(y, a)
    ensures AccountInv(Act(y, a))
  {
    match a
    case Main(p, s) =>
      PeerMovesOneAddon(y, p, s);
      OneAccount(y, PeerAct(y, p, s), p, AddonAction(y, p, s));
    case Writer(sid, w) =>
      WriterMovesOneAddon(y, sid, w);
      if w.TakeFrame? { OneAccount(y, WriterAct(y, sid, w), y.conns[sid].peer, Some(A.DoPop)); }
    case _ => OthersMoveNoAddon(y, a);
  }
}
