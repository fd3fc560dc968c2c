/** Where each request is: in a writer task's queue, on the wire, in an inbox, in dispatch, or run. It is in one place. */
module BridgeTokens {
  import opened Wrappers
  import opened Pending
  import opened Bridge
  import opened BridgeFields
  import A = AddOn

  datatype Loc =
    | AtOutbound(sid: SessionId, i: nat)
    | AtWire(sid: SessionId, i: nat)
    | AtInbox(peer: PeerId, i: nat)
    | AtDispatch(peer: PeerId)
    | AtRun(i: nat)

  ghost predicate Here(y: System, l: Loc)
  {
    match l
    case AtOutbound(sid, i) => sid in y.conns && i < |y.conns[sid].outbound|
    case AtWire(sid, i) => sid in y.conns && i < |y.conns[sid].down|
    case AtInbox(p, i) => p in y.peers && i < |y.peers[p].addon.inbox|
    case AtDispatch(p) => p in y.peers && y.peers[p].addon.busy.Some?
    case AtRun(i) => i < |y.runs|
  }

  ghost function Token(y: System, l: Loc): A.Request
    requires Here(y, l)
  {
    match l
    case AtOutbound(sid, i) => y.conns[sid].outbound[i]
    case AtWire(sid, i) => y.conns[sid].down[i]
    case AtInbox(p, i) => y.peers[p].addon.inbox[i]
    case AtDispatch(p) => y.peers[p].addon.busy.value
    case AtRun(i) => A.Request(y.runs[i].id, y.runs[i].op)
  }

  ghost predicate InOnePlace(y: System)
  {
    forall k, l | Here(y, k) && Here(y, l) && Token(y, k).id == Token(y, l).id :: k == l
  }

  ghost predicate WasSent(y: System, r: A.Request)
  {
    r.id in y.sent && y.sent[r.id] == r.op
  }

  ghost predicate AllWereSent(y: System)
  {
    forall l | Here(y, l) :: WasSent(y, Token(y, l))
  }

  ghost predicate CallsKnowWhatWasSent(y: System)
  {
    && (forall id | id in y.sent :: id in y.pending.cells)
    && (forall c | c in y.calls && (y.calls[c].Registered? || y.calls[c].SendFailed?) :: y.calls[c].id !in y.sent)
    && (forall c | c in y.calls && (y.calls[c].Awaiting? || y.calls[c].Expired?) ::
          WasSent(y, A.Request(y.calls[c].id, y.calls[c].op)))
    && (forall c | c in y.calls && y.calls[c].Done? && y.calls[c].result.Reply? ::
          WasSent(y, A.Request(y.calls[c].id, y.calls[c].op)))
  }

  ghost predicate TokenInv(y: System)
  {
    InOnePlace(y) && AllWereSent(y) && CallsKnowWhatWasSent(y)
  }

  // ---------------------------------------------------------------------------
  // One request moves one place on
  // ---------------------------------------------------------------------------

  datatype Move = Still | ToWire(sid: SessionId) | ToInbox(sid: SessionId, peer: PeerId) | Refused(sid: SessionId)
                | ToDispatch(peer: PeerId) | ToRun(peer: PeerId)

  /** Where the request now at `l` was before the move. */
  ghost function Pre(y: System, m: Move, l: Loc): Loc
  {
    match m
    case Still => l
    case ToWire(sid) =>
      if sid in y.conns && l == AtWire(sid, |y.conns[sid].down|) then AtOutbound(sid, 0)
      else if l.AtOutbound? && l.sid == sid then AtOutbound(sid, l.i + 1) else l
    case ToInbox(sid, p) =>
      if p in y.peers && l == AtInbox(p, |y.peers[p].addon.inbox|) then AtWire(sid, 0)
      else if l.AtWire? && l.sid == sid then AtWire(sid, l.i + 1) else l
    case Refused(sid) => if l.AtWire? && l.sid == sid then AtWire(sid, l.i + 1) else l
    case ToDispatch(p) =>
      if l == AtDispatch(p) then AtInbox(p, 0)
      else if l.AtInbox? && l.peer == p then AtInbox(p, l.i + 1) else l
    case ToRun(p) => if l == AtRun(|y.runs|) then AtDispatch(p) else l
  }

  ghost predicate Moves(y: System, z: System, m: Move)
  {
    && (forall l | Here(z, l) :: Here(y, Pre(y, m, l)) && Token(z, l) == Token(y, Pre(y, m, l)))
    && (m.ToRun? ==> !Here(z, AtDispatch(m.peer)))
  }

  lemma PreInjective(y: System, m: Move, k: Loc, l: Loc)
    requires m.ToRun? ==> k != AtDispatch(m.peer) && l != AtDispatch(m.peer)
    requires Pre(y, m, k) == Pre(y, m, l)
    ensures k == l
  {
  }

  ghost predicate SameBooks(y: System, z: System)
  {
    z.sent == y.sent && z.calls == y.calls && y.pending.cells.Keys <= z.pending.cells.Keys
  }

  lemma MoveKeepsPlaces(y: System, z: System, m: Move)
    requires InOnePlace(y) && AllWereSent(y) && Moves(y, z, m) && z.sent == y.sent
    ensures InOnePlace(z) && AllWereSent(z)
  {
    forall k, l | Here(z, k) && Here(z, l) && Token(z, k).id == Token(z, l).id
      ensures k == l
    {
      assert Here(y, Pre(y, m, k)) && Here(y, Pre(y, m, l));
      PreInjective(y, m, k, l);
    }
  }

  lemma MoveKeeps(y: System, z: System, m: Move)
    requires TokenInv(y) && Moves(y, z, m) && SameBooks(y, z)
    ensures TokenInv(z)
  {
    MoveKeepsPlaces(y, z, m);
  }

  ghost function ServerMove(y: System, sid: SessionId, a: ServerStep): Move
  {
    if a.Transmit? then ToWire(sid) else Still
  }

  lemma FrameStaysPut(y: System, sid: SessionId, f: A.Frame)
    requires sid in y.conns
    ensures var z := HandleFrame(y, sid, f);
            && z.peers == y.peers && z.runs == y.runs && SameBooks(y, z) && z.conns.Keys == y.conns.Keys
            && (forall d | d in y.conns :: z.conns[d].outbound == y.conns[d].outbound && z.conns[d].down == y.conns[d].down)
  {
  }

  /** No queue gains a request: each is as it was or empty. */
  ghost predicate OnlyEmptied(y: System, z: System)
  {
    && z.runs == y.runs
    && (forall d | d in z.conns :: z.conns[d].outbound == [] || (d in y.conns && z.conns[d].outbound == y.conns[d].outbound))
    && (forall d | d in z.conns :: z.conns[d].down == [] || (d in y.conns && z.conns[d].down == y.conns[d].down))
    && (forall p | p in z.peers ::
          && p in y.peers && z.peers[p].addon.busy == y.peers[p].addon.busy
          && (z.peers[p].addon.inbox == [] || z.peers[p].addon.inbox == y.peers[p].addon.inbox))
  }

  lemma EmptiedIsStill(y: System, z: System)
    requires OnlyEmptied(y, z)
    ensures Moves(y, z, Still)
  {
  }

  lemma TransmitMoves(y: System, sid: SessionId)
    requires ServerEnabled(y, sid, Transmit)
    ensures Moves(y, ServerAct(y, sid, Transmit), ToWire(sid)) && SameBooks(y, ServerAct(y, sid, Transmit))
  {
    hide ServerAct;
    ServerFields(y, sid, Transmit);
  }

  ghost predicate TouchesOne(y: System, z: System, sid: SessionId)
  {
    && sid in z.conns && z.conns == y.conns[sid := z.conns[sid]] && z.runs == y.runs
    && var was := if sid in y.conns then (y.conns[sid].outbound, y.conns[sid].down) else ([], []);
       && (z.conns[sid].outbound == [] || z.conns[sid].outbound == was.0)
       && z.conns[sid].down == was.1
  }

  lemma ServerTouchesOne(y: System, sid: SessionId, a: ServerStep)
    requires ServerEnabled(y, sid, a) && !a.Transmit? && !a.ReadFrame?
    ensures TouchesOne(y, ServerAct(y, sid, a), sid) && ServerAct(y, sid, a).peers == y.peers
    ensures SameBooks(y, ServerAct(y, sid, a))
  {
    hide ServerAct;
    ServerFields(y, sid, a);
  }

  lemma TouchingEmpties(y: System, z: System, sid: SessionId)
    requires TouchesOne(y, z, sid) && z.peers == y.peers
    ensures OnlyEmptied(y, z)
  {
  }

  lemma ServerEmpties(y: System, sid: SessionId, a: ServerStep)
    requires ServerEnabled(y, sid, a) && !a.Transmit? && !a.ReadFrame?
    ensures OnlyEmptied(y, ServerAct(y, sid, a)) && SameBooks(y, ServerAct(y, sid, a))
  {
    ServerTouchesOne(y, sid, a);
    TouchingEmpties(y, ServerAct(y, sid, a), sid);
  }

  lemma ServerMovesTokens(y: System, sid: SessionId, a: ServerStep)
    requires ServerEnabled(y, sid, a)
    ensures Moves(y, ServerAct(y, sid, a), ServerMove(y, sid, a)) && SameBooks(y, ServerAct(y, sid, a))
  {
    if a.Transmit? {
      TransmitMoves(y, sid);
    } else if a.ReadFrame? {
      var c := y.conns[sid];
      FrameStaysPut(SetConn(y, sid, c.(up := c.up[1..])), sid, c.up[0]);
      EmptiedIsStill(y, ServerAct(y, sid, a));
    } else {
      ServerEmpties(y, sid, a);
      EmptiedIsStill(y, ServerAct(y, sid, a));
    }
  }

  ghost function PeerMove(y: System, p: PeerId, a: PeerStep): Move
    requires PeerEnabled(y, p, a)
  {
    match a
    case ReadRequest(sid) => if |y.peers[p].addon.inbox| < A.INBOX_MAX then ToInbox(sid, p) else Refused(sid)
    case TakeRequest => ToDispatch(p)
    case Finish(_) => ToRun(p)
    case _ => Still
  }

  lemma ReadMoves(y: System, p: PeerId, sid: SessionId)
    requires PeerEnabled(y, p, ReadRequest(sid))
    ensures var z := PeerAct(y, p, ReadRequest(sid)); Moves(y, z, PeerMove(y, p, ReadRequest(sid))) && SameBooks(y, z)
  {
    ReadShape(y, p, sid);
    hide PeerAct;
  }

  lemma ReadShape(y: System, p: PeerId, sid: SessionId)
    requires PeerEnabled(y, p, ReadRequest(sid))
    ensures var z := PeerAct(y, p, ReadRequest(sid));
                    var was, now := y.peers[p].addon, z.peers[p].addon;
            && z.peers == y.peers[p := z.peers[p]] && z.runs == y.runs && SameBooks(y, z)
            && now.busy == was.busy
            && now.inbox == (if |was.inbox| < A.INBOX_MAX then was.inbox + [y.conns[sid].down[0]] else was.inbox)
            && z.conns == y.conns[sid := y.conns[sid].(down := y.conns[sid].down[1..])]
  {
    hide PeerAct;
    PeerFields(y, p, ReadRequest(sid));
  }

  lemma DispatchMoves(y: System, p: PeerId)
    requires PeerEnabled(y, p, TakeRequest)
    ensures Moves(y, PeerAct(y, p, TakeRequest), ToDispatch(p)) && SameBooks(y, PeerAct(y, p, TakeRequest))
  {
    hide PeerAct;
    PeerFields(y, p, TakeRequest);
  }

  lemma RunMoves(y: System, p: PeerId, body: Body)
    requires PeerEnabled(y, p, Finish(body))
    ensures Moves(y, PeerAct(y, p, Finish(body)), ToRun(p)) && SameBooks(y, PeerAct(y, p, Finish(body)))
  {
    var z := PeerAct(y, p, Finish(body));
    assert z.peers[p].addon.inbox == y.peers[p].addon.inbox && z.peers[p].addon.busy.None?;
    assert z.conns == y.conns;
  }

  lemma PeerTouchesOne(y: System, p: PeerId, a: PeerStep)
    requires PeerEnabled(y, p, a) && !a.ReadRequest? && !a.TakeRequest? && !a.Finish?
    ensures var z := PeerAct(y, p, a);
            && p in z.peers && z.peers == y.peers[p := z.peers[p]] && z.runs == y.runs && SameBooks(y, z)
            && z.peers[p].addon.busy == y.peers[p].addon.busy
            && (z.peers[p].addon.inbox == [] || z.peers[p].addon.inbox == y.peers[p].addon.inbox)
    ensures var z := PeerAct(y, p, a);
            if ReaderOf(a).Some? then TouchesOne(y, z, ReaderOf(a).value) else z.conns == y.conns
  {
    hide PeerAct;
    PeerFields(y, p, a);
  }

  lemma PeerEmpties(y: System, p: PeerId, a: PeerStep)
    requires PeerEnabled(y, p, a) && !a.ReadRequest? && !a.TakeRequest? && !a.Finish?
    ensures OnlyEmptied(y, PeerAct(y, p, a)) && SameBooks(y, PeerAct(y, p, a))
  {
    PeerTouchesOne(y, p, a);
    var z := PeerAct(y, p, a);
    var x := z.(peers := y.peers);
    if ReaderOf(a).Some? { TouchingEmpties(y, x, ReaderOf(a).value); }
    assert OnlyEmptied(y, x);
  }

  lemma PeerMovesTokens(y: System, p: PeerId, a: PeerStep)
    requires PeerEnabled(y, p, a)
    ensures Moves(y, PeerAct(y, p, a), PeerMove(y, p, a)) && SameBooks(y, PeerAct(y, p, a))
  {
    match a
    case ReadRequest(sid) => ReadMoves(y, p, sid);
    case TakeRequest => DispatchMoves(y, p);
    case Finish(body) => RunMoves(y, p, body);
    case _ =>
      PeerEmpties(y, p, a);
      EmptiedIsStill(y, PeerAct(y, p, a));
  }

  lemma WriterMovesTokens(y: System, sid: SessionId, a: WriterStep)
    requires WriterEnabled(y, sid, a)
    ensures Moves(y, WriterAct(y, sid, a), Still) && SameBooks(y, WriterAct(y, sid, a))
  {
    hide WriterAct;
    WriterFields(y, sid, a);
  }

  lemma SendKeeps(y: System, c: CallId)
    requires TokenInv(y) && CallEnabled(y, c, Send)
    requires forall d | d in y.calls && d != c && !y.calls[d].Picked? :: y.calls[d].id != y.calls[c].id
    requires y.calls[c].id in y.pending.cells
    ensures TokenInv(CallAct(y, c, Send))
  {
    var z := CallAct(y, c, Send);
    var k := y.calls[c];
    hide CallAct, InOnePlace, AllWereSent;
    if k.session in y.conns && y.conns[k.session].accepting {
      SendStarts(y, c);
      StartKeeps(y, z, AtOutbound(k.session, |y.conns[k.session].outbound|), A.Request(k.id, k.op));
      SendIsKnown(y, c);
    } else {
      CallFields(y, c, Send);
      assert Moves(y, z, Still);
      MoveKeepsPlaces(y, z, Still);
    }
  }

  lemma SendStarts(y: System, c: CallId)
    requires CallEnabled(y, c, Send) && y.calls[c].session in y.conns && y.conns[y.calls[c].session].accepting
    ensures var z := CallAct(y, c, Send);
            var k := y.calls[c];
            var start := AtOutbound(k.session, |y.conns[k.session].outbound|);
            && Here(z, start) && Token(z, start) == A.Request(k.id, k.op) && z.sent == y.sent[k.id := k.op]
            && (forall l | Here(z, l) && l != start :: Here(y, l) && Token(z, l) == Token(y, l))
  {
    hide CallAct;
    CallFields(y, c, Send);
  }

  lemma StartKeeps(y: System, z: System, start: Loc, r: A.Request)
    requires InOnePlace(y) && AllWereSent(y) && r.id !in y.sent && z.sent == y.sent[r.id := r.op]
    requires Here(z, start) && Token(z, start) == r
    requires forall l | Here(z, l) && l != start :: Here(y, l) && Token(z, l) == Token(y, l)
    ensures InOnePlace(z) && AllWereSent(z)
  {
    hide Here, Token;
    forall l | Here(z, l) && l != start ensures Token(z, l).id != r.id && WasSent(z, Token(z, l)) {
      assert WasSent(y, Token(y, l));
    }
  }

  lemma SendIsKnown(y: System, c: CallId)
    requires CallsKnowWhatWasSent(y) && CallEnabled(y, c, Send)
    requires forall d | d in y.calls && d != c && !y.calls[d].Picked? :: y.calls[d].id != y.calls[c].id
    requires y.calls[c].id in y.pending.cells
    ensures CallsKnowWhatWasSent(CallAct(y, c, Send))
  {
    hide CallAct;
    CallFields(y, c, Send);
  }

  lemma CallStaysPut(y: System, c: CallId, a: CallStep)
    requires CallEnabled(y, c, a) && !a.Send?
    ensures var z := CallAct(y, c, a); z.conns == y.conns && z.peers == y.peers && z.runs == y.runs && z.sent == y.sent
    ensures y.pending.cells.Keys <= CallAct(y, c, a).pending.cells.Keys
    ensures var z := CallAct(y, c, a);
            c in z.calls && z.calls.Keys == y.calls.Keys + {c} && forall d | d in y.calls && d != c :: z.calls[d] == y.calls[d]
  {
    hide CallAct;
    CallFields(y, c, a);
  }

  lemma CallKeepsTokens(y: System, c: CallId, a: CallStep)
    requires TokenInv(y) && CallEnabled(y, c, a) && !a.Send?
    ensures TokenInv(CallAct(y, c, a))
  {
    var z := CallAct(y, c, a);
    CallStaysPut(y, c, a);
    assert Moves(y, z, Still) by { hide CallAct; }
    MoveKeepsPlaces(y, z, Still);
    CallIsKnown(y, c, a);
  }

  lemma CallIsKnown(y: System, c: CallId, a: CallStep)
    requires CallsKnowWhatWasSent(y) && CallEnabled(y, c, a) && !a.Send?
    ensures CallsKnowWhatWasSent(CallAct(y, c, a))
  {
    hide CallAct;
    CallFields(y, c, a);
    var z := CallAct(y, c, a);
    assert z.calls[c].Registered? ==> z.calls[c].id !in y.sent;
    assert z.calls[c].Expired? || (z.calls[c].Done? && z.calls[c].result.Reply?) ==>
      y.calls[c].Awaiting? && z.calls[c].id == y.calls[c].id && z.calls[c].op == y.calls[c].op;
  }
}
