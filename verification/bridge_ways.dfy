/** Ways home: where a request or its response can be while its answer can still be read by the connection it was sent on,
    and that no step but that of a sender opens a way. */
module BridgeWays {
  import opened Wrappers
  import opened Pending
  import opened Bridge
  import opened BridgeFields
  import opened BridgeWaiters
  import opened BridgeFailing
  import opened BridgeAnswers
  import opened BridgePast
  import A = AddOn
  import G = BridgeForGood

  /** The task of this connection can still read a frame. */
  predicate Attentive(pc: Pc)
  {
    pc.FailingPrevious? || pc.Reading? || pc.HoldingStray?
  }

  /** None of the first `n` frames ends the read loop. */
  predicate Harmless(up: seq<A.Frame>, n: nat)
    requires n <= |up|
  {
    forall k | 0 <= k < n :: !up[k].Fatal?
  }

  /** A frame taken from the outbox now can be written on this connection, and read there. */
  predicate Carrying(y: System, sid: SessionId)
  {
    && sid in y.conns
    && var c := y.conns[sid];
       && c.open && Harmless(c.up, |c.up|) && c.peer in y.peers
       && (c.writer || c.reader.Shaken?)
  }

  /** The add-on's reader takes requests off this connection, or is about to. */
  predicate Served(y: System, sid: SessionId)
  {
    && sid in y.conns && y.conns[sid].peer in y.peers
    && (y.conns[sid].reader.Shaken? || y.conns[sid].reader.Serving?)
  }

  /** What is at this spot can still become a response that connection `sid` reads. */
  predicate Leads(y: System, sid: SessionId, s: Spot)
  {
    && sid in y.conns && Attentive(y.conns[sid].pc)
    && match s
       case Outbound(d, _) => d == sid && y.conns[sid].accepting && Served(y, sid) && Carrying(y, sid)
       case Wire(d, _) => d == sid && Served(y, sid) && Carrying(y, sid)
       case Inbox(p, _) => p == y.conns[sid].peer && Carrying(y, sid)
       case Dispatch(p) => p == y.conns[sid].peer && Carrying(y, sid)
       case Outbox(p, _) => p == y.conns[sid].peer && Carrying(y, sid)
       case Hand(d) => d == sid && y.conns[sid].open && Harmless(y.conns[sid].up, |y.conns[sid].up|)
       case Up(d, i) => d == sid && i < |y.conns[sid].up| && Harmless(y.conns[sid].up, i)
  }

  ghost predicate Way(y: System, sid: SessionId, s: Spot, id: RequestId)
  {
    Here(y, s) && IdAt(y, s) == id && Leads(y, sid, s)
  }

  /** An answer to this request can still reach the connection it was sent on. */
  ghost predicate OnItsWay(y: System, id: RequestId)
  {
    id in y.past.sessions && exists s :: Way(y, y.past.sessions[id], s, id)
  }

  // ---------------------------------------------------------------------------
  // Requests go out on their own session
  // ---------------------------------------------------------------------------

  ghost predicate OutInv(y: System)
  {
    && (forall c | c in y.calls && y.calls[c].Registered? ::
          y.calls[c].id in y.past.sessions && y.past.sessions[y.calls[c].id] == y.calls[c].session)
    && (forall s | Here(y, s) && (s.Outbound? || s.Wire?) ::
          IdAt(y, s) in y.past.sessions && y.past.sessions[IdAt(y, s)] == s.sid)
  }

  lemma InitialOut(y: System)
    requires Initial(y)
    ensures OutInv(y)
  {
  }

  ghost predicate SessionsGrow(y: System, z: System)
  {
    forall id | id in y.past.sessions :: id in z.past.sessions && z.past.sessions[id] == y.past.sessions[id]
  }

  /** The move each step but a send makes. */
  ghost function MoveOf(y: System, a: Step): Move
    requires Enabled(y, a)
  {
    match a
    case Server(sid, s) => if s.ReadFrame? then Leaves(sid) else if s.Transmit? then ToWire(sid) else Still
    case Main(p, s) => PeerMove(y, p, s)
    case Writer(sid, s) =>
      if s.TakeFrame? then ToHand(y.conns[sid].peer, sid) else if s.WriteFrame? || s.WriteTooLarge? then ToUp(sid) else Still
    case Caller(_, _) => Still
  }

  predicate Sends(a: Step)
  {
    a.Caller? && a.c.Send?
  }

  lemma StepMoves(y: System, a: Step)
    requires Enabled(y, a) && !Sends(a)
    ensures Moves(y, Act(y, a), MoveOf(y, a))
  {
    hide Moves, ServerAct, PeerAct, WriterAct, CallAct;
    match a
    case Server(sid, s) =>
      if s.ReadFrame? { PopMoves(y, sid); } else if s.Transmit? { TransmitMoves(y, sid); } else { ServerStill(y, sid, s); }
    case Main(p, s) =>
      match s {
        case ReadRequest(sid) => ReadRequestMoves(y, p, sid);
        case TakeRequest => TakeRequestMoves(y, p);
        case Finish(body) => FinishMoves(y, p, body);
        case _ => PeerStill(y, p, s);
      }
    case Writer(sid, s) =>
      if s.TakeFrame? { TakeFrameMoves(y, sid); } else if s.Shut? { ShutMoves(y, sid); } else { SettleMoves(y, sid, s); }
    case Caller(c, s) => CallStill(y, c, s);
  }

  lemma MovesKeepOut(y: System, z: System, m: Move)
    requires OutInv(y) && Moves(y, z, m) && SessionsGrow(y, z)
    requires forall c | c in z.calls && z.calls[c].Registered? ::
               z.calls[c].id in z.past.sessions && z.past.sessions[z.calls[c].id] == z.calls[c].session
    ensures OutInv(z)
  {
    hide Here, IdAt, Pre;
    forall s | Here(z, s) && (s.Outbound? || s.Wire?)
      ensures IdAt(z, s) in z.past.sessions && z.past.sessions[IdAt(z, s)] == s.sid
    {
      PreIsOut(y, m, s);
      var t := Pre(y, m, s);
      assert Here(y, t) && IdAt(z, s) == IdAt(y, t);
    }
  }

  lemma PreIsOut(y: System, m: Move, s: Spot)
    requires s.Outbound? || s.Wire?
    ensures var t := Pre(y, m, s); (t.Outbound? || t.Wire?) && t.sid == s.sid
  {
  }

  lemma CallsStayOut(y: System, a: Step)
    requires OutInv(y) && LedgerInv(y) && Enabled(y, a)
    ensures var z := Act(y, a);
            && SessionsGrow(y, z)
            && forall c | c in z.calls && z.calls[c].Registered? ::
                 z.calls[c].id in z.past.sessions && z.past.sessions[z.calls[c].id] == z.calls[c].session
  {
    hide ServerAct, PeerAct, WriterAct, CallAct, Here, CellsTell;
    forall id | id in y.past.sessions
      ensures id in Act(y, a).past.sessions && Act(y, a).past.sessions[id] == y.past.sessions[id]
    {
      G.SessionKept(y, a, id);
    }
    match a
    case Server(sid, s) => ServerFields(y, sid, s);
    case Main(p, s) => PeerFields(y, p, s);
    case Writer(sid, s) => WriterFields(y, sid, s);
    case Caller(c, s) => CallFields(y, c, s);
  }

  lemma SendKeepsOut(y: System, c: CallId)
    requires OutInv(y) && CallEnabled(y, c, Send)
    requires var z := CallAct(y, c, Send);
             && SessionsGrow(y, z)
             && forall d | d in z.calls && z.calls[d].Registered? ::
                  z.calls[d].id in z.past.sessions && z.past.sessions[z.calls[d].id] == z.calls[d].session
    ensures OutInv(CallAct(y, c, Send))
  {
    hide CallAct;
    var z := CallAct(y, c, Send);
    if y.calls[c].session in y.conns && y.conns[y.calls[c].session].accepting {
      SendShape(y, c);
    } else {
      SendStill(y, c);
      MovesKeepOut(y, z, Still);
    }
  }

  lemma SendStill(y: System, c: CallId)
    requires CallEnabled(y, c, Send) && !(y.calls[c].session in y.conns && y.conns[y.calls[c].session].accepting)
    ensures Moves(y, CallAct(y, c, Send), Still)
  {
    hide CallAct;
    CallFields(y, c, Send);
  }

  lemma StepKeepsOut(y: System, a: Step)
    requires OutInv(y) && LedgerInv(y) && Enabled(y, a)
    ensures OutInv(Act(y, a))
  {
    CallsStayOut(y, a);
    hide OutInv, LedgerInv, Moves, SessionsGrow;
    if Sends(a) {
      SendKeepsOut(y, a.call);
    } else {
      StepMoves(y, a);
      MovesKeepOut(y, Act(y, a), MoveOf(y, a));
    }
  }

  // ---------------------------------------------------------------------------
  // No step opens a way
  // ---------------------------------------------------------------------------

  /** What connection `sid` could do after the step it could do before. */
  ghost predicate Back(y: System, z: System, sid: SessionId, m: Move)
  {
    && sid in y.conns && sid in z.conns
    && var c, d := y.conns[sid], z.conns[sid];
       && d.peer == c.peer
       && (Attentive(d.pc) ==> Attentive(c.pc)) && (d.open ==> c.open) && (d.accepting ==> c.accepting)
       && (Served(z, sid) ==> Served(y, sid))
       && (d.writer || d.reader.Shaken? ==> c.writer || c.reader.Shaken?)
       && z.peers.Keys == y.peers.Keys
       && if m == Leaves(sid) then
            c.up != [] && d.up == c.up[1..] && (Attentive(d.pc) ==> !c.up[0].Fatal?)
          else
            && c.up <= d.up && |d.up| <= |c.up| + 1
            && (|d.up| == |c.up| + 1 && d.up[|c.up|].Response? ==> m == ToUp(sid) && c.open)
  }

  /** The connection was installed before. */
  predicate Installed(y: System, sid: SessionId)
  {
    sid in y.conns && !y.conns[sid].pc.Offered? && !y.conns[sid].pc.Acked?
  }

  lemma ServerBack(y: System, e: SessionId, a: ServerStep, sid: SessionId)
    requires ServerEnabled(y, e, a) && Installed(y, sid)
    ensures Back(y, ServerAct(y, e, a), sid, MoveOf(y, Server(e, a)))
  {
    hide ServerAct, TableAfterServer, BroadcastAfterServer, PastAfterServer;
    ServerFields(y, e, a);
  }

  lemma PeerBack(y: System, p: PeerId, a: PeerStep, sid: SessionId)
    requires PeerEnabled(y, p, a) && Installed(y, sid)
    ensures Back(y, PeerAct(y, p, a), sid, MoveOf(y, Main(p, a)))
  {
    hide PeerAct, AddonAfterPeer, RunsAfterPeer, EmittedAfterPeer, A.Enabled;
    PeerFields(y, p, a);
  }

  lemma WriterBack(y: System, e: SessionId, a: WriterStep, sid: SessionId)
    requires WriterEnabled(y, e, a) && Installed(y, sid)
    ensures Back(y, WriterAct(y, e, a), sid, MoveOf(y, Writer(e, a)))
  {
    hide WriterAct, PastAfterWriter;
    WriterFields(y, e, a);
  }

  lemma CallBack(y: System, c: CallId, a: CallStep, sid: SessionId)
    requires CallEnabled(y, c, a) && Installed(y, sid)
    ensures Back(y, CallAct(y, c, a), sid, Still)
  {
    hide CallAct, CallAfter, TableAfterCall, MissedAfterCall;
    CallFields(y, c, a);
  }

  lemma StepBack(y: System, a: Step, sid: SessionId)
    requires Enabled(y, a) && Installed(y, sid)
    ensures Back(y, Act(y, a), sid, MoveOf(y, a))
  {
    hide Back, Installed;
    match a
    case Server(e, s) => ServerBack(y, e, s, sid);
    case Main(p, s) => PeerBack(y, p, s, sid);
    case Writer(e, s) => WriterBack(y, e, s, sid);
    case Caller(c, s) => CallBack(y, c, s, sid);
  }

  lemma CarryingBack(y: System, z: System, sid: SessionId, m: Move)
    requires Back(y, z, sid, m) && Attentive(z.conns[sid].pc) && Carrying(z, sid)
    ensures Carrying(y, sid)
  {
    var c, d := y.conns[sid], z.conns[sid];
    forall k | 0 <= k < |c.up| ensures !c.up[k].Fatal? {
      if m == Leaves(sid) {
        if k > 0 { assert d.up[k - 1] == c.up[k]; }
      } else {
        assert d.up[k] == c.up[k];
      }
    }
  }

  /** What the steps that make these moves need. */
  predicate Movable(y: System, m: Move)
  {
    match m
    case ToWire(d) => d in y.conns && y.conns[d].accepting
    case ToInbox(d, p) => Dials(y, p, d) && y.conns[d].reader.Serving?
    case ToRefusal(d, p) => Dials(y, p, d) && y.conns[d].reader.Serving?
    case ToHand(p, d) => d in y.conns && y.conns[d].peer == p && y.conns[d].writer
    case _ => true
  }

  lemma StepMovable(y: System, a: Step)
    requires Enabled(y, a)
    ensures Movable(y, MoveOf(y, a))
  {
  }

  /** A spot that leads home after a move came from one that did. */
  lemma LeadsBack(y: System, z: System, m: Move, sid: SessionId, s: Spot)
    requires Back(y, z, sid, m) && Movable(y, m) && Here(z, s) && Leads(z, sid, s) && Here(y, Pre(y, m, s))
    requires var t := Pre(y, m, s); t.Wire? || t.Outbound? ==> t.sid == sid
    ensures Leads(y, sid, Pre(y, m, s))
  {
    if s.Up? {
      UpBack(y, z, m, sid, s.i);
    } else if s.Hand? {
      HandBack(y, z, m, sid);
    } else {
      CarryingBack(y, z, sid, m);
      hide Carrying, Harmless;
    }
  }

  lemma UpBack(y: System, z: System, m: Move, sid: SessionId, i: nat)
    requires Back(y, z, sid, m) && Here(z, Up(sid, i)) && Leads(z, sid, Up(sid, i)) && Here(y, Pre(y, m, Up(sid, i)))
    ensures Leads(y, sid, Pre(y, m, Up(sid, i)))
  {
    var c, d := y.conns[sid], z.conns[sid];
    if m == Leaves(sid) {
      assert Harmless(c.up, i + 1) by {
        forall k | 0 < k < i + 1 ensures !c.up[k].Fatal? { assert d.up[k - 1] == c.up[k]; }
      }
    } else {
      assert forall k | 0 <= k < |c.up| :: d.up[k] == c.up[k];
    }
  }

  lemma HandBack(y: System, z: System, m: Move, sid: SessionId)
    requires Back(y, z, sid, m) && Movable(y, m) && Here(z, Hand(sid)) && Leads(z, sid, Hand(sid)) && Here(y, Pre(y, m, Hand(sid)))
    ensures Leads(y, sid, Pre(y, m, Hand(sid)))
  {
    var c, d := y.conns[sid], z.conns[sid];
    assert Harmless(c.up, |c.up|) by {
      forall k | 0 <= k < |c.up| ensures !c.up[k].Fatal? {
        if m == Leaves(sid) {
          if k > 0 { assert d.up[k - 1] == c.up[k]; }
        } else {
          assert d.up[k] == c.up[k];
        }
      }
    }
  }

  lemma WayBack(y: System, a: Step, s: Spot, id: RequestId)
    requires Enabled(y, a) && (Sends(a) ==> y.calls[a.call].id != id)
    requires id in y.past.sessions && Way(Act(y, a), y.past.sessions[id], s, id) && Known(y) && OutInv(y)
    ensures OnItsWay(y, id)
  {
    hide Known, Act, Enabled, OutInv, Here, IdAt, Leads, Moves, Back, Movable, Installed, MoveOf, Pre;
    var sid := y.past.sessions[id];
    KnownInstalled(y, id);
    StepBack(y, a, sid);
    StepMovable(y, a);
    CameFrom(y, a, s, id);
    OwnWire(y, Pre(y, MoveOf(y, a), s));
    LeadsBack(y, Act(y, a), MoveOf(y, a), sid, s);
    assert Way(y, sid, Pre(y, MoveOf(y, a), s), id);
  }

  /** A request whose answer cannot come home any more stays so, unless it is sent now. */
  lemma StepOpensNoWay(y: System, a: Step, id: RequestId)
    requires Enabled(y, a) && (Sends(a) ==> y.calls[a.call].id != id)
    requires id in y.past.sessions && Known(y) && OutInv(y)
    ensures OnItsWay(Act(y, a), id) ==> OnItsWay(y, id)
  {
    hide Known, Act, Enabled, OutInv, Way, Pre, MoveOf;
    var z := Act(y, a);
    KnownSession(y, a, id);
    if OnItsWay(z, id) {
      var s :| Way(z, y.past.sessions[id], s, id);
      WayBack(y, a, s, id);
    }
  }

  lemma KnownSession(y: System, a: Step, id: RequestId)
    requires Enabled(y, a) && id in y.past.sessions && Known(y)
    ensures id in Act(y, a).past.sessions && Act(y, a).past.sessions[id] == y.past.sessions[id]
  {
    hide Act, Enabled;
    G.KnownLedger(y);
    hide Known;
    G.SessionKept(y, a, id);
  }

  lemma KnownInstalled(y: System, id: RequestId)
    requires Known(y) && id in y.past.sessions
    ensures Installed(y, y.past.sessions[id])
  {
  }

  lemma OwnWire(y: System, s: Spot)
    requires OutInv(y) && Here(y, s)
    ensures s.Outbound? || s.Wire? ==> IdAt(y, s) in y.past.sessions && y.past.sessions[IdAt(y, s)] == s.sid
  {
  }

  lemma CameFrom(y: System, a: Step, s: Spot, id: RequestId)
    requires Enabled(y, a) && Here(Act(y, a), s) && IdAt(Act(y, a), s) == id && (Sends(a) ==> y.calls[a.call].id != id)
    ensures var t := Pre(y, MoveOf(y, a), s); Here(y, t) && IdAt(y, t) == id
  {
    hide ServerAct, PeerAct, WriterAct, CallAct, Here, IdAt;
    if !Sends(a) {
      StepMoves(y, a);
    } else if y.calls[a.call].session in y.conns && y.conns[y.calls[a.call].session].accepting {
      SendShape(y, a.call);
    } else {
      SendStill(y, a.call);
    }
  }
}
