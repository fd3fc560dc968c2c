/** Answers: a request and its response are one thing on its way round, in one place; once that thing is read, refused
    for want of room or lost, nothing of the request is under way, and its channel is never answered again. */
module BridgeAnswers {
  import opened Wrappers
  import opened Pending
  import opened Bridge
  import opened BridgeFields
  import opened BridgeWaiters
  import A = AddOn
  import K = BridgeTokens
  import T = BridgeTruth
  import W = BridgeWriters

  /** Where a request, or the response to it, can be. */
  datatype Spot =
    | Outbound(sid: SessionId, i: nat)
    | Wire(sid: SessionId, i: nat)
    | Inbox(peer: PeerId, i: nat)
    | Dispatch(peer: PeerId)
    | Outbox(peer: PeerId, i: nat)
    | Hand(sid: SessionId)
    | Up(sid: SessionId, i: nat)

  ghost predicate Here(y: System, s: Spot)
  {
    match s
    case Outbound(sid, i) => sid in y.conns && i < |y.conns[sid].outbound|
    case Wire(sid, i) => sid in y.conns && i < |y.conns[sid].down|
    case Inbox(p, i) => p in y.peers && i < |y.peers[p].addon.inbox|
    case Dispatch(p) => p in y.peers && y.peers[p].addon.busy.Some?
    case Outbox(p, i) => p in y.peers && i < |y.peers[p].addon.outbox| && y.peers[p].addon.outbox[i].Response?
    case Hand(sid) => sid in y.conns && y.conns[sid].hand.Some? && y.conns[sid].hand.value.Response?
    case Up(sid, i) => sid in y.conns && i < |y.conns[sid].up| && y.conns[sid].up[i].Response?
  }

  ghost function IdAt(y: System, s: Spot): RequestId
    requires Here(y, s)
  {
    match s
    case Outbound(sid, i) => y.conns[sid].outbound[i].id
    case Wire(sid, i) => y.conns[sid].down[i].id
    case Inbox(p, i) => y.peers[p].addon.inbox[i].id
    case Dispatch(p) => y.peers[p].addon.busy.value.id
    case Outbox(p, i) => y.peers[p].addon.outbox[i].id
    case Hand(sid) => y.conns[sid].hand.value.id
    case Up(sid, i) => y.conns[sid].up[i].id
  }

  /** Nothing of this request is under way. */
  ghost predicate Over(y: System, id: RequestId)
  {
    forall s | Here(y, s) :: IdAt(y, s) != id
  }

  ghost predicate OneSpot(y: System)
  {
    forall s, t | Here(y, s) && Here(y, t) && IdAt(y, s) == IdAt(y, t) :: s == t
  }

  predicate WasAnswered(y: System, id: RequestId)
  {
    id in y.pending.cells && y.pending.cells[id].Sent? && y.pending.cells[id].outcome.Answered?
  }

  /** A writer lost the response to this request. */
  ghost predicate AnswerLost(y: System, id: RequestId)
  {
    exists k :: LosesAnswer(y, k, id)
  }

  predicate LosesAnswer(y: System, k: nat, id: RequestId)
  {
    && k < |y.past.pulls| && y.past.pulls[k].fate.Gone?
    && y.past.pulls[k].frame.Response? && y.past.pulls[k].frame.id == id
  }

  ghost predicate SpotInv(y: System)
  {
    && OneSpot(y)
    && (forall s | Here(y, s) :: IdAt(y, s) in y.sent)
    && (forall sid, id | HoldsStray(y, sid, id) :: id in y.sent && Over(y, id))
    && (forall id | id in y.missed :: id in y.sent && Over(y, id))
    && (forall id | WasAnswered(y, id) :: id in y.sent && Over(y, id))
    && (forall id | AnswerLost(y, id) :: id in y.sent && Over(y, id))
  }

  /** A request whose cancel missed it belongs to no live call, and is at most ever told that the connection is lost;
      one whose answer was lost is never told an answer. */
  ghost predicate ToldInv(y: System)
  {
    && (forall c | c in y.calls && Live(y.calls[c]) :: y.calls[c].id !in y.missed)
    && (forall id | id in y.missed ::
          id in y.pending.cells && (y.pending.cells[id].Waiting? || y.pending.cells[id] == Sent(ConnectionLost)))
    && (forall id | AnswerLost(y, id) :: !WasAnswered(y, id))
  }

  ghost predicate AnswerInv(y: System)
  {
    SpotInv(y) && ToldInv(y)
  }

  // ---------------------------------------------------------------------------
  // One thing moves one spot on
  // ---------------------------------------------------------------------------

  datatype Move =
    | Still
    | ToWire(sid: SessionId)
    | ToInbox(sid: SessionId, peer: PeerId)
    | ToRefusal(sid: SessionId, peer: PeerId)
    | ToDispatch(peer: PeerId)
    | ToOutbox(peer: PeerId)
    | ToHand(peer: PeerId, sid: SessionId)
    | ToUp(sid: SessionId)
    | Leaves(sid: SessionId)

  /** Where what is now at `s` was before the move. */
  ghost function Pre(y: System, m: Move, s: Spot): Spot
  {
    match m
    case Still => s
    case ToWire(sid) =>
      if sid in y.conns && s == Wire(sid, |y.conns[sid].down|) then Outbound(sid, 0)
      else if s.Outbound? && s.sid == sid then Outbound(sid, s.i + 1) else s
    case ToInbox(sid, p) =>
      if p in y.peers && s == Inbox(p, |y.peers[p].addon.inbox|) then Wire(sid, 0)
      else if s.Wire? && s.sid == sid then Wire(sid, s.i + 1) else s
    case ToRefusal(sid, p) =>
      if p in y.peers && s == Outbox(p, |y.peers[p].addon.outbox|) then Wire(sid, 0)
      else if s.Wire? && s.sid == sid then Wire(sid, s.i + 1) else s
    case ToDispatch(p) =>
      if s == Dispatch(p) then Inbox(p, 0) else if s.Inbox? && s.peer == p then Inbox(p, s.i + 1) else s
    case ToOutbox(p) => if p in y.peers && s == Outbox(p, |y.peers[p].addon.outbox|) then Dispatch(p) else s
    case ToHand(p, sid) =>
      if s == Hand(sid) then Outbox(p, 0) else if s.Outbox? && s.peer == p then Outbox(p, s.i + 1) else s
    case ToUp(sid) => if sid in y.conns && s == Up(sid, |y.conns[sid].up|) then Hand(sid) else s
    case Leaves(sid) => if s.Up? && s.sid == sid then Up(sid, s.i + 1) else s
  }

  ghost predicate Moves(y: System, z: System, m: Move)
  {
    && (forall s | Here(z, s) :: Here(y, Pre(y, m, s)) && IdAt(z, s) == IdAt(y, Pre(y, m, s)))
    && (m.ToOutbox? ==> !Here(z, Dispatch(m.peer)))
    && (m.ToUp? ==> !Here(z, Hand(m.sid)))
  }

  lemma PreInjective(y: System, m: Move, s: Spot, t: Spot)
    requires m.ToOutbox? ==> s != Dispatch(m.peer) && t != Dispatch(m.peer)
    requires m.ToUp? ==> s != Hand(m.sid) && t != Hand(m.sid)
    requires Pre(y, m, s) == Pre(y, m, t)
    ensures s == t
  {
  }

  lemma MovesKeepOne(y: System, z: System, m: Move)
    requires OneSpot(y) && Moves(y, z, m)
    ensures OneSpot(z)
  {
    forall s, t | Here(z, s) && Here(z, t) && IdAt(z, s) == IdAt(z, t) ensures s == t {
      assert Here(y, Pre(y, m, s)) && Here(y, Pre(y, m, t));
      PreInjective(y, m, s, t);
    }
  }

  lemma OverStays(y: System, z: System, m: Move, id: RequestId)
    requires Over(y, id) && Moves(y, z, m)
    ensures Over(z, id)
  {
  }

  /** The frame read was all there was of its request. */
  lemma ReadIsOver(y: System, z: System, sid: SessionId)
    requires OneSpot(y) && Here(y, Up(sid, 0)) && Moves(y, z, Leaves(sid))
    ensures Over(z, IdAt(y, Up(sid, 0)))
  {
    forall s | Here(z, s) ensures IdAt(z, s) != IdAt(y, Up(sid, 0)) {
      assert Here(y, Pre(y, Leaves(sid), s)) && Pre(y, Leaves(sid), s) != Up(sid, 0);
    }
  }

  /** What came to be held, missed, answered or lost by this step is in `done`. */
  ghost predicate EndsOnly(y: System, z: System, done: set<RequestId>)
  {
    && (forall sid, id | HoldsStray(z, sid, id) :: HoldsStray(y, sid, id) || id in done)
    && (forall id | id in z.missed :: id in y.missed || id in done)
    && (forall id | WasAnswered(z, id) :: WasAnswered(y, id) || id in done)
    && (forall id | AnswerLost(z, id) :: AnswerLost(y, id) || id in done)
    && (forall id | id in y.sent :: id in z.sent)
  }

  lemma SpotsKeep(y: System, z: System, m: Move, done: set<RequestId>)
    requires SpotInv(y) && Moves(y, z, m) && EndsOnly(y, z, done) && forall id | id in done :: id in y.sent && Over(z, id)
    ensures SpotInv(z)
  {
    MovesKeepOne(y, z, m);
    forall id | Over(y, id) ensures Over(z, id) { OverStays(y, z, m, id); }
  }

  /** Nothing is told, cancelled or lost but what was under way. */
  ghost predicate TellsOnly(y: System, z: System)
  {
    && (forall c | c in z.calls && Live(z.calls[c]) :: z.calls[c].id !in z.missed)
    && (forall id | id in z.missed ::
          && id in z.pending.cells
          && (z.pending.cells[id].Waiting? || z.pending.cells[id] == Sent(ConnectionLost)))
    && (forall id | AnswerLost(z, id) && WasAnswered(z, id) :: AnswerLost(y, id) && WasAnswered(y, id))
  }

  lemma ToldKeep(y: System, z: System)
    requires ToldInv(y) && TellsOnly(y, z)
    ensures ToldInv(z)
  {
  }

  /** The usual case: nobody is told anything new but that a connection is lost. */
  ghost predicate TellsNobody(y: System, z: System)
  {
    && z.missed == y.missed && z.calls == y.calls && y.pending.cells.Keys <= z.pending.cells.Keys
    && (forall id | id in y.pending.cells ::
          z.pending.cells[id] == y.pending.cells[id] || z.pending.cells[id] == Sent(ConnectionLost))
    && (forall id | WasAnswered(z, id) :: WasAnswered(y, id))
    && (forall sid, id | HoldsStray(z, sid, id) :: HoldsStray(y, sid, id))
    && z.sent == y.sent
  }

  lemma SilentKeeps(y: System, z: System, m: Move)
    requires AnswerInv(y) && Moves(y, z, m) && TellsNobody(y, z) && forall id | AnswerLost(z, id) :: AnswerLost(y, id)
    ensures AnswerInv(z)
  {
    SpotsKeep(y, z, m, {});
    ToldKeep(y, z);
  }

  // ---------------------------------------------------------------------------
  // The server
  // ---------------------------------------------------------------------------

  lemma SameLosses(y: System, z: System)
    requires z.past.pulls == y.past.pulls
    ensures forall id | AnswerLost(z, id) :: AnswerLost(y, id)
  {
    forall id | AnswerLost(z, id) ensures AnswerLost(y, id) {
      var k: nat :| LosesAnswer(z, k, id);
      assert LosesAnswer(y, k, id);
    }
  }

  lemma TransmitMoves(y: System, sid: SessionId)
    requires ServerEnabled(y, sid, Transmit)
    ensures Moves(y, ServerAct(y, sid, Transmit), ToWire(sid))
  {
    hide ServerAct;
    ServerFields(y, sid, Transmit);
  }

  lemma ServerStill(y: System, sid: SessionId, a: ServerStep)
    requires ServerEnabled(y, sid, a) && !a.ReadFrame? && !a.Transmit?
    ensures Moves(y, ServerAct(y, sid, a), Still)
  {
    T.ServerShrinks(y, sid, a);
    K.ServerTouchesOne(y, sid, a);
    hide ServerAct;
  }

  lemma ServerSilent(y: System, sid: SessionId, a: ServerStep)
    requires ServerEnabled(y, sid, a) && !a.ReadFrame?
    requires a.FailPrevious? || a.FailOwn? ==> forall id | id in y.pending.entries :: id in y.pending.cells
    ensures TellsNobody(y, ServerAct(y, sid, a)) && ServerAct(y, sid, a).past.pulls == y.past.pulls
  {
    hide ServerAct, Taken, W.Arrival, T.FramesShrink;
    T.ServerShrinks(y, sid, a);
    T.ServerFrames(y, sid, a);
    W.ServerConn(y, sid, a);
    ServerMissed(y, sid, a);
  }

  lemma ServerMissed(y: System, sid: SessionId, a: ServerStep)
    requires ServerEnabled(y, sid, a)
    ensures ServerAct(y, sid, a).missed == y.missed
  {
    hide ServerAct;
    ServerFields(y, sid, a);
  }

  lemma PopMoves(y: System, sid: SessionId)
    requires ServerEnabled(y, sid, ReadFrame)
    ensures Moves(y, ServerAct(y, sid, ReadFrame), Leaves(sid))
  {
    W.ReadShape(y, sid);
    hide ServerAct;
  }

  lemma ReadTells(y: System, sid: SessionId)
    requires ServerEnabled(y, sid, ReadFrame)
    ensures var z := ServerAct(y, sid, ReadFrame);
            var f := y.conns[sid].up[0];
            && z.pending == PendingAfter(y.pending, sid, f) && z.missed == y.missed && z.calls == y.calls && z.sent == y.sent
            && z.past == y.past
            && (forall d, id | HoldsStray(z, d, id) :: HoldsStray(y, d, id) || (f.Response? && id == f.id))
  {
    var c := y.conns[sid];
    var x := SetConn(y, sid, c.(up := c.up[1..]));
    T.HandlingTouchesOne(x, sid, c.up[0]);
    HandlingTells(x, sid, c.up[0]);
    hide HandleFrame;
  }

  lemma HandlingTells(y: System, sid: SessionId, f: A.Frame)
    requires sid in y.conns
    ensures var z := HandleFrame(y, sid, f);
            && z.pending == PendingAfter(y.pending, sid, f) && z.missed == y.missed && z.calls == y.calls && z.sent == y.sent
            && z.past == y.past
  {
  }

  /** Reading a response ends what is under way of its request: its entry is held, its channel answered, or nothing. */
  lemma ReadKeeps(y: System, sid: SessionId)
    requires WaiterInv(y) && AnswerInv(y) && ServerEnabled(y, sid, ReadFrame)
    ensures AnswerInv(ServerAct(y, sid, ReadFrame))
  {
    hide ServerAct, Moves, SpotInv, ToldInv, WaiterInv;
    var z := ServerAct(y, sid, ReadFrame);
    var f := y.conns[sid].up[0];
    PopMoves(y, sid);
    ReadTells(y, sid);
    SameLosses(y, z);
    ReadKeepsSpots(y, z, sid, f);
    if f.Response? {
      assert Here(y, Up(sid, 0)) && IdAt(y, Up(sid, 0)) == f.id;
      UnderWayIsNew(y, Up(sid, 0));
    }
    ReadKeepsTold(y, z, sid, f);
  }

  lemma UnderWayIsNew(y: System, s: Spot)
    requires SpotInv(y) && Here(y, s)
    ensures IdAt(y, s) in y.sent && IdAt(y, s) !in y.missed && !AnswerLost(y, IdAt(y, s)) && !WasAnswered(y, IdAt(y, s))
  {
  }

  /** What the task does with the frame it read. */
  ghost predicate ReadBy(y: System, z: System, sid: SessionId, f: A.Frame)
  {
    && z.pending == PendingAfter(y.pending, sid, f) && z.missed == y.missed && z.calls == y.calls && z.sent == y.sent
    && (forall d, id | HoldsStray(z, d, id) :: HoldsStray(y, d, id) || (f.Response? && id == f.id))
    && (forall id | AnswerLost(z, id) :: AnswerLost(y, id))
  }

  lemma ReadKeepsSpots(y: System, z: System, sid: SessionId, f: A.Frame)
    requires SpotInv(y) && sid in y.conns && y.conns[sid].up != [] && y.conns[sid].up[0] == f
    requires Moves(y, z, Leaves(sid)) && ReadBy(y, z, sid, f)
    ensures SpotInv(z)
  {
    hide Moves, AnswerLost, Over, OneSpot;
    if f.Response? {
      assert Here(y, Up(sid, 0)) && IdAt(y, Up(sid, 0)) == f.id;
      ReadIsOver(y, z, sid);
      SpotsKeep(y, z, Leaves(sid), {f.id});
    } else {
      SpotsKeep(y, z, Leaves(sid), {});
    }
  }

  lemma ReadKeepsTold(y: System, z: System, sid: SessionId, f: A.Frame)
    requires WaiterInv(y) && ToldInv(y) && ReadBy(y, z, sid, f)
    requires f.Response? ==> f.id !in y.missed && !AnswerLost(y, f.id)
    ensures ToldInv(z)
  {
    hide AnswerLost;
    ToldKeep(y, z);
  }

  lemma ServerKeepsAnswers(y: System, sid: SessionId, a: ServerStep)
    requires WaiterInv(y) && AnswerInv(y) && ServerEnabled(y, sid, a)
    ensures AnswerInv(ServerAct(y, sid, a))
  {
    var z := ServerAct(y, sid, a);
    hide ServerAct, AnswerInv;
    if a.ReadFrame? {
      ReadKeeps(y, sid);
    } else {
      ServerSilent(y, sid, a);
      SameLosses(y, z);
      if a.Transmit? {
        TransmitMoves(y, sid);
        SilentKeeps(y, z, ToWire(sid));
      } else {
        ServerStill(y, sid, a);
        SilentKeeps(y, z, Still);
      }
    }
  }

  // ---------------------------------------------------------------------------
  // The add-ons
  // ---------------------------------------------------------------------------

  ghost function PeerMove(y: System, p: PeerId, a: PeerStep): Move
    requires PeerEnabled(y, p, a)
  {
    match a
    case ReadRequest(sid) => if |y.peers[p].addon.inbox| < A.INBOX_MAX then ToInbox(sid, p) else ToRefusal(sid, p)
    case TakeRequest => ToDispatch(p)
    case Finish(_) => ToOutbox(p)
    case _ => Still
  }

  lemma ReadRequestMoves(y: System, p: PeerId, sid: SessionId)
    requires PeerEnabled(y, p, ReadRequest(sid))
    ensures Moves(y, PeerAct(y, p, ReadRequest(sid)), PeerMove(y, p, ReadRequest(sid)))
  {
    hide PeerAct, A.ReadRequest;
    ReadRequestShape(y, p, sid);
    ReadShape(y.peers[p].addon, y.conns[sid].down[0]);
    if |y.peers[p].addon.inbox| < A.INBOX_MAX {
      AcceptedMoves(y, PeerAct(y, p, ReadRequest(sid)), p, sid);
    } else {
      RefusedMoves(y, PeerAct(y, p, ReadRequest(sid)), p, sid);
    }
  }

  /** The request at the head of the wire has been read. */
  ghost predicate OffTheWire(y: System, z: System, p: PeerId, sid: SessionId)
  {
    && sid in y.conns && y.conns[sid].down != []
    && z.conns == y.conns[sid := y.conns[sid].(down := y.conns[sid].down[1..])]
    && p in y.peers && p in z.peers && z.peers == y.peers[p := z.peers[p]]
    && z.peers[p].addon.busy == y.peers[p].addon.busy
  }

  lemma AcceptedMoves(y: System, z: System, p: PeerId, sid: SessionId)
    requires OffTheWire(y, z, p, sid) && z.peers[p].addon.outbox == y.peers[p].addon.outbox
    requires z.peers[p].addon.inbox == y.peers[p].addon.inbox + [y.conns[sid].down[0]]
    ensures Moves(y, z, ToInbox(sid, p))
  {
  }

  lemma RefusedMoves(y: System, z: System, p: PeerId, sid: SessionId)
    requires OffTheWire(y, z, p, sid) && z.peers[p].addon.inbox == y.peers[p].addon.inbox
    requires z.peers[p].addon.outbox == y.peers[p].addon.outbox
          || z.peers[p].addon.outbox == y.peers[p].addon.outbox + [A.Response(y.conns[sid].down[0].id, Err(RATE_LIMITED))]
    ensures Moves(y, z, ToRefusal(sid, p))
  {
    hide Moves;
    if z.peers[p].addon.outbox == y.peers[p].addon.outbox {
      SilentlyRefused(y, z, p, sid);
    } else {
      AnsweredRefused(y, z, p, sid);
    }
  }

  lemma AnsweredRefused(y: System, z: System, p: PeerId, sid: SessionId)
    requires OffTheWire(y, z, p, sid) && z.peers[p].addon.inbox == y.peers[p].addon.inbox
    requires z.peers[p].addon.outbox == y.peers[p].addon.outbox + [A.Response(y.conns[sid].down[0].id, Err(RATE_LIMITED))]
    ensures Moves(y, z, ToRefusal(sid, p))
  {
    hide Here, IdAt, Pre, OffTheWire;
    forall s | Here(z, s)
      ensures Here(y, Pre(y, ToRefusal(sid, p), s)) && IdAt(z, s) == IdAt(y, Pre(y, ToRefusal(sid, p), s))
    {
      AnsweredAt(y, z, p, sid, s);
    }
  }

  lemma AnsweredAt(y: System, z: System, p: PeerId, sid: SessionId, s: Spot)
    requires OffTheWire(y, z, p, sid) && z.peers[p].addon.inbox == y.peers[p].addon.inbox && Here(z, s)
    requires z.peers[p].addon.outbox == y.peers[p].addon.outbox + [A.Response(y.conns[sid].down[0].id, Err(RATE_LIMITED))]
    ensures Here(y, Pre(y, ToRefusal(sid, p), s)) && IdAt(z, s) == IdAt(y, Pre(y, ToRefusal(sid, p), s))
  {
  }

  lemma SilentlyRefused(y: System, z: System, p: PeerId, sid: SessionId)
    requires OffTheWire(y, z, p, sid) && z.peers[p].addon.inbox == y.peers[p].addon.inbox
    requires z.peers[p].addon.outbox == y.peers[p].addon.outbox
    ensures Moves(y, z, ToRefusal(sid, p))
  {
  }

  lemma ReadRequestShape(y: System, p: PeerId, sid: SessionId)
    requires PeerEnabled(y, p, ReadRequest(sid))
    ensures var z := PeerAct(y, p, ReadRequest(sid));
            && z.conns == y.conns[sid := y.conns[sid].(down := y.conns[sid].down[1..])]
            && z.peers == y.peers[p := y.peers[p].(addon := A.ReadRequest(y.peers[p].addon, y.conns[sid].down[0]))]
  {
    hide A.ReadRequest;
  }

  lemma ReadShape(s: A.State, r: A.Request)
    ensures var t := A.ReadRequest(s, r);
            && t.busy == s.busy
            && (|s.inbox| < A.INBOX_MAX ==> t.inbox == s.inbox + [r] && t.outbox == s.outbox)
            && (|s.inbox| >= A.INBOX_MAX ==>
                  && t.inbox == s.inbox
                  && (t.outbox == s.outbox || t.outbox == s.outbox + [A.Response(r.id, Err(RATE_LIMITED))]))
  {
  }

  lemma TakeRequestMoves(y: System, p: PeerId)
    requires PeerEnabled(y, p, TakeRequest)
    ensures Moves(y, PeerAct(y, p, TakeRequest), ToDispatch(p))
  {
    var z := PeerAct(y, p, TakeRequest);
    assert z.conns == y.conns;
    assert z.peers == y.peers[p := y.peers[p].(addon := A.TakeRequest(y.peers[p].addon))];
  }

  lemma FinishMoves(y: System, p: PeerId, body: Body)
    requires PeerEnabled(y, p, Finish(body))
    ensures Moves(y, PeerAct(y, p, Finish(body)), ToOutbox(p))
  {
    hide PeerAct, A.Answer;
    PeerFields(y, p, Finish(body));
    AnswerShape(y.peers[p].addon, body);
  }

  lemma AnswerShape(s: A.State, body: Body)
    requires s.busy.Some?
    ensures var t := A.Answer(s, body);
            && t.busy.None? && t.inbox == s.inbox
            && (t.outbox == s.outbox || t.outbox == s.outbox + [A.Response(s.busy.value.id, body)])
  {
  }

  lemma PeerStill(y: System, p: PeerId, a: PeerStep)
    requires PeerEnabled(y, p, a) && !a.ReadRequest? && !a.TakeRequest? && !a.Finish?
    ensures Moves(y, PeerAct(y, p, a), Still)
  {
    hide PeerAct, Here, IdAt;
    PeerQueues(y, p, a);
    PeerConnQueues(y, p, a);
    var z := PeerAct(y, p, a);
    forall s | Here(z, s) ensures Here(y, s) && IdAt(z, s) == IdAt(y, s) {
      if s.Inbox? || s.Dispatch? || s.Outbox? { StillInAddOn(y, z, p, s); } else { StillOnConn(y, z, s); }
    }
  }

  lemma StillInAddOn(y: System, z: System, p: PeerId, s: Spot)
    requires (s.Inbox? || s.Dispatch? || s.Outbox?) && Here(z, s)
    requires p in y.peers && p in z.peers && z.peers == y.peers[p := z.peers[p]]
    requires var was, now := y.peers[p].addon, z.peers[p].addon;
             && now.busy == was.busy && (now.inbox == was.inbox || now.inbox == [])
             && (now.outbox == was.outbox || now.outbox == []
                 || exists f: A.Frame :: !f.Response? && now.outbox == was.outbox + [f])
    ensures Here(y, s) && IdAt(z, s) == IdAt(y, s)
  {
  }

  lemma StillOnConn(y: System, z: System, s: Spot)
    requires (s.Outbound? || s.Wire? || s.Hand? || s.Up?) && Here(z, s) && z.conns.Keys == y.conns.Keys
    requires forall d | d in y.conns ::
               && z.conns[d].outbound == y.conns[d].outbound && z.conns[d].down == y.conns[d].down
               && z.conns[d].hand == y.conns[d].hand && z.conns[d].up == y.conns[d].up
    ensures Here(y, s) && IdAt(z, s) == IdAt(y, s)
  {
  }

  lemma PeerQueues(y: System, p: PeerId, a: PeerStep)
    requires PeerEnabled(y, p, a) && !a.ReadRequest? && !a.TakeRequest? && !a.Finish?
    ensures var z := PeerAct(y, p, a);
            && p in z.peers && z.peers == y.peers[p := z.peers[p]]
            && var s, t := y.peers[p].addon, z.peers[p].addon;
               && t.busy == s.busy && (t.inbox == s.inbox || t.inbox == [])
               && (t.outbox == s.outbox || t.outbox == []
                   || exists f: A.Frame :: !f.Response? && t.outbox == s.outbox + [f])
  {
    hide PeerAct, ConnsAfterPeer, RunsAfterPeer, EmittedAfterPeer;
    PeerFields(y, p, a);
    var s := y.peers[p].addon;
    var t := AddonAfterPeer(y, p, a);
    if a.Emit? && s.session.Some? {
      var f := A.Event(s.session.value, s.revision, a.payload);
      assert t.outbox == s.outbox || t.outbox == s.outbox + [f];
    }
    if a.ReportFatal? {
      assert t.outbox == s.outbox || t.outbox == s.outbox + [A.Fatal];
    }
  }

  lemma PeerConnQueues(y: System, p: PeerId, a: PeerStep)
    requires PeerEnabled(y, p, a) && !a.ReadRequest?
    ensures var z := PeerAct(y, p, a);
            && z.conns.Keys == y.conns.Keys
            && forall d | d in y.conns ::
                 && z.conns[d].outbound == y.conns[d].outbound && z.conns[d].down == y.conns[d].down
                 && z.conns[d].hand == y.conns[d].hand && z.conns[d].up == y.conns[d].up
  {
    hide PeerAct;
    PeerFields(y, p, a);
  }

  lemma PeerSilent(y: System, p: PeerId, a: PeerStep)
    requires PeerEnabled(y, p, a)
    ensures TellsNobody(y, PeerAct(y, p, a)) && PeerAct(y, p, a).past == y.past
  {
    PeerIsQuiet(y, p, a);
    T.PeerConns(y, p, a);
    W.PeerConnsRest(y, p, a);
    hide PeerAct;
  }

  lemma PeerKeepsAnswers(y: System, p: PeerId, a: PeerStep)
    requires AnswerInv(y) && PeerEnabled(y, p, a)
    ensures AnswerInv(PeerAct(y, p, a))
  {
    var z := PeerAct(y, p, a);
    hide PeerAct, AnswerInv;
    PeerSilent(y, p, a);
    SameLosses(y, z);
    match a
    case ReadRequest(sid) => ReadRequestMoves(y, p, sid); SilentKeeps(y, z, PeerMove(y, p, a));
    case TakeRequest => TakeRequestMoves(y, p); SilentKeeps(y, z, ToDispatch(p));
    case Finish(body) => FinishMoves(y, p, body); SilentKeeps(y, z, ToOutbox(p));
    case _ => PeerStill(y, p, a); SilentKeeps(y, z, Still);
  }

  // ---------------------------------------------------------------------------
  // Writer threads
  // ---------------------------------------------------------------------------

  lemma TakeFrameMoves(y: System, sid: SessionId)
    requires WriterEnabled(y, sid, TakeFrame)
    ensures Moves(y, WriterAct(y, sid, TakeFrame), ToHand(y.conns[sid].peer, sid))
  {
    hide WriterAct, PastAfterWriter;
    WriterFields(y, sid, TakeFrame);
  }

  lemma SettleMoves(y: System, sid: SessionId, a: WriterStep)
    requires WriterEnabled(y, sid, a) && !a.TakeFrame? && !a.Shut?
    ensures Moves(y, WriterAct(y, sid, a), if a.Die? then Still else ToUp(sid))
    ensures a.Die? ==> !Here(WriterAct(y, sid, a), Hand(sid))
  {
    W.SettleShape(y, sid, a);
    SettleQueues(y, sid, a);
    hide WriterAct;
    SettledMoves(y, WriterAct(y, sid, a), sid, a.Die?);
  }

  /** What was in hand goes up, or an answer to the same request in its place, or nothing. */
  ghost predicate GoesUp(was: Conn, now: Conn)
  {
    was.hand.Some? && (now.up == was.up || exists f :: GoesUpAs(was, now, f))
  }

  predicate GoesUpAs(was: Conn, now: Conn, f: A.Frame)
    requires was.hand.Some?
  {
    now.up == was.up + [f] && if was.hand.value.Response? then f.Response? && f.id == was.hand.value.id else !f.Response?
  }

  lemma SettleQueues(y: System, sid: SessionId, a: WriterStep)
    requires WriterEnabled(y, sid, a) && !a.TakeFrame? && !a.Shut?
    ensures var c, d := y.conns[sid], WriterAct(y, sid, a).conns[sid];
            d.outbound == c.outbound && d.down == c.down
    ensures var c, d := y.conns[sid], WriterAct(y, sid, a).conns[sid];
            && (a.Die? ==> d.up == c.up)
            && (!a.Die? ==> GoesUp(c, d))
  {
    var c, d := y.conns[sid], WriterAct(y, sid, a).conns[sid];
    if a.WriteFrame? {
      assert GoesUpAs(c, d, c.hand.value);
    } else if a.WriteTooLarge? && c.hand.value.Response? {
      assert GoesUpAs(c, d, A.Response(c.hand.value.id, Err(MESSAGE_TOO_LARGE)));
    }
  }

  lemma SettledMoves(y: System, z: System, sid: SessionId, died: bool)
    requires sid in y.conns && z.peers == y.peers && z.conns.Keys == y.conns.Keys
    requires forall d | d in y.conns && d != sid :: z.conns[d] == y.conns[d]
    requires z.conns[sid].outbound == y.conns[sid].outbound && z.conns[sid].down == y.conns[sid].down
    requires z.conns[sid].hand.None?
    requires died ==> z.conns[sid].up == y.conns[sid].up
    requires !died ==> GoesUp(y.conns[sid], z.conns[sid])
    ensures Moves(y, z, if died then Still else ToUp(sid)) && !Here(z, Hand(sid))
  {
    var was, now := y.conns[sid], z.conns[sid];
    if now.up == was.up {
      Lapses(y, z, sid, if died then Still else ToUp(sid));
    } else {
      var f :| GoesUpAs(was, now, f);
      RisesAs(y, z, sid, f);
    }
  }

  lemma Lapses(y: System, z: System, sid: SessionId, m: Move)
    requires sid in y.conns && z.peers == y.peers && z.conns.Keys == y.conns.Keys
    requires forall d | d in y.conns && d != sid :: z.conns[d] == y.conns[d]
    requires z.conns[sid].outbound == y.conns[sid].outbound && z.conns[sid].down == y.conns[sid].down
    requires z.conns[sid].hand.None? && z.conns[sid].up == y.conns[sid].up && (m.Still? || m == ToUp(sid))
    ensures Moves(y, z, m)
  {
    hide Here, IdAt;
    forall s | Here(z, s) ensures Here(y, s) && IdAt(z, s) == IdAt(y, s) && Pre(y, m, s) == s && s != Hand(sid) {
      LapsesAt(y, z, sid, s);
    }
  }

  lemma LapsesAt(y: System, z: System, sid: SessionId, s: Spot)
    requires sid in y.conns && z.peers == y.peers && z.conns.Keys == y.conns.Keys && Here(z, s)
    requires forall d | d in y.conns && d != sid :: z.conns[d] == y.conns[d]
    requires z.conns[sid].outbound == y.conns[sid].outbound && z.conns[sid].down == y.conns[sid].down
    requires z.conns[sid].hand.None? && z.conns[sid].up == y.conns[sid].up
    ensures Here(y, s) && IdAt(z, s) == IdAt(y, s) && s != Hand(sid)
    ensures s.Up? && s.sid == sid ==> s.i < |y.conns[sid].up|
  {
  }

  lemma RisesAs(y: System, z: System, sid: SessionId, f: A.Frame)
    requires sid in y.conns && z.peers == y.peers && z.conns.Keys == y.conns.Keys
    requires forall d | d in y.conns && d != sid :: z.conns[d] == y.conns[d]
    requires z.conns[sid].outbound == y.conns[sid].outbound && z.conns[sid].down == y.conns[sid].down
    requires y.conns[sid].hand.Some? && z.conns[sid].hand.None? && GoesUpAs(y.conns[sid], z.conns[sid], f)
    ensures Moves(y, z, ToUp(sid))
  {
  }

  lemma ShutMoves(y: System, sid: SessionId)
    requires WriterEnabled(y, sid, Shut)
    ensures Moves(y, WriterAct(y, sid, Shut), Still)
  {
    hide WriterAct;
    WriterFields(y, sid, Shut);
  }

  lemma WriterSilent(y: System, sid: SessionId, a: WriterStep)
    requires WriterEnabled(y, sid, a)
    ensures TellsNobody(y, WriterAct(y, sid, a))
  {
    WriterIsQuiet(y, sid, a);
  }

  lemma SettledLosses(y: System, z: System, sid: SessionId, fate: Fate)
    requires W.HandsInv(y) && z.past.pulls == Fated(y.past.pulls, sid, fate)
    ensures forall id | AnswerLost(z, id) :: AnswerLost(y, id) || (fate.Gone? && Here(y, Hand(sid)) && IdAt(y, Hand(sid)) == id)
  {
    forall id | AnswerLost(z, id)
      ensures AnswerLost(y, id) || (fate.Gone? && Here(y, Hand(sid)) && IdAt(y, Hand(sid)) == id)
    {
      var k: nat :| LosesAnswer(z, k, id);
      if y.past.pulls[k].fate.Gone? { assert LosesAnswer(y, k, id); }
    }
  }

  lemma TakenLosses(y: System, z: System, pull: Pull)
    requires z.past.pulls == y.past.pulls + [pull] && pull.fate.InHand?
    ensures forall id | AnswerLost(z, id) :: AnswerLost(y, id)
  {
    forall id | AnswerLost(z, id) ensures AnswerLost(y, id) {
      var k: nat :| LosesAnswer(z, k, id);
      assert LosesAnswer(y, k, id);
    }
  }

  /** A response lost in a dying writer's hand was all there was of its request. */
  lemma DieKeeps(y: System, sid: SessionId)
    requires W.HandsInv(y) && AnswerInv(y) && WriterEnabled(y, sid, Die)
    ensures AnswerInv(WriterAct(y, sid, Die))
  {
    var z := WriterAct(y, sid, Die);
    W.SettleShape(y, sid, Die);
    WriterSilent(y, sid, Die);
    SettleMoves(y, sid, Die);
    SettledLosses(y, z, sid, Gone);
    hide WriterAct, W.HandsInv;
    if Here(y, Hand(sid)) {
      var id := IdAt(y, Hand(sid));
      forall s | Here(z, s) ensures IdAt(z, s) != id {
        assert Here(y, s) && s != Hand(sid);
      }
      SpotsKeep(y, z, Still, {id});
      assert !WasAnswered(y, id);
      ToldKeep(y, z);
    } else {
      SilentKeeps(y, z, Still);
    }
  }

  lemma WriterKeepsAnswers(y: System, sid: SessionId, a: WriterStep)
    requires W.HandsInv(y) && AnswerInv(y) && WriterEnabled(y, sid, a)
    ensures AnswerInv(WriterAct(y, sid, a))
  {
    var z := WriterAct(y, sid, a);
    hide WriterAct, AnswerInv, W.HandsInv;
    WriterSilent(y, sid, a);
    match a
    case TakeFrame =>
      W.PullShape(y, sid);
      TakenLosses(y, z, z.past.pulls[|y.past.pulls|]);
      TakeFrameMoves(y, sid);
      SilentKeeps(y, z, ToHand(y.conns[sid].peer, sid));
    case Die => DieKeeps(y, sid);
    case Shut =>
      W.ShutRests(y, sid);
      SameLosses(y, z);
      ShutMoves(y, sid);
      SilentKeeps(y, z, Still);
    case _ =>
      W.SettleShape(y, sid, a);
      SettledLosses(y, z, sid, W.FateOf(a));
      SettleMoves(y, sid, a);
      SilentKeeps(y, z, ToUp(sid));
  }

  // ---------------------------------------------------------------------------
  // Callers
  // ---------------------------------------------------------------------------

  lemma CallStill(y: System, c: CallId, a: CallStep)
    requires CallEnabled(y, c, a) && !a.Send?
    ensures Moves(y, CallAct(y, c, a), Still)
  {
    K.CallStaysPut(y, c, a);
    hide CallAct;
  }

  lemma CallTells(y: System, c: CallId, a: CallStep)
    requires CallEnabled(y, c, a)
    ensures var z := CallAct(y, c, a);
            && z.past.pulls == y.past.pulls && (forall id | WasAnswered(z, id) :: WasAnswered(y, id))
            && (forall id | id in y.sent :: id in z.sent)
            && z.missed == (if a.CancelExpired? && Held(y, y.calls[c].id) then y.missed + {y.calls[c].id} else y.missed)
            && (forall d | d in z.calls && Live(z.calls[d]) ::
                  (d in y.calls && Live(y.calls[d]) && z.calls[d].id == y.calls[d].id)
                  || (a.Register? && d == c && z.calls[d].id == a.id))
            && (a.CancelExpired? ==> z.calls[c].Done?)
  {
    hide CallAct;
    CallFields(y, c, a);
  }

  lemma CallCells(y: System, c: CallId, a: CallStep, id: RequestId)
    requires CallEnabled(y, c, a) && id in y.pending.cells
    ensures var z := CallAct(y, c, a);
            && id in z.pending.cells
            && (z.pending.cells[id] == y.pending.cells[id]
                || (id in y.pending.entries && Live(y.calls[c]) && y.calls[c].id == id && z.calls[c].Done?))
  {
    hide CallAct;
    CallFields(y, c, a);
  }

  lemma CallToldInv(y: System, c: CallId, a: CallStep)
    requires WaiterInv(y) && ToldInv(y) && CallEnabled(y, c, a)
    ensures ToldInv(CallAct(y, c, a))
  {
    var z := CallAct(y, c, a);
    CallTells(y, c, a);
    SameLosses(y, z);
    forall id | id in z.missed
      ensures id in z.pending.cells && (z.pending.cells[id].Waiting? || z.pending.cells[id] == Sent(ConnectionLost))
    {
      CallCells(y, c, a, id);
      if id !in y.missed {
        var sid :| HoldsStray(y, sid, id);
        assert y.pending.cells[id].Waiting? && id !in y.pending.entries;
      }
    }
    hide CallAct;
    ToldKeep(y, z);
  }

  lemma CallKeepsSpots(y: System, c: CallId, a: CallStep)
    requires SpotInv(y) && CallEnabled(y, c, a) && !a.Send?
    ensures SpotInv(CallAct(y, c, a))
  {
    var z := CallAct(y, c, a);
    CallStill(y, c, a);
    CallTells(y, c, a);
    CallHolds(y, c, a);
    SameLosses(y, z);
    hide CallAct, Moves;
    var done := z.missed - y.missed;
    forall id | id in done ensures id in y.sent && Over(z, id) {
      var sid :| HoldsStray(y, sid, id);
      OverStays(y, z, Still, id);
    }
    SpotsKeep(y, z, Still, done);
  }

  /** A fresh request starts its way. */
  lemma SendKeepsSpots(y: System, c: CallId)
    requires SpotInv(y) && CallEnabled(y, c, Send) && y.calls[c].id !in y.sent
    ensures SpotInv(CallAct(y, c, Send))
  {
    var z := CallAct(y, c, Send);
    var k := y.calls[c];
    CallTells(y, c, Send);
    CallHolds(y, c, Send);
    SameLosses(y, z);
    if k.session in y.conns && y.conns[k.session].accepting {
      SendShape(y, c);
      hide CallAct;
      StartKeeps(y, z, Outbound(k.session, |y.conns[k.session].outbound|), k.id);
    } else {
      assert Moves(y, z, Still);
      hide CallAct, Moves;
      SpotsKeep(y, z, Still, {});
    }
  }

  lemma SendShape(y: System, c: CallId)
    requires CallEnabled(y, c, Send) && y.calls[c].session in y.conns && y.conns[y.calls[c].session].accepting
    ensures var z := CallAct(y, c, Send);
            var k := y.calls[c];
            var start := Outbound(k.session, |y.conns[k.session].outbound|);
            && Here(z, start) && IdAt(z, start) == k.id && k.id in z.sent
            && (forall s | Here(z, s) && s != start :: Here(y, s) && IdAt(z, s) == IdAt(y, s))
  {
    hide CallAct;
    CallFields(y, c, Send);
  }

  lemma StartKeeps(y: System, z: System, start: Spot, new_: RequestId)
    requires SpotInv(y) && EndsOnly(y, z, {}) && new_ !in y.sent && new_ in z.sent
    requires Here(z, start) && IdAt(z, start) == new_
    requires forall s | Here(z, s) && s != start :: Here(y, s) && IdAt(z, s) == IdAt(y, s)
    ensures SpotInv(z)
  {
    forall id | Over(y, id) && id in y.sent ensures Over(z, id) {
      assert id != new_;
    }
  }

  lemma CallKeepsAnswers(y: System, c: CallId, a: CallStep)
    requires WaiterInv(y) && K.CallsKnowWhatWasSent(y) && AnswerInv(y) && CallEnabled(y, c, a)
    ensures AnswerInv(CallAct(y, c, a))
  {
    hide CallAct, WaiterInv, SpotInv, ToldInv;
    CallToldInv(y, c, a);
    if a.Send? { SendKeepsSpots(y, c); } else { CallKeepsSpots(y, c, a); }
  }

  lemma StepKeepsAnswers(y: System, a: Step)
    requires WaiterInv(y) && K.CallsKnowWhatWasSent(y) && W.HandsInv(y) && AnswerInv(y) && Enabled(y, a)
    ensures AnswerInv(Act(y, a))
  {
    hide WaiterInv, K.CallsKnowWhatWasSent, W.HandsInv, AnswerInv;
    match a
    case Server(sid, s) => ServerKeepsAnswers(y, sid, s);
    case Main(p, s) => PeerKeepsAnswers(y, p, s);
    case Writer(sid, s) => WriterKeepsAnswers(y, sid, s);
    case Caller(c, s) => CallKeepsAnswers(y, c, s);
  }
}
