/** What frames say is true: every answer in flight, delivered or returned is the result of a run of that very request,
    and every event was emitted by the add-on whose session it names. */
module BridgeTruth {
  import opened Wrappers
  import opened Pending
  import opened Bridge
  import opened BridgeFields
  import opened BridgeTokens
  import A = AddOn

  ghost predicate WasRun(y: System, id: RequestId, body: Body)
  {
    id in y.sent && Run(id, y.sent[id], body) in y.runs
  }

  ghost predicate FrameOk(y: System, f: A.Frame)
  {
    match f
    case Response(id, body) => id in y.sent && (body.Ok? ==> WasRun(y, id, body))
    case Event(_, _, _) => exists p :: Emission(p, f) in y.emitted
    case Fatal => true
  }

  ghost predicate InOutbox(y: System, p: PeerId, f: A.Frame)
  {
    p in y.peers && f in y.peers[p].addon.outbox
  }

  ghost predicate OnConn(y: System, sid: SessionId, f: A.Frame)
  {
    sid in y.conns && (f in y.conns[sid].up || y.conns[sid].hand == Some(f))
  }

  ghost predicate FramesOk(y: System)
  {
    && (forall p, f | InOutbox(y, p, f) :: FrameOk(y, f))
    && (forall sid, f | OnConn(y, sid, f) :: FrameOk(y, f))
  }

  ghost predicate CellsOk(y: System)
  {
    forall id | id in y.pending.cells && y.pending.cells[id].Sent? && y.pending.cells[id].outcome.Answered? ::
      FrameOk(y, A.Response(id, y.pending.cells[id].outcome.body))
  }

  ghost predicate RepliesOk(y: System)
  {
    forall c | c in y.calls && y.calls[c].Done? && y.calls[c].result.Reply? ::
      FrameOk(y, A.Response(y.calls[c].id, y.calls[c].result.body))
  }

  ghost predicate StraysWereSent(y: System)
  {
    forall sid, id | HoldsStray(y, sid, id) :: id in y.sent
  }

  ghost predicate TruthInv(y: System)
  {
    FramesOk(y) && CellsOk(y) && RepliesOk(y) && StraysWereSent(y)
  }

  /** History only grows. */
  ghost predicate Grows(y: System, z: System)
  {
    && (forall r | r in y.runs :: r in z.runs)
    && (forall id | id in y.sent :: id in z.sent && z.sent[id] == y.sent[id])
    && y.emitted <= z.emitted
  }

  lemma FrameStaysOk(y: System, z: System, f: A.Frame)
    requires Grows(y, z) && FrameOk(y, f)
    ensures FrameOk(z, f)
  {
    if f.Event? {
      var p :| Emission(p, f) in y.emitted;
      assert Emission(p, f) in z.emitted;
    }
  }

  /** Every frame was somewhere before the step, or is one of `made`. */
  ghost predicate FramesFrom(y: System, z: System, made: set<A.Frame>)
  {
    && (forall p, f | InOutbox(z, p, f) :: f in made || Before(y, f))
    && (forall sid, f | OnConn(z, sid, f) :: f in made || Before(y, f))
  }

  ghost predicate Before(y: System, f: A.Frame)
  {
    (exists p :: InOutbox(y, p, f)) || (exists sid :: OnConn(y, sid, f))
  }

  lemma FramesKeep(y: System, z: System, made: set<A.Frame>)
    requires FramesOk(y) && Grows(y, z) && FramesFrom(y, z, made) && forall f | f in made :: FrameOk(z, f)
    ensures FramesOk(z)
  {
    forall f | Before(y, f) ensures FrameOk(z, f) {
      FrameStaysOk(y, z, f);
    }
  }

  ghost predicate SameAnswers(y: System, z: System)
  {
    && z.pending.cells == y.pending.cells && z.calls == y.calls
    && (forall sid, id | HoldsStray(z, sid, id) :: HoldsStray(y, sid, id))
  }

  lemma TruthKeeps(y: System, z: System, made: set<A.Frame>)
    requires TruthInv(y) && Grows(y, z) && FramesFrom(y, z, made) && (forall f | f in made :: FrameOk(z, f))
    requires SameAnswers(y, z)
    ensures TruthInv(z)
  {
    FramesKeep(y, z, made);
    forall id | id in z.pending.cells && z.pending.cells[id].Sent? && z.pending.cells[id].outcome.Answered?
      ensures FrameOk(z, A.Response(id, z.pending.cells[id].outcome.body))
    {
      FrameStaysOk(y, z, A.Response(id, z.pending.cells[id].outcome.body));
    }
    forall c | c in z.calls && z.calls[c].Done? && z.calls[c].result.Reply?
      ensures FrameOk(z, A.Response(z.calls[c].id, z.calls[c].result.body))
    {
      FrameStaysOk(y, z, A.Response(z.calls[c].id, z.calls[c].result.body));
    }
  }

  // ---------------------------------------------------------------------------
  // Peers
  // ---------------------------------------------------------------------------

  ghost function Made(y: System, p: PeerId, a: PeerStep): set<A.Frame>
    requires PeerEnabled(y, p, a)
  {
    var addon := y.peers[p].addon;
    match a
    case ReadRequest(sid) =>
      if |addon.inbox| < A.INBOX_MAX then {} else {A.Response(y.conns[sid].down[0].id, Err(RATE_LIMITED))}
    case Finish(body) => {A.Response(addon.busy.value.id, body)}
    case Emit(payload) => if addon.session.Some? then {A.Event(addon.session.value, addon.revision, payload)} else {}
    case ReportFatal => {A.Fatal}
    case _ => {}
  }

  lemma EnqueuedAdds(s: A.State, frame: A.Frame)
    ensures forall f | f in A.Enqueued(s, frame).outbox :: f in s.outbox || f == frame
  {
  }

  lemma PeerOutbox(y: System, p: PeerId, a: PeerStep)
    requires PeerEnabled(y, p, a)
    ensures var z := PeerAct(y, p, a);
            && p in z.peers && z.peers == y.peers[p := z.peers[p]]
            && (forall f | f in z.peers[p].addon.outbox :: f in y.peers[p].addon.outbox || f in Made(y, p, a))
  {
    hide PeerAct, ConnsAfterPeer, RunsAfterPeer, EmittedAfterPeer;
    PeerFields(y, p, a);
    var addon := y.peers[p].addon;
    match a
    case ReadRequest(sid) =>
      var r := y.conns[sid].down[0];
      EnqueuedAdds(addon.(log := addon.log.(refused := addon.log.refused + [r.id])), A.Response(r.id, Err(RATE_LIMITED)));
    case Finish(body) =>
      EnqueuedAdds(addon.(busy := None, log := addon.log.(answered := addon.log.answered + [addon.busy.value])),
                   A.Response(addon.busy.value.id, body));
    case Emit(payload) =>
      if addon.session.Some? { EnqueuedAdds(addon, A.Event(addon.session.value, addon.revision, payload)); }
    case ReportFatal => EnqueuedAdds(addon, A.Fatal);
    case _ =>
  }

  ghost predicate ConnsCarryOn(y: System, z: System)
  {
    && z.conns.Keys == y.conns.Keys
    && forall d | d in y.conns ::
         && z.conns[d].up == y.conns[d].up && z.conns[d].hand == y.conns[d].hand
         && (z.conns[d].pc.HoldingStray? ==> z.conns[d].pc == y.conns[d].pc)
  }

  lemma PeerConns(y: System, p: PeerId, a: PeerStep)
    requires PeerEnabled(y, p, a)
    ensures ConnsCarryOn(y, PeerAct(y, p, a))
    ensures var z := PeerAct(y, p, a); z.pending == y.pending && z.calls == y.calls && z.sent == y.sent
  {
    hide PeerAct;
    PeerFields(y, p, a);
  }

  lemma PeerGrows(y: System, p: PeerId, a: PeerStep)
    requires PeerEnabled(y, p, a)
    ensures Grows(y, PeerAct(y, p, a))
    ensures a.Finish? ==>
      Run(y.peers[p].addon.busy.value.id, y.peers[p].addon.busy.value.op, a.body) in PeerAct(y, p, a).runs
    ensures a.Emit? && y.peers[p].addon.session.Some? ==>
      Emission(p, A.Event(y.peers[p].addon.session.value, y.peers[p].addon.revision, a.payload)) in PeerAct(y, p, a).emitted
  {
    if a.Finish? {
      var runs := PeerAct(y, p, a).runs;
      var run := Run(y.peers[p].addon.busy.value.id, y.peers[p].addon.busy.value.op, a.body);
      assert runs == y.runs + [run];
      assert runs[|y.runs|] == run;
    }
  }

  lemma MadeIsTrue(y: System, p: PeerId, a: PeerStep)
    requires AllWereSent(y) && PeerEnabled(y, p, a)
    ensures forall f | f in Made(y, p, a) :: FrameOk(PeerAct(y, p, a), f)
  {
    PeerGrows(y, p, a);
    PeerConns(y, p, a);
    if a.ReadRequest? {
      var l := AtWire(a.session, 0);
      assert Here(y, l) && WasSent(y, Token(y, l));
    }
    if a.Finish? {
      assert Here(y, AtDispatch(p)) && WasSent(y, Token(y, AtDispatch(p)));
    }
  }

  lemma PeerFrames(y: System, p: PeerId, a: PeerStep)
    requires PeerEnabled(y, p, a)
    ensures FramesFrom(y, PeerAct(y, p, a), Made(y, p, a)) && SameAnswers(y, PeerAct(y, p, a))
  {
    PeerOutbox(y, p, a);
    PeerConns(y, p, a);
    var z := PeerAct(y, p, a);
    forall q, f | InOutbox(z, q, f)
      ensures f in Made(y, p, a) || Before(y, f)
    {
      assert f in Made(y, p, a) || InOutbox(y, q, f);
    }
    forall sid, f | OnConn(z, sid, f)
      ensures Before(y, f)
    {
      assert OnConn(y, sid, f);
    }
  }

  lemma PeerKeepsTruth(y: System, p: PeerId, a: PeerStep)
    requires TruthInv(y) && AllWereSent(y) && PeerEnabled(y, p, a)
    ensures TruthInv(PeerAct(y, p, a))
  {
    PeerGrows(y, p, a);
    PeerFrames(y, p, a);
    MadeIsTrue(y, p, a);
    TruthKeeps(y, PeerAct(y, p, a), Made(y, p, a));
  }

  // ---------------------------------------------------------------------------
  // Writer threads
  // ---------------------------------------------------------------------------

  ghost function Replaced(y: System, sid: SessionId, a: WriterStep): set<A.Frame>
    requires WriterEnabled(y, sid, a)
  {
    if a.WriteTooLarge? && y.conns[sid].hand.value.Response?
    then {A.Response(y.conns[sid].hand.value.id, Err(MESSAGE_TOO_LARGE))} else {}
  }

  lemma WriterFrames(y: System, sid: SessionId, a: WriterStep)
    requires WriterEnabled(y, sid, a)
    ensures var z := WriterAct(y, sid, a);
            && FramesFrom(y, z, Replaced(y, sid, a)) && SameAnswers(y, z) && Grows(y, z) && z.sent == y.sent
  {
    var z := WriterAct(y, sid, a);
    var c := y.conns[sid];
    if c.hand.Some? { assert OnConn(y, sid, c.hand.value); }
    if a.TakeFrame? {
      assert InOutbox(y, c.peer, y.peers[c.peer].addon.outbox[0]);
    }
    forall p, f | InOutbox(z, p, f)
      ensures Before(y, f)
    {
      assert InOutbox(y, p, f);
    }
    forall d, f | OnConn(z, d, f)
      ensures f in Replaced(y, sid, a) || Before(y, f)
    {
      if d != sid || f in c.up { assert OnConn(y, d, f); }
    }
  }

  lemma WriterKeepsTruth(y: System, sid: SessionId, a: WriterStep)
    requires TruthInv(y) && WriterEnabled(y, sid, a)
    ensures TruthInv(WriterAct(y, sid, a))
  {
    WriterFrames(y, sid, a);
    if a.WriteTooLarge? {
      assert OnConn(y, sid, y.conns[sid].hand.value);
    }
    TruthKeeps(y, WriterAct(y, sid, a), Replaced(y, sid, a));
  }

  // ---------------------------------------------------------------------------
  // The server
  // ---------------------------------------------------------------------------

  lemma SameHistory(y: System, z: System)
    requires z.runs == y.runs && z.sent == y.sent && z.emitted == y.emitted
    ensures Grows(y, z) && Grows(z, y)
  {
  }

  /** Frames are only lost or read: nothing new is on any connection or in any outbox. */
  ghost predicate FramesShrink(y: System, z: System)
  {
    && z.peers == y.peers
    && forall d | d in z.conns ::
         && (z.conns[d].hand == None || (d in y.conns && z.conns[d].hand == y.conns[d].hand))
         && (z.conns[d].up == [] || (d in y.conns && |z.conns[d].up| <= |y.conns[d].up|
                                     && z.conns[d].up == y.conns[d].up[|y.conns[d].up| - |z.conns[d].up|..]))
  }

  lemma ShrinkingFrames(y: System, z: System)
    requires FramesShrink(y, z)
    ensures FramesFrom(y, z, {})
  {
    forall p, f | InOutbox(z, p, f) ensures Before(y, f) {
      assert InOutbox(y, p, f);
    }
    forall d, f | OnConn(z, d, f) ensures Before(y, f) {
      assert OnConn(y, d, f);
    }
  }

  lemma HandlingTouchesOne(y: System, sid: SessionId, f: A.Frame)
    requires sid in y.conns
    ensures var z := HandleFrame(y, sid, f);
            && z.conns.Keys == y.conns.Keys && (forall d | d in y.conns && d != sid :: z.conns[d] == y.conns[d])
            && z.conns[sid] == y.conns[sid].(pc := z.conns[sid].pc)
            && (z.conns[sid].pc.HoldingStray? ==>
                  z.conns[sid].pc == y.conns[sid].pc || (f.Response? && z.conns[sid].pc.id == f.id))
  {
  }

  lemma HandlingKeepsHistory(y: System, sid: SessionId, f: A.Frame)
    requires sid in y.conns
    ensures var z := HandleFrame(y, sid, f);
            z.peers == y.peers && z.runs == y.runs && z.sent == y.sent && z.emitted == y.emitted && z.calls == y.calls
  {
  }

  lemma HandlingAnswers(y: System, sid: SessionId, f: A.Frame, id: RequestId)
    requires sid in y.conns
    ensures var cells := HandleFrame(y, sid, f).pending.cells;
            id in cells && cells[id].Sent? && cells[id].outcome.Answered? ==>
              || (id in y.pending.cells && cells[id] == y.pending.cells[id])
              || f == A.Response(id, cells[id].outcome.body)
  {
  }

  lemma HandlingShrinks(y: System, sid: SessionId, f: A.Frame)
    requires sid in y.conns
    ensures FramesShrink(y, HandleFrame(y, sid, f))
  {
    HandlingTouchesOne(y, sid, f);
    HandlingKeepsHistory(y, sid, f);
    hide HandleFrame;
  }

  lemma HandlingStrays(y: System, sid: SessionId, f: A.Frame)
    requires sid in y.conns && StraysWereSent(y) && (f.Response? ==> f.id in y.sent)
    ensures forall d, id | HoldsStray(HandleFrame(y, sid, f), d, id) :: id in y.sent
  {
    HandlingTouchesOne(y, sid, f);
    hide HandleFrame;
    forall d, id | HoldsStray(HandleFrame(y, sid, f), d, id) ensures id in y.sent {
      assert HoldsStray(y, d, id) || (f.Response? && id == f.id);
    }
  }

  lemma HandleKeepsTruth(y: System, sid: SessionId, f: A.Frame)
    requires TruthInv(y) && sid in y.conns && FrameOk(y, f)
    ensures TruthInv(HandleFrame(y, sid, f))
  {
    var z := HandleFrame(y, sid, f);
    HandlingShrinks(y, sid, f);
    HandlingKeepsHistory(y, sid, f);
    HandlingStrays(y, sid, f);
    hide HandleFrame, FramesShrink, FramesOk, RepliesOk, StraysWereSent;
    forall id | id in z.pending.cells && z.pending.cells[id].Sent? && z.pending.cells[id].outcome.Answered?
      ensures FrameOk(y, A.Response(id, z.pending.cells[id].outcome.body))
    {
      HandlingAnswers(y, sid, f, id);
    }
    HandledKeepsTruth(y, z, sid);
  }

  lemma HandledKeepsTruth(y: System, z: System, sid: SessionId)
    requires TruthInv(y) && FramesShrink(y, z) && z.calls == y.calls
    requires z.runs == y.runs && z.sent == y.sent && z.emitted == y.emitted
    requires forall id | id in z.pending.cells && z.pending.cells[id].Sent? && z.pending.cells[id].outcome.Answered? ::
               FrameOk(y, A.Response(id, z.pending.cells[id].outcome.body))
    requires forall d, id | HoldsStray(z, d, id) :: id in y.sent
    ensures TruthInv(z)
  {
    SameHistory(y, z);
    ShrinkingFrames(y, z);
    FramesKeep(y, z, {});
    forall id | id in z.pending.cells && z.pending.cells[id].Sent? && z.pending.cells[id].outcome.Answered?
      ensures FrameOk(z, A.Response(id, z.pending.cells[id].outcome.body))
    {
      FrameStaysOk(y, z, A.Response(id, z.pending.cells[id].outcome.body));
    }
    forall c | c in z.calls && z.calls[c].Done? && z.calls[c].result.Reply?
      ensures FrameOk(z, A.Response(z.calls[c].id, z.calls[c].result.body))
    {
      FrameStaysOk(y, z, A.Response(z.calls[c].id, z.calls[c].result.body));
    }
  }

  lemma ServerShrinks(y: System, sid: SessionId, a: ServerStep)
    requires ServerEnabled(y, sid, a) && !a.ReadFrame?
    ensures var z := ServerAct(y, sid, a);
            && z.peers == y.peers && sid in z.conns && z.conns == y.conns[sid := z.conns[sid]]
            && (if sid in y.conns then z.conns[sid].up == y.conns[sid].up && z.conns[sid].hand == y.conns[sid].hand
                else z.conns[sid].up == [] && z.conns[sid].hand == None)
            && (z.conns[sid].pc.HoldingStray? ==> sid in y.conns && z.conns[sid].pc == y.conns[sid].pc)
    ensures var z := ServerAct(y, sid, a);
            && z.runs == y.runs && z.sent == y.sent && z.emitted == y.emitted && z.calls == y.calls
            && z.pending == (if a.FailPrevious? then SessionFailed(y.pending, y.conns[sid].pc.previous)
                             else if a.FailOwn? then SessionFailed(y.pending, sid)
                             else if a.RestoreStray? then PutBack(y.pending, y.conns[sid].pc.id, y.conns[sid].pc.entry)
                             else y.pending)
  {
    hide ServerAct;
    ServerFields(y, sid, a);
  }

  /** A change of the table that answers nobody. */
  ghost predicate AnswersNobody(y: System, z: System)
  {
    forall id | id in z.pending.cells && z.pending.cells[id].Sent? && z.pending.cells[id].outcome.Answered? ::
      id in y.pending.cells && z.pending.cells[id] == y.pending.cells[id]
  }

  lemma ServerAnswersNobody(y: System, sid: SessionId, a: ServerStep)
    requires ServerEnabled(y, sid, a) && !a.ReadFrame?
    ensures AnswersNobody(y, ServerAct(y, sid, a))
  {
    ServerShrinks(y, sid, a);
  }

  lemma PopShrinks(y: System, x: System, sid: SessionId)
    requires sid in y.conns && y.conns[sid].up != []
    requires x == SetConn(y, sid, y.conns[sid].(up := y.conns[sid].up[1..]))
    ensures FramesShrink(y, x)
  {
    forall d | d in x.conns
      ensures x.conns[d].hand == y.conns[d].hand
      ensures |x.conns[d].up| <= |y.conns[d].up| && x.conns[d].up == y.conns[d].up[|y.conns[d].up| - |x.conns[d].up|..]
    {
    }
  }

  lemma PoppedKeepsTruth(y: System, sid: SessionId)
    requires TruthInv(y) && sid in y.conns && y.conns[sid].up != []
    ensures var x := SetConn(y, sid, y.conns[sid].(up := y.conns[sid].up[1..]));
            TruthInv(x) && FrameOk(x, y.conns[sid].up[0])
  {
    var x := SetConn(y, sid, y.conns[sid].(up := y.conns[sid].up[1..]));
    var f := y.conns[sid].up[0];
    PopShrinks(y, x, sid);
    SameHistory(y, x);
    assert SameAnswers(y, x);
    assert OnConn(y, sid, f) && FrameOk(y, f);
    hide *;
    ShrinkingFrames(y, x);
    MadeNothing(x);
    TruthKeeps(y, x, {});
    FrameStaysOk(y, x, f);
  }

  lemma MadeNothing(z: System)
    ensures forall f: A.Frame | f in {} :: FrameOk(z, f)
  {
  }

  lemma ReadKeepsTruth(y: System, sid: SessionId)
    requires TruthInv(y) && ServerEnabled(y, sid, ReadFrame)
    ensures TruthInv(ServerAct(y, sid, ReadFrame))
  {
    PoppedKeepsTruth(y, sid);
    HandleKeepsTruth(SetConn(y, sid, y.conns[sid].(up := y.conns[sid].up[1..])), sid, y.conns[sid].up[0]);
  }

  lemma ServerFrames(y: System, sid: SessionId, a: ServerStep)
    requires ServerEnabled(y, sid, a) && !a.ReadFrame?
    ensures FramesShrink(y, ServerAct(y, sid, a))
    ensures forall d, id | HoldsStray(ServerAct(y, sid, a), d, id) :: HoldsStray(y, d, id)
  {
    ServerShrinks(y, sid, a);
  }

  lemma QuietServerKeepsTruth(y: System, sid: SessionId, a: ServerStep)
    requires TruthInv(y) && ServerEnabled(y, sid, a) && !a.ReadFrame?
    ensures TruthInv(ServerAct(y, sid, a))
  {
    ServerShrinks(y, sid, a);
    ServerFrames(y, sid, a);
    ServerAnswersNobody(y, sid, a);
    HandledKeepsTruth(y, ServerAct(y, sid, a), sid);
  }

  lemma ServerKeepsTruth(y: System, sid: SessionId, a: ServerStep)
    requires TruthInv(y) && ServerEnabled(y, sid, a)
    ensures TruthInv(ServerAct(y, sid, a))
  {
    if a.ReadFrame? { ReadKeepsTruth(y, sid); } else { QuietServerKeepsTruth(y, sid, a); }
  }

  // ---------------------------------------------------------------------------
  // Callers
  // ---------------------------------------------------------------------------

  lemma CallShrinks(y: System, c: CallId, a: CallStep)
    requires CallEnabled(y, c, a) && (a.Send? ==> y.calls[c].id !in y.sent)
    ensures var z := CallAct(y, c, a);
            && FramesShrink(y, z) && Grows(y, z) && AnswersNobody(y, z)
            && (forall d, id | HoldsStray(z, d, id) :: HoldsStray(y, d, id))
  {
    CallShrinksFrames(y, c, a);
    CallAnswersNobody(y, c, a);
    hide CallAct, FramesShrink, Grows, AnswersNobody;
  }

  lemma CallShrinksFrames(y: System, c: CallId, a: CallStep)
    requires CallEnabled(y, c, a)
    ensures FramesShrink(y, CallAct(y, c, a))
    ensures forall d, id | HoldsStray(CallAct(y, c, a), d, id) :: HoldsStray(y, d, id)
  {
    hide CallAct;
    CallFields(y, c, a);
  }

  lemma CallAnswersNobody(y: System, c: CallId, a: CallStep)
    requires CallEnabled(y, c, a) && (a.Send? ==> y.calls[c].id !in y.sent)
    ensures Grows(y, CallAct(y, c, a)) && AnswersNobody(y, CallAct(y, c, a))
  {
    hide CallAct;
    CallFields(y, c, a);
  }

  lemma CallResult(y: System, c: CallId, a: CallStep)
    requires CallEnabled(y, c, a)
    ensures var z := CallAct(y, c, a);
            && (forall d | d in z.calls && d != c :: d in y.calls && z.calls[d] == y.calls[d])
            && (z.calls[c].Done? && z.calls[c].result.Reply? ==>
                  && a.Receive? && y.pending.cells[y.calls[c].id] == Sent(Answered(z.calls[c].result.body))
                  && z.calls[c].id == y.calls[c].id)
  {
    hide CallAct;
    CallFields(y, c, a);
  }

  lemma CallKeepsTruth(y: System, c: CallId, a: CallStep)
    requires TruthInv(y) && CallsKnowWhatWasSent(y) && CallEnabled(y, c, a)
    ensures TruthInv(CallAct(y, c, a))
  {
    var z := CallAct(y, c, a);
    CallShrinks(y, c, a);
    CallResult(y, c, a);
    ShrinkingFrames(y, z);
    FramesKeep(y, z, {});
    assert CellsOk(z) by {
      forall id | id in z.pending.cells && z.pending.cells[id].Sent? && z.pending.cells[id].outcome.Answered?
        ensures FrameOk(z, A.Response(id, z.pending.cells[id].outcome.body))
      {
        FrameStaysOk(y, z, A.Response(id, z.pending.cells[id].outcome.body));
      }
    }
    assert RepliesOk(z) by {
      forall d | d in z.calls && z.calls[d].Done? && z.calls[d].result.Reply?
        ensures FrameOk(z, A.Response(z.calls[d].id, z.calls[d].result.body))
      {
        FrameStaysOk(y, z, A.Response(z.calls[d].id, z.calls[d].result.body));
      }
    }
    assert StraysWereSent(z) by {
      forall d, id | HoldsStray(z, d, id) ensures id in z.sent {
        assert HoldsStray(y, d, id);
      }
    }
  }

  // ---------------------------------------------------------------------------
  // Sessions and events
  // ---------------------------------------------------------------------------

  /** The session an add-on is attached under is that of a connection it dialled. */
  ghost predicate SessionsOk(y: System)
  {
    forall p | p in y.peers && y.peers[p].addon.session.Some? :: Dials(y, p, y.peers[p].addon.session.value)
  }

  ghost predicate EmissionsOk(y: System)
  {
    forall e | e in y.emitted ::
      e.event.Event? && e.event.session in y.conns && y.conns[e.event.session].peer == e.peer
  }

  ghost predicate BroadcastsOk(y: System)
  {
    forall k | 0 <= k < |y.broadcast| ::
      && y.broadcast[k].event.Event? && y.broadcast[k].event.session == y.broadcast[k].conn
      && y.broadcast[k].conn in y.conns
      && Emission(y.conns[y.broadcast[k].conn].peer, y.broadcast[k].event) in y.emitted
  }

  ghost predicate EventInv(y: System)
  {
    SessionsOk(y) && EmissionsOk(y) && BroadcastsOk(y)
  }

  /** Connections keep their peers; nothing else an event's identity rests on changes. */
  ghost predicate ConnsKeepPeers(y: System, z: System)
  {
    forall d | d in y.conns :: d in z.conns && z.conns[d].peer == y.conns[d].peer
  }

  lemma EventsKeep(y: System, z: System)
    requires EventInv(y) && ConnsKeepPeers(y, z) && z.emitted == y.emitted && z.broadcast == y.broadcast
    requires z.peers.Keys == y.peers.Keys
    requires forall p | p in y.peers :: z.peers[p].addon.session == y.peers[p].addon.session
    ensures EventInv(z)
  {
  }

  lemma HandlingBroadcasts(y: System, sid: SessionId, f: A.Frame)
    requires sid in y.conns
    ensures HandleFrame(y, sid, f).broadcast
         == y.broadcast + if f.Event? && f.session == sid then [Broadcast(sid, f)] else []
  {
  }

  lemma ServerBroadcasts(y: System, sid: SessionId, a: ServerStep)
    requires ServerEnabled(y, sid, a)
    ensures var z := ServerAct(y, sid, a);
            if a.ReadFrame? && y.conns[sid].up[0].Event? && y.conns[sid].up[0].session == sid
            then z.broadcast == y.broadcast + [Broadcast(sid, y.conns[sid].up[0])] else z.broadcast == y.broadcast
  {
    if a.ReadFrame? {
      var c := y.conns[sid];
      HandlingBroadcasts(SetConn(y, sid, c.(up := c.up[1..])), sid, c.up[0]);
    }
  }

  lemma ServerConnsKeepPeers(y: System, sid: SessionId, a: ServerStep)
    requires ServerEnabled(y, sid, a)
    ensures ConnsKeepPeers(y, ServerAct(y, sid, a)) && ServerAct(y, sid, a).peers == y.peers
    ensures ServerAct(y, sid, a).emitted == y.emitted
  {
    hide ServerAct, TableAfterServer, BroadcastAfterServer, PcAfterServer;
    ServerFields(y, sid, a);
  }

  lemma ServerKeepsEvents(y: System, sid: SessionId, a: ServerStep)
    requires EventInv(y) && FramesOk(y) && ServerEnabled(y, sid, a)
    ensures EventInv(ServerAct(y, sid, a))
  {
    var z := ServerAct(y, sid, a);
    ServerConnsKeepPeers(y, sid, a);
    ServerBroadcasts(y, sid, a);
    EventsKeep(y, z.(broadcast := y.broadcast));
    if z.broadcast != y.broadcast {
      var f := y.conns[sid].up[0];
      assert OnConn(y, sid, f);
      var p :| Emission(p, f) in y.emitted;
      assert y.conns[sid].peer == p;
    }
  }

  lemma WriterKeepsEvents(y: System, sid: SessionId, a: WriterStep)
    requires EventInv(y) && WriterEnabled(y, sid, a)
    ensures EventInv(WriterAct(y, sid, a))
  {
    EventsKeep(y, WriterAct(y, sid, a));
  }

  lemma CallKeepsEvents(y: System, c: CallId, a: CallStep)
    requires EventInv(y) && CallEnabled(y, c, a)
    ensures EventInv(CallAct(y, c, a))
  {
    hide CallAct;
    CallFields(y, c, a);
    EventsKeep(y, CallAct(y, c, a));
    hide EventInv;
  }

  lemma PeerSession(y: System, p: PeerId, a: PeerStep)
    requires PeerEnabled(y, p, a)
    ensures var z := PeerAct(y, p, a);
            && p in z.peers && z.broadcast == y.broadcast && z.emitted == y.emitted + EmittedBy(y, p, a)
            && z.peers[p].addon.session
                 == if a.Adopt? then Some(a.session) else if a.LeaveRead? then None else y.peers[p].addon.session
  {
    hide PeerAct;
    PeerFields(y, p, a);
  }

  lemma PeerKeepsConnPeers(y: System, p: PeerId, a: PeerStep)
    requires PeerEnabled(y, p, a)
    ensures var z := PeerAct(y, p, a);
            ConnsKeepPeers(y, z) && z.peers.Keys == y.peers.Keys && forall q | q in y.peers && q != p :: z.peers[q] == y.peers[q]
  {
    PeerOutbox(y, p, a);
  }

  ghost function EmittedBy(y: System, p: PeerId, a: PeerStep): set<Emission>
    requires PeerEnabled(y, p, a)
  {
    if a.Emit? && y.peers[p].addon.session.Some?
    then {Emission(p, A.Event(y.peers[p].addon.session.value, y.peers[p].addon.revision, a.payload))} else {}
  }

  lemma PeerKeepsSessions(y: System, z: System, p: PeerId, a: PeerStep)
    requires SessionsOk(y) && PeerEnabled(y, p, a) && z == PeerAct(y, p, a)
    ensures SessionsOk(z)
  {
    hide PeerAct;
    PeerSession(y, p, a);
    PeerKeepsConnPeers(y, p, a);
  }

  lemma PeerKeepsEmissions(y: System, z: System, p: PeerId, a: PeerStep)
    requires SessionsOk(y) && EmissionsOk(y) && BroadcastsOk(y) && ConnsKeepPeers(y, z) && PeerEnabled(y, p, a)
    requires z.emitted == y.emitted + EmittedBy(y, p, a) && z.broadcast == y.broadcast
    ensures EmissionsOk(z) && BroadcastsOk(z)
  {
  }

  lemma PeerKeepsEvents(y: System, p: PeerId, a: PeerStep)
    requires EventInv(y) && PeerEnabled(y, p, a)
    ensures EventInv(PeerAct(y, p, a))
  {
    PeerSession(y, p, a);
    PeerKeepsConnPeers(y, p, a);
    PeerKeepsSessions(y, PeerAct(y, p, a), p, a);
    PeerKeepsEmissions(y, PeerAct(y, p, a), p, a);
  }
}
