/** A writer thread ends at its first failed write and a connection has one, so a connection loses one frame at most. */
module BridgeLosses {
  import opened Wrappers
  import opened Pending
  import opened Bridge
  import opened BridgeFields
  import opened BridgeWriters
  import opened BridgePast

  ghost predicate NoPulls(y: System, sid: SessionId)
  {
    forall k | 0 <= k < |y.past.pulls| :: y.past.pulls[k].conn != sid
  }

  /** A connection whose writer thread has not been started. */
  ghost predicate Unstarted(y: System, sid: SessionId)
  {
    sid in y.conns && !y.conns[sid].writer && NoPulls(y, sid)
  }

  /** The writer of a connection is started once: before its reader serves it there is none. */
  ghost predicate StartInv(y: System)
  {
    && (forall sid | sid in y.conns && (y.conns[sid].pc.Offered? || y.conns[sid].reader.Shaken?) :: Unstarted(y, sid))
    && (forall sid | sid in y.conns && y.conns[sid].pc.Offered? :: !y.conns[sid].reader.Shaken?)
  }

  /** After a loss the writer is over: it took nothing more. */
  ghost predicate LastInv(y: System)
  {
    && (forall k | 0 <= k < |y.past.pulls| && y.past.pulls[k].fate.Gone? ::
          y.past.pulls[k].conn in y.conns && !y.conns[y.past.pulls[k].conn].writer)
    && (forall j, k | 0 <= k < j < |y.past.pulls| && y.past.pulls[k].fate.Gone? :: y.past.pulls[j].conn != y.past.pulls[k].conn)
  }

  ghost predicate OnceInv(y: System)
  {
    StartInv(y) && LastInv(y)
  }

  /** Nothing is taken or settled, no writer is started, and no reader shakes hands. */
  ghost predicate Rests(y: System, z: System)
  {
    && z.past.pulls == y.past.pulls
    && (forall d | d in y.conns :: d in z.conns && z.conns[d].writer == y.conns[d].writer)
    && (forall d | d in z.conns ::
          if d in y.conns then z.conns[d].reader == y.conns[d].reader && (z.conns[d].pc.Offered? ==> y.conns[d].pc.Offered?)
          else !z.conns[d].writer && z.conns[d].reader.Dialled?)
  }

  lemma RestsKeep(y: System, z: System)
    requires HandsInv(y) && OnceInv(y) && Rests(y, z)
    ensures OnceInv(z)
  {
    forall d | d in z.conns && (z.conns[d].pc.Offered? || z.conns[d].reader.Shaken?) ensures Unstarted(z, d) {
      if d in y.conns { assert Unstarted(y, d); }
    }
  }

  lemma ServerRestsHere(y: System, sid: SessionId, a: ServerStep)
    requires ServerEnabled(y, sid, a)
    ensures Rests(y, ServerAct(y, sid, a))
  {
    hide ServerAct, TableAfterServer, BroadcastAfterServer;
    ServerFields(y, sid, a);
  }

  /** The steps of a reader that neither shake hands, nor start the writer, nor end. */
  lemma PeerRestsHere(y: System, p: PeerId, a: PeerStep)
    requires PeerEnabled(y, p, a) && !a.Acknowledge? && !a.Adopt? && !a.LeaveRead? && !a.Close?
    ensures Rests(y, PeerAct(y, p, a))
  {
    hide PeerAct, AddonAfterPeer;
    PeerFields(y, p, a);
  }

  /** A reader on its way out starts no writer any more. */
  lemma ReaderEnds(y: System, p: PeerId, a: PeerStep)
    requires OnceInv(y) && PeerEnabled(y, p, a) && (a.LeaveRead? || a.Close?)
    ensures OnceInv(PeerAct(y, p, a))
  {
    hide PeerAct, AddonAfterPeer;
    var z := PeerAct(y, p, a);
    PeerFields(y, p, a);
    forall d | d in y.conns && Unstarted(y, d) ensures Unstarted(z, d) { }
  }

  lemma CallRestsHere(y: System, c: CallId, a: CallStep)
    requires CallEnabled(y, c, a)
    ensures Rests(y, CallAct(y, c, a))
  {
    hide CallAct;
    CallFields(y, c, a);
  }

  lemma AcknowledgeKeeps(y: System, p: PeerId, sid: SessionId)
    requires OnceInv(y) && PeerEnabled(y, p, Acknowledge(sid))
    ensures OnceInv(PeerAct(y, p, Acknowledge(sid)))
  {
    hide PeerAct, AddonAfterPeer;
    var z := PeerAct(y, p, Acknowledge(sid));
    PeerFields(y, p, Acknowledge(sid));
    assert Unstarted(y, sid);
    forall d | d in y.conns && Unstarted(y, d) ensures Unstarted(z, d) { }
  }

  /** The reader that takes up a session starts its writer, once. */
  lemma AdoptKeeps(y: System, p: PeerId, sid: SessionId)
    requires OnceInv(y) && PeerEnabled(y, p, Adopt(sid))
    ensures OnceInv(PeerAct(y, p, Adopt(sid)))
  {
    hide PeerAct, AddonAfterPeer;
    var z := PeerAct(y, p, Adopt(sid));
    PeerFields(y, p, Adopt(sid));
    assert Unstarted(y, sid);
    forall d | d in y.conns && d != sid && Unstarted(y, d) ensures Unstarted(z, d) { }
  }

  lemma TakeKeeps(y: System, sid: SessionId)
    requires OnceInv(y) && WriterEnabled(y, sid, TakeFrame)
    ensures OnceInv(WriterAct(y, sid, TakeFrame))
  {
    hide WriterAct;
    var z := WriterAct(y, sid, TakeFrame);
    PullShape(y, sid);
    WriterLeavesReaders(y, sid, TakeFrame);
    assert !Unstarted(y, sid);
    forall d | d in y.conns && Unstarted(y, d) ensures Unstarted(z, d) { }
  }

  lemma WriterLeavesReaders(y: System, sid: SessionId, a: WriterStep)
    requires WriterEnabled(y, sid, a)
    ensures var z := WriterAct(y, sid, a);
            && z.conns.Keys == y.conns.Keys
            && (forall d | d in y.conns ::
                  && z.conns[d].pc == y.conns[d].pc && z.conns[d].reader == y.conns[d].reader
                  && (z.conns[d].writer ==> y.conns[d].writer))
            && (a.Die? ==> !z.conns[sid].writer)
  {
    hide WriterAct;
    WriterFields(y, sid, a);
  }

  lemma SettleKeepsOnce(y: System, sid: SessionId, a: WriterStep)
    requires HandsInv(y) && OnceInv(y) && WriterEnabled(y, sid, a) && !a.TakeFrame? && !a.Shut?
    ensures OnceInv(WriterAct(y, sid, a))
  {
    var z := WriterAct(y, sid, a);
    SettleShape(y, sid, a);
    WriterLeavesReaders(y, sid, a);
    hide WriterAct;
    assert forall k | 0 <= k < |y.past.pulls| :: z.past.pulls[k].conn == y.past.pulls[k].conn;
    forall d | d in y.conns && Unstarted(y, d) ensures Unstarted(z, d) { }
    SettleKeepsLast(y, z, sid, a);
  }

  lemma SettleKeepsLast(y: System, z: System, sid: SessionId, a: WriterStep)
    requires HandsInv(y) && LastInv(y) && sid in y.conns && z.past.pulls == Fated(y.past.pulls, sid, FateOf(a))
    requires z.conns.Keys == y.conns.Keys && forall d | d in y.conns :: z.conns[d].writer ==> y.conns[d].writer
    requires !a.TakeFrame? && !a.Shut? && (a.Die? ==> !z.conns[sid].writer)
    ensures LastInv(z)
  {
  }

  lemma ShutRestsHere(y: System, sid: SessionId)
    requires WriterEnabled(y, sid, Shut)
    ensures Rests(y, WriterAct(y, sid, Shut))
  {
    hide WriterAct;
    WriterFields(y, sid, Shut);
  }

  lemma KnownParts(y: System)
    requires Known(y)
    ensures HandsInv(y)
  {
  }

  lemma StepKeepsOnce(y: System, a: Step)
    requires HandsInv(y) && OnceInv(y) && Enabled(y, a)
    ensures OnceInv(Act(y, a))
  {
    hide HandsInv, OnceInv, ServerAct, PeerAct, WriterAct, CallAct, Rests;
    match a
    case Server(sid, s) => ServerRestsHere(y, sid, s); RestsKeep(y, ServerAct(y, sid, s));
    case Main(p, s) =>
      if s.Acknowledge? { AcknowledgeKeeps(y, p, s.session); }
      else if s.Adopt? { AdoptKeeps(y, p, s.session); }
      else if s.LeaveRead? || s.Close? { ReaderEnds(y, p, s); }
      else { PeerRestsHere(y, p, s); RestsKeep(y, PeerAct(y, p, s)); }
    case Writer(sid, s) =>
      if s.TakeFrame? { TakeKeeps(y, sid); }
      else if s.Shut? { ShutRestsHere(y, sid); RestsKeep(y, WriterAct(y, sid, s)); }
      else { SettleKeepsOnce(y, sid, s); }
    case Caller(c, s) => CallRestsHere(y, c, s); RestsKeep(y, CallAct(y, c, s));
  }

  lemma {:induction false} RunKeepsOnce(y: System, steps: seq<Step>)
    requires Known(y) && OnceInv(y) && Runs(y, steps)
    ensures OnceInv(After(y, steps))
    decreases |steps|
  {
    if steps == [] {
    } else {
      hide Known, OnceInv, HandsInv, Act, Enabled;
      KnownParts(y);
      StepKeepsOnce(y, steps[0]);
      StepKeepsKnown(y, steps[0]);
      RunKeepsOnce(Act(y, steps[0]), steps[1..]);
    }
  }

  lemma InitialOnce(y: System)
    requires Initial(y)
    ensures OnceInv(y)
  {
  }

  /** Over every run, a connection loses at most one frame, and it is the last its writer took. */
  lemma OneLossPerConnection(start: System, steps: seq<Step>)
    requires Initial(start) && Runs(start, steps)
    ensures var y := After(start, steps);
            && (forall j, k | 0 <= k < j < |y.past.pulls| && y.past.pulls[k].fate.Gone? ::
                  y.past.pulls[j].conn != y.past.pulls[k].conn)
            && (forall k | 0 <= k < |y.past.pulls| && y.past.pulls[k].fate.Gone? ::
                  y.past.pulls[k].conn in y.conns && !y.conns[y.past.pulls[k].conn].writer)
  {
    InitialKnown(start);
    InitialOnce(start);
    hide Known, Initial;
    RunKeepsOnce(start, steps);
  }
}
