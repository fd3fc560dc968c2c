/** Events end to end: every one emitted is offered to the outbox, and one that stands on its own session's open connection
    comes across and is broadcast. */
module BridgeEvents {
  import opened Wrappers
  import opened Pending
  import opened Bridge
  import opened BridgeFields
  import opened BridgeAnswers
  import opened BridgePast
  import opened BridgeWays
  import A = AddOn
  import G = BridgeForGood
  import H = BridgeHoming
  import S = BridgeSlot

  // ---------------------------------------------------------------------------
  // What an add-on offers
  // ---------------------------------------------------------------------------

  /** What a step of add-on `p` has for its outbox. */
  function DueFrom(y: System, p: PeerId, a: PeerStep): seq<A.Frame>
    requires PeerEnabled(y, p, a)
  {
    var s := y.peers[p].addon;
    match a
    case ReadRequest(sid) =>
      if |s.inbox| >= A.INBOX_MAX then [A.Response(y.conns[sid].down[0].id, Err(RATE_LIMITED))] else []
    case Finish(body) => [A.Response(s.busy.value.id, body)]
    case Emit(payload) => if s.session.Some? then [A.Event(s.session.value, s.revision, payload)] else []
    case ReportFatal => [A.Fatal]
    case _ => []
  }

  /** What had been offered since add-on `p` last emptied its queues, after one more step. */
  function OfferedAfter(y: System, a: Step, p: PeerId, before: seq<A.Frame>): seq<A.Frame>
    requires Enabled(y, a)
  {
    if !(a.Main? && a.peer == p) then before
    else if a.p.Clear? then [] else before + DueFrom(y, p, a.p)
  }

  ghost function OfferedBy(y: System, steps: seq<Step>, p: PeerId, before: seq<A.Frame>): seq<A.Frame>
    requires Runs(y, steps)
    decreases |steps|
  {
    if steps == [] then before
    else OfferedBy(Act(y, steps[0]), steps[1..], p, OfferedAfter(y, steps[0], p, before))
  }

  /** A step of the add-on does to the session, the revision and the request in dispatch what it is named for, and no more. */
  lemma PeerStepDoes(y: System, p: PeerId, a: PeerStep)
    requires PeerEnabled(y, p, a)
    ensures var s, z := y.peers[p].addon, PeerAct(y, p, a);
            && p in z.peers
            && var t := z.peers[p].addon;
               && A.Offered(t.log.tried) == (if a.Clear? then [] else A.Offered(s.log.tried) + DueFrom(y, p, a))
               && t.session == (if a.Adopt? then Some(a.session) else if a.LeaveRead? then None else s.session)
               && t.revision == s.revision + (if a.BumpRevision? then 1 else 0)
               && t.busy == (if a.TakeRequest? then Some(s.inbox[0]) else if a.Finish? then None else s.busy)
  {
    hide PeerAct, ConnsAfterPeer, RunsAfterPeer, EmittedAfterPeer, A.Act, A.Offered;
    PeerFields(y, p, a);
    var b := AddonAction(y, p, a);
    if b.Some? {
      A.StepOffersWhatIsDue(y.peers[p].addon, b.value);
      A.StepDoesNoMore(y.peers[p].addon, b.value);
    }
    assert A.Offered(y.peers[p].addon.log.tried) + [] == A.Offered(y.peers[p].addon.log.tried);
  }

  lemma StepOffers(y: System, a: Step, p: PeerId)
    requires Enabled(y, a) && p in y.peers
    ensures var z := Act(y, a);
            && p in z.peers
            && A.Offered(z.peers[p].addon.log.tried) == OfferedAfter(y, a, p, A.Offered(y.peers[p].addon.log.tried))
  {
    hide ServerAct, PeerAct, WriterAct, CallAct, A.Offered;
    match a
    case Main(q, s) => PeerStepDoes(y, q, s); S.PeerMovesOneAddon(y, q, s);
    case Writer(sid, s) => WriterFields(y, sid, s);
    case _ => S.OthersMoveNoAddon(y, a);
  }

  /** Over every run: what an add-on was offered to send since it last emptied its queues is, in order, a response for each
      request finished or refused, an event for each emission under a session, with the session and revision of that moment,
      and each fatal frame. Nothing is left out and nothing else is there. */
  lemma {:induction false} AllIsOffered(y: System, steps: seq<Step>, p: PeerId)
    requires Runs(y, steps) && p in y.peers
    ensures p in After(y, steps).peers
    ensures A.Offered(After(y, steps).peers[p].addon.log.tried)
         == OfferedBy(y, steps, p, A.Offered(y.peers[p].addon.log.tried))
    decreases |steps|
  {
    hide Act, Enabled, OfferedAfter, A.Offered;
    if steps != [] {
      StepOffers(y, steps[0], p);
      AllIsOffered(Act(y, steps[0]), steps[1..], p);
    }
  }

  // ---------------------------------------------------------------------------
  // One event on its way
  // ---------------------------------------------------------------------------

  /** Where an event can stand on its way across connection `sid`. */
  datatype Seat = InOutbox(i: nat) | AtHand | InUp(i: nat)

  ghost predicate Stands(y: System, sid: SessionId, s: Seat, f: A.Frame)
  {
    && sid in y.conns && Attentive(y.conns[sid].pc)
    && var c := y.conns[sid];
       match s
       case InOutbox(i) => Carrying(y, sid) && i < |y.peers[c.peer].addon.outbox| && y.peers[c.peer].addon.outbox[i] == f
       case AtHand => c.hand == Some(f) && c.open && Harmless(c.up, |c.up|)
       case InUp(i) => i < |c.up| && c.up[i] == f && Harmless(c.up, i)
  }

  function Rank(s: Seat): nat
  {
    match s
    case InOutbox(_) => 2
    case AtHand => 1
    case InUp(_) => 0
  }

  function Place(s: Seat): nat
  {
    if s.AtHand? then 0 else s.i
  }

  function Unready(y: System, sid: SessionId, s: Seat): nat
  {
    if s.InOutbox? && sid in y.conns && !y.conns[sid].writer then 1 else 0
  }

  function Clutter(y: System, sid: SessionId, s: Seat): nat
  {
    if sid !in y.conns then 0
    else
      match s
      case InOutbox(_) => if y.conns[sid].hand.Some? then 1 else 0
      case AtHand => 0
      case InUp(_) => if y.conns[sid].pc.Reading? then 0 else 1
  }

  ghost predicate Brings(y: System, a: Step, sid: SessionId, s: Seat, t: Seat, f: A.Frame)
  {
    && Enabled(y, a) && !a.Caller? && Stands(Act(y, a), sid, t, f)
    && var z := Act(y, a);
       || Rank(t) < Rank(s)
       || (Rank(t) == Rank(s)
           && (|| Place(t) < Place(s)
               || (Place(t) == Place(s)
                   && (|| Unready(z, sid, t) < Unready(y, sid, s)
                       || (Unready(z, sid, t) == Unready(y, sid, s) && Clutter(z, sid, t) < Clutter(y, sid, s))))))
  }

  lemma FromOutbox(y: System, sid: SessionId, i: nat, f: A.Frame) returns (a: Step, t: Seat)
    requires Stands(y, sid, InOutbox(i), f)
    ensures Brings(y, a, sid, InOutbox(i), t, f)
  {
    var c := y.conns[sid];
    if !c.writer {
      a, t := Main(c.peer, Adopt(sid)), InOutbox(i);
      Adopting(y, sid, i, f);
    } else {
      var s := if c.hand.None? then TakeFrame else if c.hand.value.Response? then WriteFrame else WriteTooLarge;
      a, t := Writer(sid, s), if c.hand.Some? then InOutbox(i) else if i == 0 then AtHand else InOutbox(i - 1);
      Writing(y, sid, i, f, s, t);
    }
  }

  lemma Adopting(y: System, sid: SessionId, i: nat, f: A.Frame)
    requires Stands(y, sid, InOutbox(i), f) && !y.conns[sid].writer
    ensures Brings(y, Main(y.conns[sid].peer, Adopt(sid)), sid, InOutbox(i), InOutbox(i), f)
  {
    hide PeerAct, RunsAfterPeer, EmittedAfterPeer;
    PeerFields(y, y.conns[sid].peer, Adopt(sid));
  }

  lemma Writing(y: System, sid: SessionId, i: nat, f: A.Frame, s: WriterStep, t: Seat)
    requires Stands(y, sid, InOutbox(i), f) && y.conns[sid].writer
    requires var c := y.conns[sid];
             && s == (if c.hand.None? then TakeFrame else if c.hand.value.Response? then WriteFrame else WriteTooLarge)
             && t == if c.hand.Some? then InOutbox(i) else if i == 0 then AtHand else InOutbox(i - 1)
    ensures Brings(y, Writer(sid, s), sid, InOutbox(i), t, f)
  {
    hide WriterAct, PastAfterWriter;
    WriterFields(y, sid, s);
  }

  lemma FromHand(y: System, sid: SessionId, f: A.Frame)
    requires Stands(y, sid, AtHand, f) && y.conns[sid].writer
    ensures Brings(y, Writer(sid, WriteFrame), sid, AtHand, InUp(|y.conns[sid].up|), f)
  {
    hide WriterAct, PastAfterWriter;
    WriterFields(y, sid, WriteFrame);
  }

  lemma FromUp(y: System, sid: SessionId, i: nat, f: A.Frame) returns (a: Step, t: Seat)
    requires Stands(y, sid, InUp(i), f) && (i > 0 || !y.conns[sid].pc.Reading?)
    ensures Brings(y, a, sid, InUp(i), t, f)
  {
    hide ServerAct, TableAfterServer, BroadcastAfterServer, PastAfterServer;
    var c := y.conns[sid];
    var s := if c.pc.Reading? then ReadFrame else if c.pc.HoldingStray? then RestoreStray else FailPrevious;
    a, t := Server(sid, s), if c.pc.Reading? then InUp(i - 1) else InUp(i);
    ServerFields(y, sid, s);
  }

  /** An event of the connection's own session is broadcast when it is read. */
  lemma ReadIsBroadcast(y: System, sid: SessionId, f: A.Frame)
    requires Stands(y, sid, InUp(0), f) && y.conns[sid].pc.Reading? && f.Event? && f.session == sid
    ensures Enabled(y, Server(sid, ReadFrame))
    ensures Act(y, Server(sid, ReadFrame)).broadcast == y.broadcast + [Broadcast(sid, f)]
  {
    hide ServerAct, TableAfterServer, ConnAfterServer;
    ServerFields(y, sid, ReadFrame);
  }

  /** What stands on its own session's connection, which takes writes and is read, comes across without any caller's help. */
  lemma {:induction false} EventComesAcross(y: System, sid: SessionId, s: Seat, f: A.Frame) returns (later: seq<Step>)
    requires Stands(y, sid, s, f) && f.Event? && f.session == sid && Known(y)
    ensures Runs(y, later) && G.Unaided(later) && Broadcast(sid, f) in After(y, later).broadcast
    decreases Rank(s), Place(s), Unready(y, sid, s), Clutter(y, sid, s)
  {
    hide Known, Act, Enabled, Runs, After, Carrying, Harmless, Attentive, Rank, Place, Unready, Clutter;
    if s.InUp? && s.i == 0 && y.conns[sid].pc.Reading? {
      var a := Server(sid, ReadFrame);
      ReadIsBroadcast(y, sid, f);
      later := [a];
      G.One(y, a);
    } else {
      H.HandsAreUp(y, sid);
      var a, t;
      match s {
        case InOutbox(i) => a, t := FromOutbox(y, sid, i, f);
        case AtHand => a, t := Writer(sid, WriteFrame), InUp(|y.conns[sid].up|); FromHand(y, sid, f);
        case InUp(i) => a, t := FromUp(y, sid, i, f);
      }
      StepKeepsKnown(y, a);
      var rest := EventComesAcross(Act(y, a), sid, t, f);
      later := [a] + rest;
      G.Prepend(y, a, rest);
    }
  }

  /** An event emitted while its add-on is attached, with room in the outbox and its connection taking writes and being read, is
      broadcast in some continuation, as it was emitted. */
  lemma EmittedCanBeBroadcast(y: System, p: PeerId, sid: SessionId, payload: int) returns (later: seq<Step>)
    requires p in y.peers && y.peers[p].addon.session == Some(sid) && |y.peers[p].addon.outbox| < A.OUTBOX_MAX
    requires Dials(y, p, sid) && Attentive(y.conns[sid].pc) && Carrying(y, sid) && Known(y)
    ensures Runs(y, [Main(p, Emit(payload))] + later) && G.Unaided(later)
    ensures Broadcast(sid, A.Event(sid, y.peers[p].addon.revision, payload))
         in After(y, [Main(p, Emit(payload))] + later).broadcast
  {
    hide Known, Act, Runs, After;
    var a := Main(p, Emit(payload));
    EmittedStands(y, p, sid, payload);
    StepKeepsKnown(y, a);
    later := EventComesAcross(Act(y, a), sid, InOutbox(|y.peers[p].addon.outbox|),
                              A.Event(sid, y.peers[p].addon.revision, payload));
    G.Prepend(y, a, later);
  }

  lemma EmittedStands(y: System, p: PeerId, sid: SessionId, payload: int)
    requires p in y.peers && y.peers[p].addon.session == Some(sid) && |y.peers[p].addon.outbox| < A.OUTBOX_MAX
    requires Dials(y, p, sid) && Attentive(y.conns[sid].pc) && Carrying(y, sid)
    ensures Enabled(y, Main(p, Emit(payload)))
    ensures Stands(Act(y, Main(p, Emit(payload))), sid, InOutbox(|y.peers[p].addon.outbox|),
                   A.Event(sid, y.peers[p].addon.revision, payload))
  {
    hide PeerAct, RunsAfterPeer, EmittedAfterPeer;
    PeerFields(y, p, Emit(payload));
  }
}
