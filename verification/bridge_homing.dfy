/** Every way home can be followed to its end: without any caller's help the answer arrives and takes the entry out. */
module BridgeHoming {
  import opened Wrappers
  import opened Pending
  import opened Bridge
  import opened BridgeFields
  import opened BridgeWaiters
  import opened BridgeFailing
  import opened BridgeAnswers
  import opened BridgePast
  import opened BridgeWays
  import A = AddOn
  import G = BridgeForGood

  // ---------------------------------------------------------------------------
  // How far a spot is from home
  // ---------------------------------------------------------------------------

  function Rank(s: Spot): nat
  {
    match s
    case Outbound(_, _) => 6
    case Wire(_, _) => 5
    case Inbox(_, _) => 4
    case Dispatch(_) => 3
    case Outbox(_, _) => 2
    case Hand(_) => 1
    case Up(_, _) => 0
  }

  /** How much stands before it. */
  function Place(y: System, s: Spot): nat
  {
    match s
    case Outbound(_, i) => i
    case Wire(_, i) => i
    case Inbox(_, i) => i
    case Dispatch(p) => if p in y.peers then |y.peers[p].addon.outbox| else 0
    case Outbox(_, i) => i
    case Hand(_) => 0
    case Up(_, i) => i
  }

  /** Whether the reader, or the writer, has still to start. */
  function Unready(y: System, sid: SessionId, s: Spot): nat
  {
    if sid !in y.conns then 0
    else
      var c := y.conns[sid];
      match s
      case Wire(_, _) => if c.reader.Shaken? then 1 else 0
      case Dispatch(_) => if c.writer then 0 else 1
      case Outbox(_, _) => if c.writer then 0 else 1
      case _ => 0
  }

  /** What has to be cleared away first. */
  function Clutter(y: System, sid: SessionId, s: Spot): nat
  {
    if sid !in y.conns then 0
    else
      var c := y.conns[sid];
      match s
      case Wire(_, _) =>
        if c.peer in y.peers then 2 * |y.peers[c.peer].addon.inbox| + (if y.peers[c.peer].addon.busy.Some? then 1 else 0) else 0
      case Inbox(p, _) => if p in y.peers && y.peers[p].addon.busy.Some? then 1 else 0
      case Dispatch(_) => if c.hand.Some? then 1 else 0
      case Outbox(_, _) => if c.hand.Some? then 1 else 0
      case Up(_, _) => if c.pc.Reading? then 0 else 1
      case _ => 0
  }

  ghost predicate Nearer(y: System, s: Spot, z: System, t: Spot, sid: SessionId)
  {
    || Rank(t) < Rank(s)
    || (Rank(t) == Rank(s)
        && (|| Place(z, t) < Place(y, s)
            || (Place(z, t) == Place(y, s)
                && (|| Unready(z, sid, t) < Unready(y, sid, s)
                    || (Unready(z, sid, t) == Unready(y, sid, s) && Clutter(z, sid, t) < Clutter(y, sid, s))))))
  }

  /** The step brings it from `s` to `t`, and nearer. */
  ghost predicate Brings(y: System, a: Step, sid: SessionId, s: Spot, t: Spot, id: RequestId)
  {
    && Enabled(y, a) && Spares(a, sid, s) && Way(Act(y, a), sid, t, id) && Nearer(y, s, Act(y, a), t, sid)
  }

  /** No step of a caller, nor one that reads the thing itself or fails a session but the one replaced. */
  predicate Spares(a: Step, sid: SessionId, s: Spot)
  {
    && !a.Caller?
    && (a.Server? ==> a.session == sid && (a.s.Transmit? || a.s.ReadFrame? || a.s.RestoreStray? || a.s.FailPrevious?))
    && (a.Server? && a.s.ReadFrame? ==> s.Up? && s.i > 0)
  }

  // ---------------------------------------------------------------------------
  // One step nearer
  // ---------------------------------------------------------------------------

  lemma FromOutbound(y: System, sid: SessionId, i: nat, id: RequestId) returns (t: Spot)
    requires Way(y, sid, Outbound(sid, i), id)
    ensures Brings(y, Server(sid, Transmit), sid, Outbound(sid, i), t, id)
  {
    hide ServerAct, TableAfterServer, BroadcastAfterServer, PastAfterServer;
    t := if i == 0 then Wire(sid, |y.conns[sid].down|) else Outbound(sid, i - 1);
    ServerFields(y, sid, Transmit);
  }

  /** Taking up the session starts its reader and its writer. */
  lemma Adopting(y: System, sid: SessionId, s: Spot, id: RequestId)
    requires Way(y, sid, s, id) && (s.Wire? || s.Dispatch? || s.Outbox?)
    requires y.conns[sid].reader.Shaken? && (s.Wire? || !y.conns[sid].writer)
    ensures Brings(y, Main(y.conns[sid].peer, Adopt(sid)), sid, s, s, id)
  {
    hide PeerAct, RunsAfterPeer, EmittedAfterPeer;
    PeerFields(y, y.conns[sid].peer, Adopt(sid));
  }

  lemma FromWire(y: System, sid: SessionId, i: nat, id: RequestId) returns (a: Step, t: Spot)
    requires Way(y, sid, Wire(sid, i), id)
    ensures Brings(y, a, sid, Wire(sid, i), t, id)
  {
    var p := y.conns[sid].peer;
    var addon := y.peers[p].addon;
    if y.conns[sid].reader.Shaken? {
      a, t := Main(p, Adopt(sid)), Wire(sid, i);
      Adopting(y, sid, t, id);
    } else if i > 0 || |addon.inbox| < A.INBOX_MAX {
      a := Main(p, ReadRequest(sid));
      t := ReadingOn(y, sid, i, id);
    } else {
      a, t := if addon.busy.Some? then Main(p, Finish(Ok(0))) else Main(p, TakeRequest), Wire(sid, i);
      MakingRoom(y, sid, i, id);
    }
  }

  lemma ReadingOn(y: System, sid: SessionId, i: nat, id: RequestId) returns (t: Spot)
    requires Way(y, sid, Wire(sid, i), id) && y.conns[sid].reader.Serving?
    requires i > 0 || |y.peers[y.conns[sid].peer].addon.inbox| < A.INBOX_MAX
    ensures Brings(y, Main(y.conns[sid].peer, ReadRequest(sid)), sid, Wire(sid, i), t, id)
  {
    hide PeerAct, A.ReadRequest, RunsAfterPeer, EmittedAfterPeer;
    var p := y.conns[sid].peer;
    PeerFields(y, p, ReadRequest(sid));
    ReadShape(y.peers[p].addon, y.conns[sid].down[0]);
    t := if i == 0 then Inbox(p, |y.peers[p].addon.inbox|) else Wire(sid, i - 1);
  }

  lemma MakingRoom(y: System, sid: SessionId, i: nat, id: RequestId)
    requires Way(y, sid, Wire(sid, i), id) && |y.peers[y.conns[sid].peer].addon.inbox| > 0
    ensures var p := y.conns[sid].peer;
            Brings(y, if y.peers[p].addon.busy.Some? then Main(p, Finish(Ok(0))) else Main(p, TakeRequest), sid,
                   Wire(sid, i), Wire(sid, i), id)
  {
    hide PeerAct, A.Answer, EmittedAfterPeer, RunsAfterPeer;
    var p := y.conns[sid].peer;
    if y.peers[p].addon.busy.Some? {
      PeerFields(y, p, Finish(Ok(0)));
      AnswerShape(y.peers[p].addon, Ok(0));
    } else {
      PeerFields(y, p, TakeRequest);
    }
  }

  lemma FromInbox(y: System, sid: SessionId, p: PeerId, i: nat, id: RequestId) returns (a: Step, t: Spot)
    requires Way(y, sid, Inbox(p, i), id)
    ensures Brings(y, a, sid, Inbox(p, i), t, id)
  {
    hide PeerAct, A.Answer, EmittedAfterPeer, RunsAfterPeer;
    if y.peers[p].addon.busy.Some? {
      a, t := Main(p, Finish(Ok(0))), Inbox(p, i);
      PeerFields(y, p, Finish(Ok(0)));
      AnswerShape(y.peers[p].addon, Ok(0));
    } else {
      a, t := Main(p, TakeRequest), if i == 0 then Dispatch(p) else Inbox(p, i - 1);
      PeerFields(y, p, TakeRequest);
    }
  }

  lemma Finishing(y: System, sid: SessionId, p: PeerId, id: RequestId)
    requires Way(y, sid, Dispatch(p), id) && |y.peers[p].addon.outbox| < A.OUTBOX_MAX
    ensures Brings(y, Main(p, Finish(Ok(0))), sid, Dispatch(p), Outbox(p, |y.peers[p].addon.outbox|), id)
  {
    hide PeerAct, EmittedAfterPeer, RunsAfterPeer;
    PeerFields(y, p, Finish(Ok(0)));
  }

  /** The writer is rid of what it holds: a response is written, anything else left out. */
  lemma Settling(y: System, sid: SessionId, s: Spot, id: RequestId)
    requires Way(y, sid, s, id) && (s.Dispatch? || s.Outbox?) && y.conns[sid].writer && y.conns[sid].hand.Some?
    ensures Brings(y, Writer(sid, if y.conns[sid].hand.value.Response? then WriteFrame else WriteTooLarge), sid, s, s, id)
  {
    hide WriterAct, PastAfterWriter;
    WriterFields(y, sid, if y.conns[sid].hand.value.Response? then WriteFrame else WriteTooLarge);
  }

  lemma Pulling(y: System, sid: SessionId, s: Spot, id: RequestId) returns (t: Spot)
    requires Way(y, sid, s, id) && (s.Dispatch? || s.Outbox?) && y.conns[sid].writer && y.conns[sid].hand.None?
    requires y.peers[y.conns[sid].peer].addon.outbox != []
    ensures Brings(y, Writer(sid, TakeFrame), sid, s, t, id)
  {
    hide WriterAct, PastAfterWriter;
    WriterFields(y, sid, TakeFrame);
    t := if s.Dispatch? then s else if s.i == 0 then Hand(sid) else Outbox(s.peer, s.i - 1);
  }

  lemma Draining(y: System, sid: SessionId, s: Spot, id: RequestId) returns (a: Step, t: Spot)
    requires Way(y, sid, s, id) && (s.Dispatch? || s.Outbox?) && y.peers[y.conns[sid].peer].addon.outbox != []
    ensures Brings(y, a, sid, s, t, id)
  {
    hide Brings;
    var c := y.conns[sid];
    if !c.writer {
      a, t := Main(c.peer, Adopt(sid)), s;
      Adopting(y, sid, s, id);
    } else if c.hand.Some? {
      a, t := Writer(sid, if c.hand.value.Response? then WriteFrame else WriteTooLarge), s;
      Settling(y, sid, s, id);
    } else {
      a := Writer(sid, TakeFrame);
      t := Pulling(y, sid, s, id);
    }
  }

  lemma FromHand(y: System, sid: SessionId, id: RequestId)
    requires Way(y, sid, Hand(sid), id) && y.conns[sid].writer
    ensures Brings(y, Writer(sid, WriteFrame), sid, Hand(sid), Up(sid, |y.conns[sid].up|), id)
  {
    hide WriterAct, PastAfterWriter;
    WriterFields(y, sid, WriteFrame);
  }

  /** The task gets on with reading; the frames ahead do not end its loop. */
  lemma FromUp(y: System, sid: SessionId, i: nat, id: RequestId) returns (a: Step, t: Spot)
    requires Way(y, sid, Up(sid, i), id) && (i > 0 || !y.conns[sid].pc.Reading?)
    ensures Brings(y, a, sid, Up(sid, i), t, id)
  {
    hide ServerAct, TableAfterServer, BroadcastAfterServer, PastAfterServer;
    var c := y.conns[sid];
    var s := if c.pc.Reading? then ReadFrame else if c.pc.HoldingStray? then RestoreStray else FailPrevious;
    a, t := Server(sid, s), if c.pc.Reading? then Up(sid, i - 1) else Up(sid, i);
    ServerFields(y, sid, s);
  }

  lemma Nearing(y: System, sid: SessionId, s: Spot, id: RequestId) returns (a: Step, t: Spot)
    requires Way(y, sid, s, id) && (y.conns[sid].hand.Some? ==> y.conns[sid].writer)
    requires !(s.Up? && s.i == 0 && y.conns[sid].pc.Reading?)
    ensures Brings(y, a, sid, s, t, id)
  {
    hide Brings;
    match s
    case Outbound(_, i) => a := Server(sid, Transmit); t := FromOutbound(y, sid, i, id);
    case Wire(_, i) => a, t := FromWire(y, sid, i, id);
    case Inbox(p, i) => a, t := FromInbox(y, sid, p, i, id);
    case Dispatch(p) =>
      if |y.peers[p].addon.outbox| < A.OUTBOX_MAX {
        a, t := Main(p, Finish(Ok(0))), Outbox(p, |y.peers[p].addon.outbox|);
        Finishing(y, sid, p, id);
      } else {
        a, t := Draining(y, sid, s, id);
      }
    case Outbox(_, _) => a, t := Draining(y, sid, s, id);
    case Hand(_) => a, t := Writer(sid, WriteFrame), Up(sid, |y.conns[sid].up|); FromHand(y, sid, id);
    case Up(_, i) => a, t := FromUp(y, sid, i, id);
  }

  // ---------------------------------------------------------------------------
  // Home
  // ---------------------------------------------------------------------------

  /** Reading its response takes the entry of the connection's own session out of the table. */
  lemma ReadHome(y: System, sid: SessionId, id: RequestId)
    requires Way(y, sid, Up(sid, 0), id) && y.conns[sid].pc.Reading? && !Held(y, id)
    requires id in y.pending.entries ==> y.pending.entries[id].session == sid
    ensures ServerEnabled(y, sid, ReadFrame) && !InTable(ServerAct(y, sid, ReadFrame), id)
    ensures id in y.pending.entries ==> WasAnswered(ServerAct(y, sid, ReadFrame), id)
  {
    hide ServerAct, BroadcastAfterServer, PastAfterServer;
    ServerFields(y, sid, ReadFrame);
    var z := ServerAct(y, sid, ReadFrame);
    forall d ensures !HoldsStray(z, d, id) {
      if d != sid { assert HoldsStray(z, d, id) <==> HoldsStray(y, d, id); }
    }
  }

  lemma UnderWayIsNotHeld(y: System, s: Spot)
    requires Known(y) && Here(y, s)
    ensures !Held(y, IdAt(y, s))
  {
  }

  lemma HandsAreUp(y: System, sid: SessionId)
    requires Known(y) && sid in y.conns
    ensures y.conns[sid].hand.Some? ==> y.conns[sid].writer
  {
  }

  /** What spares it leaves its entry in the table. */
  lemma SparedStaysIn(y: System, a: Step, sid: SessionId, s: Spot, id: RequestId)
    requires Enabled(y, a) && Spares(a, sid, s) && Here(y, s) && IdAt(y, s) == id && (s.Up? ==> s.sid == sid)
    requires id in y.pending.entries && y.pending.entries[id].session == sid && Known(y)
    ensures id in Act(y, a).pending.entries
  {
    match a
    case Server(_, b) => OthersAreRead(y, sid, b, s, id);
    case Main(p, b) => G.PeerEntryKept(y, p, b, id);
    case Writer(d, b) => G.WriterEntryKept(y, d, b, id);
  }

  lemma OthersAreRead(y: System, sid: SessionId, b: ServerStep, s: Spot, id: RequestId)
    requires ServerEnabled(y, sid, b) && Spares(Server(sid, b), sid, s)
    requires Here(y, s) && IdAt(y, s) == id && (s.Up? ==> s.sid == sid)
    requires id in y.pending.entries && y.pending.entries[id].session == sid && Known(y)
    ensures id in ServerAct(y, sid, b).pending.entries
  {
    hide Known, ServerAct, ConnAfterServer, BroadcastAfterServer, PastAfterServer;
    ServerFields(y, sid, b);
    if b.ReadFrame? && y.conns[sid].up[0].Response? && y.conns[sid].up[0].id == id {
      assert Here(y, Up(sid, 0)) && IdAt(y, Up(sid, 0)) == id;
      OneOnly(y, s, Up(sid, 0));
    }
    if b.FailPrevious? { NotItsOwn(y, sid); }
  }

  lemma OneOnly(y: System, s: Spot, t: Spot)
    requires Known(y) && Here(y, s) && Here(y, t) && IdAt(y, s) == IdAt(y, t)
    ensures s == t
  {
  }

  lemma NotItsOwn(y: System, sid: SessionId)
    requires Known(y) && ServerEnabled(y, sid, FailPrevious)
    ensures y.conns[sid].pc.previous != sid
  {
  }

  /** Without any caller's help an answer that can come home does, and takes its entry out. */
  lemma {:induction false} ComesHome(y: System, sid: SessionId, s: Spot, id: RequestId) returns (later: seq<Step>)
    requires Way(y, sid, s, id) && id in y.past.sessions && y.past.sessions[id] == sid && Known(y)
    ensures Runs(y, later) && G.Unaided(later) && !InTable(After(y, later), id)
    ensures id in y.pending.entries ==> WasAnswered(After(y, later), id)
    decreases Rank(s), Place(y, s), Unready(y, sid, s), Clutter(y, sid, s)
  {
    hide Known, Act, Enabled, Runs, After, Here, IdAt, Leads, InTable, Held, Rank, Place, Unready, Clutter, ServerAct;
    hide ServerEnabled, WasAnswered;
    WayIsHere(y, sid, s, id);
    if s.Up? && s.i == 0 && y.conns[sid].pc.Reading? {
      AtTheDoor(y, sid, s, id);
      later := [Server(sid, ReadFrame)];
      G.One(y, Server(sid, ReadFrame));
    } else {
      HandsAreUp(y, sid);
      var a, t := Nearing(y, sid, s, id);
      var z := Act(y, a);
      StepKeepsKnown(y, a);
      KnownSession(y, a, id);
      if id in y.pending.entries {
        G.SessionOfEntry(y, id);
        SparedStaysIn(y, a, sid, s, id);
      }
      var rest := ComesHome(z, sid, t, id);
      later := [a] + rest;
      G.Prepend(y, a, rest);
    }
  }

  lemma WayIsHere(y: System, sid: SessionId, s: Spot, id: RequestId)
    requires Way(y, sid, s, id)
    ensures sid in y.conns && (s.Up? ==> s.sid == sid)
  {
  }

  lemma AtTheDoor(y: System, sid: SessionId, s: Spot, id: RequestId)
    requires Way(y, sid, s, id) && s.Up? && s.i == 0 && y.conns[sid].pc.Reading?
    requires id in y.past.sessions && y.past.sessions[id] == sid && Known(y)
    ensures Enabled(y, Server(sid, ReadFrame)) && !InTable(Act(y, Server(sid, ReadFrame)), id)
    ensures id in y.pending.entries ==> WasAnswered(Act(y, Server(sid, ReadFrame)), id)
  {
    hide Known, ServerAct, InTable, Held;
    UnderWayIsNotHeld(y, s);
    if id in y.pending.entries { G.SessionOfEntry(y, id); }
    ReadHome(y, sid, id);
  }
}
