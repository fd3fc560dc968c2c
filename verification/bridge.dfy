/** The bridge end to end: callers, the server's connection tasks, the wire, and any number of add-ons,
    interleaved arbitrarily, with connections replaced, cut, and outlived by queues. */
module Bridge {
  import opened Wrappers
  import opened Pending
  import A = AddOn

  type PeerId = nat
  type CallId = nat

  /** Where the server's task for one connection stands. */
  datatype Pc =
    | Offered
    | Acked
    | FailingPrevious(previous: SessionId)
    | Reading
    | HoldingStray(id: RequestId, entry: Entry)
    | Ending
    | FailingOwn
    | Aborting
    | Finished

  /** Where the add-on's reader thread for one connection stands: dialling in, past the handshake, reading, leaving, or done. */
  datatype Reader = Dialled | Shaken | Serving | Leaving | Closed

  /** One connection: its task, the queue into its writer task, the bytes in flight each way, and the add-on's two threads for
      it, the writer with the frame it holds. `open` says the add-on's end of the socket still takes writes. */
  datatype Conn = Conn(peer: PeerId, pc: Pc, accepting: bool, outbound: seq<A.Request>, down: seq<A.Request>,
                       up: seq<A.Frame>, open: bool, reader: Reader, writer: bool, hand: Option<A.Frame>)

  /** One Blender: the state its threads share. One reader thread may still run when the next has started. */
  datatype Peer = Peer(addon: A.State)

  datatype Result = Reply(body: Body) | Lost | TimedOut

  datatype Call =
    | Picked(session: SessionId, op: nat)
    | Registered(id: RequestId, session: SessionId, op: nat)
    | Awaiting(id: RequestId, op: nat)
    | SendFailed(id: RequestId, op: nat)
    | Expired(id: RequestId, op: nat)
    | Done(id: RequestId, op: nat, result: Result)

  datatype Run = Run(id: RequestId, op: nat, body: Body)
  datatype Broadcast = Broadcast(conn: SessionId, event: A.Frame)
  datatype Emission = Emission(peer: PeerId, event: A.Frame)

  /** What had been registered, and what tasks held as strays, when a session's requests were failed. */
  datatype Failing = Failing(known: set<RequestId>, held: set<RequestId>)

  /** What became of a frame a writer thread took from the outbox. */
  datatype Fate = InHand | Crossed | TooBig | Gone

  datatype Pull = Pull(peer: PeerId, conn: SessionId, frame: A.Frame, fate: Fate)

  /** The session of every request registered, every failing of a session, and every frame a writer thread took. */
  datatype Past = Past(sessions: map<RequestId, SessionId>, failed: map<SessionId, Failing>, pulls: seq<Pull>)

  /** The system. The last seven fields are history: every install, every handler run, every request handed to a writer
      task, every event emitted and broadcast, every deadline cancel that found a task holding its entry, and the past. */
  datatype System = System(
    slot: Option<SessionId>, pending: Table, calls: map<CallId, Call>, conns: map<SessionId, Conn>,
    peers: map<PeerId, Peer>,
    installed: seq<SessionId>, runs: seq<Run>, sent: map<RequestId, nat>,
    emitted: set<Emission>, broadcast: seq<Broadcast>, missed: set<RequestId>, past: Past)

  // ---------------------------------------------------------------------------
  // Steps
  // ---------------------------------------------------------------------------

  /** Steps of the server's connection tasks and writer tasks. */
  datatype ServerStep =
    | Offer(peer: PeerId)          // the add-on dials in; the server mints a session and says hello
    | Install                      // the slot takes the session
    | FailPrevious                 // requests of the session replaced are failed
    | ReadFrame                    // one frame is read and handled
    | RestoreStray                 // a stray response's entry goes back into the table
    | EndRead                      // end of stream or an I/O error
    | ClearSlot
    | FailOwn
    | Abort                        // the writer task is aborted
    | Transmit                     // the writer task puts one request on the wire
    | WriterBreak                  // the writer task ends on a fatal error

  /** Steps of an add-on's reader threads and main thread. */
  datatype PeerStep =
    | Acknowledge(session: SessionId)
    | Adopt(session: SessionId)
    | ReadRequest(session: SessionId)
    | LeaveRead(session: SessionId)
    | Close(session: SessionId)
    | Clear
    | TakeRequest
    | Finish(body: Body)
    | BumpRevision
    | Emit(payload: int)
    | ReportFatal

  /** Steps of the add-on's writer thread for one connection, and of the network. */
  datatype WriterStep =
    | TakeFrame
    | WriteFrame
    | WriteTooLarge                // the frame is replaced by an error response, or dropped when it has no request
    | Die                          // a write fails, or the thread is stopped between frames
    | Shut                         // the socket stops taking writes

  /** Steps of callers. */
  datatype CallStep =
    | Pick(op: nat)
    | Register(id: RequestId)
    | Send
    | CancelFailed
    | Receive
    | Expire                       // the deadline passes, or the caller is dropped: the receiving end is gone
    | CancelExpired

  datatype Step =
    | Server(session: SessionId, s: ServerStep)
    | Main(peer: PeerId, p: PeerStep)
    | Writer(session: SessionId, w: WriterStep)
    | Caller(call: CallId, c: CallStep)

  function SetConn(y: System, sid: SessionId, c: Conn): System
  {
    y.(conns := y.conns[sid := c])
  }

  function SetPc(y: System, sid: SessionId, pc: Pc): System
    requires sid in y.conns
  {
    SetConn(y, sid, y.conns[sid].(pc := pc))
  }

  predicate ServerEnabled(y: System, sid: SessionId, a: ServerStep)
  {
    if a.Offer? then sid !in y.conns && a.peer in y.peers
    else
      && sid in y.conns
      && var c := y.conns[sid];
         match a
         case Offer(_) => false
         case Install => c.pc.Acked?
         case FailPrevious => c.pc.FailingPrevious?
         case ReadFrame => c.pc.Reading? && c.up != []
         case RestoreStray => c.pc.HoldingStray?
         case EndRead => c.pc.Reading?
         case ClearSlot => c.pc.Ending?
         case FailOwn => c.pc.FailingOwn?
         case Abort => c.pc.Aborting?
         case Transmit => c.accepting && c.outbound != []
         case WriterBreak => c.accepting
  }

  function ServerAct(y: System, sid: SessionId, a: ServerStep): System
    requires ServerEnabled(y, sid, a)
  {
    if a.Offer? then SetConn(y, sid, Conn(a.peer, Offered, true, [], [], [], true, Dialled, false, None))
    else
      var c := y.conns[sid];
      match a
      case Install =>
        SetPc(y, sid, if y.slot.Some? then FailingPrevious(y.slot.value) else Reading)
          .(slot := Some(sid), installed := y.installed + [sid])
      case FailPrevious => FailAll(SetPc(y, sid, Reading), c.pc.previous)
      case ReadFrame => HandleFrame(SetConn(y, sid, c.(up := c.up[1..])), sid, c.up[0])
      case RestoreStray => SetPc(y, sid, Reading).(pending := PutBack(y.pending, c.pc.id, c.pc.entry))
      case EndRead => SetPc(y, sid, Ending)
      case ClearSlot =>
        if y.slot == Some(sid) then SetPc(y, sid, FailingOwn).(slot := None) else SetPc(y, sid, Aborting)
      case FailOwn => FailAll(SetPc(y, sid, Aborting), sid)
      case Abort => SetConn(y, sid, c.(pc := Finished, accepting := false, outbound := []))
      case Transmit => SetConn(y, sid, c.(outbound := c.outbound[1..], down := c.down + [c.outbound[0]]))
      case WriterBreak => SetConn(y, sid, c.(accepting := false, outbound := []))
  }

  /** The requests tasks have taken out of the table and not put back yet. */
  function HeldIds(y: System): set<RequestId>
  {
    set sid | sid in y.conns && y.conns[sid].pc.HoldingStray? :: y.conns[sid].pc.id
  }

  function Noted(y: System, d: SessionId): Past
  {
    y.past.(failed := y.past.failed[d := Failing(y.pending.cells.Keys, HeldIds(y))])
  }

  /** `fail_session`. */
  function FailAll(y: System, d: SessionId): System
  {
    y.(pending := SessionFailed(y.pending, d), past := Noted(y, d))
  }

  /** What the read loop does with one frame from connection `sid`: a response is completed, with the entry of a
      stray left in the task's hands; an event is broadcast if it names this session; a fatal frame ends the loop. */
  function HandleFrame(y: System, sid: SessionId, f: A.Frame): System
    requires sid in y.conns
  {
    SetPc(y, sid, PcAfter(y, sid, f)).(
      pending := PendingAfter(y.pending, sid, f),
      broadcast := if f.Event? && f.session == sid then y.broadcast + [Broadcast(sid, f)] else y.broadcast)
  }

  predicate IsStray(t: Table, sid: SessionId, f: A.Frame)
  {
    f.Response? && f.id in t.entries && t.entries[f.id].session != sid
  }

  function PcAfter(y: System, sid: SessionId, f: A.Frame): Pc
    requires sid in y.conns
  {
    if f.Fatal? then Ending
    else if IsStray(y.pending, sid, f) then HoldingStray(f.id, y.pending.entries[f.id])
    else y.conns[sid].pc
  }

  function PendingAfter(t: Table, sid: SessionId, f: A.Frame): Table
  {
    if !f.Response? || f.id !in t.entries then t
    else if IsStray(t, sid, f) then Taken(t, f.id)
    else Delivered(Taken(t, f.id), f.id, f.body)
  }

  /** The connection was dialled by this add-on. */
  predicate Dials(y: System, p: PeerId, sid: SessionId)
  {
    sid in y.conns && y.conns[sid].peer == p
  }

  predicate PeerEnabled(y: System, p: PeerId, a: PeerStep)
  {
    && p in y.peers
    && var q := y.peers[p];
       match a
       case Acknowledge(sid) => Dials(y, p, sid) && y.conns[sid].pc.Offered?
       case Adopt(sid) => Dials(y, p, sid) && y.conns[sid].reader.Shaken?
       case ReadRequest(sid) => Dials(y, p, sid) && y.conns[sid].reader.Serving? && y.conns[sid].down != []
       case LeaveRead(sid) => Dials(y, p, sid) && y.conns[sid].reader.Serving?
       case Close(sid) => Dials(y, p, sid) && (y.conns[sid].reader.Shaken? || y.conns[sid].reader.Leaving?)
       case Clear => true
       case TakeRequest => q.addon.busy.None? && q.addon.inbox != []
       case Finish(body) => q.addon.busy.Some? && body != Err(RATE_LIMITED)
       case _ => true
  }

  function SetPeer(y: System, p: PeerId, q: Peer): System
  {
    y.(peers := y.peers[p := q])
  }

  function SetAddon(y: System, p: PeerId, addon: A.State): System
    requires p in y.peers
  {
    SetPeer(y, p, y.peers[p].(addon := addon))
  }

  function PeerAct(y: System, p: PeerId, a: PeerStep): System
    requires PeerEnabled(y, p, a)
  {
    var q := y.peers[p];
    match a
    case Acknowledge(sid) => SetConn(y, sid, y.conns[sid].(pc := Acked, reader := Shaken))
    case Adopt(sid) =>
      SetAddon(SetConn(y, sid, y.conns[sid].(reader := Serving, writer := true)), p, A.Act(q.addon, A.DoAdopt(sid)))
    case ReadRequest(sid) =>
      var c := y.conns[sid];
      SetAddon(SetConn(y, sid, c.(down := c.down[1..])), p, A.Act(q.addon, A.DoRead(c.down[0])))
    case LeaveRead(sid) => SetAddon(SetConn(y, sid, y.conns[sid].(reader := Leaving)), p, A.Act(q.addon, A.DoEnd))
    case Close(sid) => SetConn(y, sid, y.conns[sid].(reader := Closed, open := false))
    case Clear => SetAddon(y, p, A.Act(q.addon, A.DoClear))
    case TakeRequest => SetAddon(y, p, A.Act(q.addon, A.DoTake))
    case Finish(body) =>
      SetAddon(y, p, A.Act(q.addon, A.DoAnswer(body)))
        .(runs := y.runs + [Run(q.addon.busy.value.id, q.addon.busy.value.op, body)])
    case BumpRevision => SetAddon(y, p, A.Act(q.addon, A.DoBump))
    case Emit(payload) =>
      if q.addon.session.None? then y
      else SetAddon(y, p, A.Act(q.addon, A.DoEmit(payload)))
             .(emitted := y.emitted + {Emission(p, A.Event(q.addon.session.value, q.addon.revision, payload))})
    case ReportFatal => SetAddon(y, p, A.Act(q.addon, A.DoFatal))
  }

  predicate WriterEnabled(y: System, sid: SessionId, a: WriterStep)
  {
    && sid in y.conns
    && var c := y.conns[sid];
       match a
       case TakeFrame => c.writer && c.hand.None? && c.peer in y.peers && y.peers[c.peer].addon.outbox != []
       case WriteFrame => c.writer && c.hand.Some? && c.open
       case WriteTooLarge => c.writer && c.hand.Some? && (c.open || !c.hand.value.Response?)
       case Die => c.writer && (c.hand.None? || !c.open)
       case Shut => true
  }

  function Fated(pulls: seq<Pull>, sid: SessionId, fate: Fate): (r: seq<Pull>)
    ensures |r| == |pulls|
    ensures forall k | 0 <= k < |r| ::
              r[k] == if pulls[k].conn == sid && pulls[k].fate.InHand? then pulls[k].(fate := fate) else pulls[k]
  {
    seq(|pulls|, k requires 0 <= k < |pulls| =>
      if pulls[k].conn == sid && pulls[k].fate.InHand? then pulls[k].(fate := fate) else pulls[k])
  }

  /** The frame in the hand of this connection's writer has met its fate. */
  function Settle(past: Past, sid: SessionId, fate: Fate): Past
  {
    past.(pulls := Fated(past.pulls, sid, fate))
  }

  /** What crosses in place of a frame over the size limit: an error for its request, or nothing when it has none. */
  function Shortened(f: A.Frame): seq<A.Frame>
  {
    if f.Response? then [A.Response(f.id, Err(MESSAGE_TOO_LARGE))] else []
  }

  function WriterAct(y: System, sid: SessionId, a: WriterStep): System
    requires WriterEnabled(y, sid, a)
  {
    var c := y.conns[sid];
    match a
    case TakeFrame =>
      var addon := y.peers[c.peer].addon;
      SetAddon(SetConn(y, sid, c.(hand := Some(addon.outbox[0]))), c.peer, A.Act(addon, A.DoPop))
        .(past := y.past.(pulls := y.past.pulls + [Pull(c.peer, sid, addon.outbox[0], InHand)]))
    case WriteFrame =>
      SetConn(y, sid, c.(hand := None, up := c.up + [c.hand.value])).(past := Settle(y.past, sid, Crossed))
    case WriteTooLarge =>
      SetConn(y, sid, c.(hand := None, up := c.up + Shortened(c.hand.value))).(past := Settle(y.past, sid, TooBig))
    case Die => SetConn(y, sid, c.(writer := false, hand := None)).(past := Settle(y.past, sid, Gone))
    case Shut => SetConn(y, sid, c.(open := false))
  }

  /** Some connection's task has taken this request's entry out and not put it back yet. */
  ghost predicate Held(y: System, id: RequestId)
  {
    exists sid :: HoldsStray(y, sid, id)
  }

  ghost predicate HoldsStray(y: System, sid: SessionId, id: RequestId)
  {
    sid in y.conns && y.conns[sid].pc.HoldingStray? && y.conns[sid].pc.id == id
  }

  predicate CallEnabled(y: System, c: CallId, a: CallStep)
  {
    match a
    case Pick(_) => c !in y.calls && y.slot.Some?
    case Register(id) => c in y.calls && y.calls[c].Picked? && id !in y.pending.cells
    case Send => c in y.calls && y.calls[c].Registered?
    case CancelFailed => c in y.calls && y.calls[c].SendFailed?
    case Receive =>
      && c in y.calls && y.calls[c].Awaiting? && y.calls[c].id in y.pending.cells
      && !y.pending.cells[y.calls[c].id].Waiting?
    case Expire => c in y.calls && y.calls[c].Awaiting?
    case CancelExpired => c in y.calls && y.calls[c].Expired?
  }

  function SetCall(y: System, c: CallId, call: Call): System
  {
    y.(calls := y.calls[c := call])
  }

  ghost function CallAct(y: System, c: CallId, a: CallStep): System
    requires CallEnabled(y, c, a)
  {
    match a
    case Pick(op) => SetCall(y, c, Picked(y.slot.value, op))
    case Register(id) =>
      var k := y.calls[c];
      SetCall(y, c, Registered(id, k.session, k.op))
        .(pending := Pending.Registered(y.pending, id, k.session, k.op),
          past := y.past.(sessions := y.past.sessions[id := k.session]))
    case Send =>
      var k := y.calls[c];
      if k.session in y.conns && y.conns[k.session].accepting then
        var conn := y.conns[k.session];
        SetCall(SetConn(y, k.session, conn.(outbound := conn.outbound + [A.Request(k.id, k.op)])), c, Awaiting(k.id, k.op))
          .(sent := y.sent[k.id := k.op])
      else SetCall(y, c, SendFailed(k.id, k.op))
    case CancelFailed =>
      var k := y.calls[c];
      SetCall(y, c, Done(k.id, k.op, Lost)).(pending := Cancelled(y.pending, k.id))
    case Receive =>
      var k := y.calls[c];
      var cell := y.pending.cells[k.id];
      SetCall(y, c, Done(k.id, k.op, if cell.Sent? && cell.outcome.Answered? then Reply(cell.outcome.body) else Lost))
    case Expire =>
      var k := y.calls[c];
      SetCall(y, c, Expired(k.id, k.op))
    case CancelExpired =>
      var k := y.calls[c];
      SetCall(y, c, Done(k.id, k.op, TimedOut))
        .(pending := Cancelled(y.pending, k.id), missed := if Held(y, k.id) then y.missed + {k.id} else y.missed)
  }

  predicate Enabled(y: System, a: Step)
  {
    match a
    case Server(sid, s) => ServerEnabled(y, sid, s)
    case Main(p, s) => PeerEnabled(y, p, s)
    case Writer(sid, s) => WriterEnabled(y, sid, s)
    case Caller(c, s) => CallEnabled(y, c, s)
  }

  ghost function Act(y: System, a: Step): System
    requires Enabled(y, a)
  {
    match a
    case Server(sid, s) => ServerAct(y, sid, s)
    case Main(p, s) => PeerAct(y, p, s)
    case Writer(sid, s) => WriterAct(y, sid, s)
    case Caller(c, s) => CallAct(y, c, s)
  }

  ghost predicate Initial(y: System)
  {
    && y.slot == None && y.pending == Table(map[], map[]) && y.calls == map[] && y.conns == map[]
    && (forall p | p in y.peers :: y.peers[p] == Peer(A.Idle))
    && y.installed == [] && y.runs == [] && y.sent == map[] && y.emitted == {} && y.broadcast == [] && y.missed == {}
    && y.past == Past(map[], map[], [])
  }

  ghost predicate Runs(y: System, steps: seq<Step>)
    decreases |steps|
  {
    steps == [] || (Enabled(y, steps[0]) && Runs(Act(y, steps[0]), steps[1..]))
  }

  ghost function After(y: System, steps: seq<Step>): System
    requires Runs(y, steps)
    decreases |steps|
  {
    if steps == [] then y else After(Act(y, steps[0]), steps[1..])
  }
}
