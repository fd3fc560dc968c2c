/** A caller that takes no further step, as when its future is dropped: when its request's entry is left for good. */
module BridgeDropped {
  import opened Wrappers
  import opened Pending
  import opened Bridge
  import opened BridgeFields
  import opened BridgeWaiters
  import opened BridgeFailing
  import opened BridgeAnswers
  import opened BridgePast
  import opened BridgeWays
  import G = BridgeForGood
  import H = BridgeHoming
  import L = BridgeLeak
  import R = BridgeRuns
  import S = BridgeSlot

  /** The caller takes no part in this run. */
  predicate Without(steps: seq<Step>, c: CallId)
  {
    forall a | a in steps :: a.Caller? ==> a.call != c
  }

  /** Whatever happens without the caller, the request is in the table, or about to go back there. */
  ghost predicate StaysWithout(y: System, c: CallId, id: RequestId)
  {
    forall later | Runs(y, later) && Without(later, c) :: InTable(After(y, later), id)
  }

  ghost predicate IsCalled(y: System, c: CallId, id: RequestId)
  {
    c in y.calls && HasId(y.calls[c]) && y.calls[c].id == id
  }

  /** In the table with its session failed, and no answer on its way home. */
  ghost predicate Left(y: System, id: RequestId)
  {
    InTable(y, id) && G.SessionFailedBefore(y, id) && !OnItsWay(y, id)
  }

  // ---------------------------------------------------------------------------
  // What is left stays
  // ---------------------------------------------------------------------------

  lemma ReadLeaves(y: System, sid: SessionId, id: RequestId)
    requires ServerEnabled(y, sid, ReadFrame) && InTable(y, id) && id in y.past.sessions && !OnItsWay(y, id)
    requires id in y.pending.entries ==> y.pending.entries[id].session == y.past.sessions[id]
    ensures InTable(ServerAct(y, sid, ReadFrame), id)
  {
    hide ServerAct, BroadcastAfterServer, PastAfterServer;
    ServerFields(y, sid, ReadFrame);
    var z := ServerAct(y, sid, ReadFrame);
    var f := y.conns[sid].up[0];
    if Held(y, id) {
      var d :| HoldsStray(y, d, id);
      assert HoldsStray(z, d, id);
    } else if f.Response? && f.id == id {
      assert y.past.sessions[id] == sid ==> Way(y, sid, Up(sid, 0), id);
      assert HoldsStray(z, sid, id);
    }
  }

  lemma RestoreLeaves(y: System, sid: SessionId, id: RequestId)
    requires ServerEnabled(y, sid, RestoreStray) && InTable(y, id)
    ensures InTable(ServerAct(y, sid, RestoreStray), id)
  {
    hide ServerAct, BroadcastAfterServer, PastAfterServer;
    ServerFields(y, sid, RestoreStray);
    if Held(y, id) {
      var d :| HoldsStray(y, d, id);
      if d != sid { assert HoldsStray(ServerAct(y, sid, RestoreStray), d, id); }
    }
  }

  /** A failing of another session, or a step that fails none. */
  lemma FailingLeaves(y: System, sid: SessionId, a: ServerStep, id: RequestId, home: SessionId)
    requires ServerEnabled(y, sid, a) && !a.ReadFrame? && !a.RestoreStray? && InTable(y, id)
    requires id in y.pending.entries ==> y.pending.entries[id].session == home
    requires !TaskFails(y, sid, home)
    ensures InTable(ServerAct(y, sid, a), id)
  {
    hide ServerAct, SameHolds, Held;
    ServerHolds(y, sid, a);
    SameHeld(y, ServerAct(y, sid, a));
  }

  lemma ServerLeaves(y: System, sid: SessionId, a: ServerStep, id: RequestId)
    requires ServerEnabled(y, sid, a) && Left(y, id) && Known(y)
    ensures InTable(ServerAct(y, sid, a), id)
  {
    hide Known, ServerAct, InTable, OnItsWay, TaskFails;
    if id in y.pending.entries { G.SessionOfEntry(y, id); }
    if a.ReadFrame? {
      ReadLeaves(y, sid, id);
    } else if a.RestoreStray? {
      RestoreLeaves(y, sid, id);
    } else {
      G.FailedIsOver(y, y.past.sessions[id]);
      FailingLeaves(y, sid, a, id, y.past.sessions[id]);
    }
  }

  lemma QuietLeaves(y: System, z: System, id: RequestId)
    requires Quiet(y, z) && InTable(y, id)
    ensures InTable(z, id)
  {
    SameHeld(y, z);
  }

  /** A step of a caller with another request. */
  lemma CallLeaves(y: System, d: CallId, a: CallStep, id: RequestId)
    requires CallEnabled(y, d, a) && InTable(y, id) && (HasIdNow(y, d) ==> y.calls[d].id != id)
    ensures InTable(CallAct(y, d, a), id)
  {
    hide CallAct, Held, SameHolds;
    CallFields(y, d, a);
    CallHolds(y, d, a);
    SameHeld(y, CallAct(y, d, a));
  }

  predicate HasIdNow(y: System, d: CallId)
  {
    d in y.calls && HasId(y.calls[d])
  }

  lemma OthersHaveOthers(y: System, c: CallId, id: RequestId, d: CallId)
    requires Known(y) && IsCalled(y, c, id) && d != c
    ensures HasIdNow(y, d) ==> y.calls[d].id != id
  {
  }

  lemma StaysCalled(y: System, a: Step, c: CallId, id: RequestId)
    requires Enabled(y, a) && IsCalled(y, c, id) && (a.Caller? ==> a.call != c)
    ensures IsCalled(Act(y, a), c, id)
  {
    hide ServerAct, PeerAct, WriterAct, CallAct;
    match a
    case Server(sid, s) => ServerFields(y, sid, s);
    case Main(p, s) => PeerFields(y, p, s);
    case Writer(sid, s) => WriterFields(y, sid, s);
    case Caller(d, s) => CallFields(y, d, s);
  }

  lemma InTableStays(y: System, a: Step, c: CallId, id: RequestId)
    requires Enabled(y, a) && IsCalled(y, c, id) && Left(y, id) && (a.Caller? ==> a.call != c) && Known(y)
    ensures InTable(Act(y, a), id)
  {
    hide Known, InTable, OnItsWay, ServerAct, PeerAct, WriterAct, CallAct, Quiet, IsCalled;
    match a
    case Server(sid, s) => ServerLeaves(y, sid, s, id);
    case Main(p, s) => PeerIsQuiet(y, p, s); QuietLeaves(y, PeerAct(y, p, s), id);
    case Writer(sid, s) => WriterIsQuiet(y, sid, s); QuietLeaves(y, WriterAct(y, sid, s), id);
    case Caller(d, s) => OthersHaveOthers(y, c, id, d); CallLeaves(y, d, s, id);
  }

  lemma StepLeaves(y: System, a: Step, c: CallId, id: RequestId)
    requires Enabled(y, a) && IsCalled(y, c, id) && Left(y, id) && (a.Caller? ==> a.call != c) && Known(y) && OutInv(y)
    ensures Left(Act(y, a), id)
  {
    hide Known, OutInv, InTable, OnItsWay, Act, Enabled, IsCalled;
    InTableStays(y, a, c, id);
    KnownSession(y, a, id);
    G.KnownLedger(y);
    hide R.Inv, LedgerInv, S.SlotInv, StatusInv;
    OneFailing(y, a, y.past.sessions[id]);
    if Sends(a) { SendIsEnabled(y, a); OthersHaveOthers(y, c, id, a.call); }
    StepOpensNoWay(y, a, id);
  }

  lemma SendIsEnabled(y: System, a: Step)
    requires Enabled(y, a) && Sends(a)
    ensures CallEnabled(y, a.call, Send) && HasIdNow(y, a.call)
  {
  }

  lemma StepKeepsBoth(y: System, a: Step)
    requires Enabled(y, a) && Known(y) && OutInv(y)
    ensures Known(Act(y, a)) && OutInv(Act(y, a))
  {
    hide Known, OutInv, Act, Enabled;
    G.KnownLedger(y);
    hide R.Inv, LedgerInv, S.SlotInv, StatusInv;
    StepKeepsKnown(y, a);
    StepKeepsOut(y, a);
  }

  lemma {:induction false} LeftStays(y: System, later: seq<Step>, c: CallId, id: RequestId)
    requires Runs(y, later) && Without(later, c) && IsCalled(y, c, id) && Left(y, id) && Known(y) && OutInv(y)
    ensures InTable(After(y, later), id)
    decreases |later|
  {
    hide Known, OutInv, Act, Enabled, IsCalled, InTable, OnItsWay;
    if later != [] {
      StepLeaves(y, later[0], c, id);
      StepKeepsBoth(y, later[0]);
      StaysCalled(y, later[0], c, id);
      LeftStays(Act(y, later[0]), later[1..], c, id);
    }
  }

  // ---------------------------------------------------------------------------
  // What is not left can go
  // ---------------------------------------------------------------------------

  /** A held entry goes back first. */
  lemma HeldCanBeRemoved(y: System, id: RequestId) returns (later: seq<Step>)
    requires Held(y, id) && !G.SessionFailedBefore(y, id) && Known(y)
    ensures Runs(y, later) && G.Unaided(later) && !InTable(After(y, later), id)
  {
    hide Known, Act, Enabled, Runs, After, InTable, Held, HoldsStray;
    var holder := HolderOf(y, id);
    var a := Server(holder, RestoreStray);
    GoesBackIn(y, holder, id);
    StepKeepsKnown(y, a);
    var rest := G.CanBeRemoved(Act(y, a), id);
    later := [a] + rest;
    G.Prepend(y, a, rest);
  }

  lemma HolderOf(y: System, id: RequestId) returns (holder: SessionId)
    requires Held(y, id)
    ensures HoldsStray(y, holder, id) && Enabled(y, Server(holder, RestoreStray))
  {
    holder :| HoldsStray(y, holder, id);
  }

  lemma GoesBackIn(y: System, holder: SessionId, id: RequestId)
    requires HoldsStray(y, holder, id) && Enabled(y, Server(holder, RestoreStray)) && !G.SessionFailedBefore(y, id)
    ensures var z := Act(y, Server(holder, RestoreStray)); id in z.pending.entries && !G.SessionFailedBefore(z, id)
  {
    hide ServerAct, ConnAfterServer, BroadcastAfterServer;
    ServerFields(y, holder, RestoreStray);
  }

  lemma CanGo(y: System, id: RequestId) returns (later: seq<Step>)
    requires !Left(y, id) && Known(y)
    ensures Runs(y, later) && G.Unaided(later) && !InTable(After(y, later), id)
  {
    hide Known, Act, Enabled, Way;
    if !InTable(y, id) {
      later := [];
    } else if G.SessionFailedBefore(y, id) {
      var s :| Way(y, y.past.sessions[id], s, id);
      hide InTable, Runs, After;
      later := H.ComesHome(y, y.past.sessions[id], s, id);
    } else if Held(y, id) {
      hide InTable, Runs, After;
      later := HeldCanBeRemoved(y, id);
    } else {
      later := G.CanBeRemoved(y, id);
    }
  }

  // ---------------------------------------------------------------------------
  // The theorem
  // ---------------------------------------------------------------------------

  lemma StaysExactlyWhenLeft(y: System, c: CallId, id: RequestId)
    requires IsCalled(y, c, id) && Known(y) && OutInv(y)
    ensures StaysWithout(y, c, id) <==> Left(y, id)
  {
    hide Known, OutInv, Left, IsCalled, Runs, After, InTable;
    if Left(y, id) {
      forall later | Runs(y, later) && Without(later, c) ensures InTable(After(y, later), id) {
        LeftStays(y, later, c, id);
      }
    } else {
      var later := CanGo(y, id);
      assert Without(later, c);
    }
  }

  lemma {:induction false} RunKeepsOut(y: System, steps: seq<Step>)
    requires Runs(y, steps) && Known(y) && OutInv(y)
    ensures Known(After(y, steps)) && OutInv(After(y, steps))
    decreases |steps|
  {
    hide Known, OutInv, Act, Enabled;
    if steps != [] {
      StepKeepsBoth(y, steps[0]);
      RunKeepsOut(Act(y, steps[0]), steps[1..]);
    }
  }

  /** The exact condition for a call that takes no further step, whether it was dropped before its request was sent, while it
      waited, or after it was over: its entry is in the table, or about to go back there, in every continuation without
      the caller if and only if it is so now, its session has been failed already, and no answer to it can still come to its
      own connection. */
  lemma StaysWithoutItsCallerExactlyWhen(start: System, steps: seq<Step>, c: CallId)
    requires Initial(start) && Runs(start, steps)
    requires var y := After(start, steps); c in y.calls && HasId(y.calls[c])
    ensures var y := After(start, steps);
            var id := y.calls[c].id;
            StaysWithout(y, c, id) <==> InTable(y, id) && G.SessionFailedBefore(y, id) && !OnItsWay(y, id)
  {
    var y := After(start, steps);
    var id := y.calls[c].id;
    hide Known, OutInv, Runs, After, StaysWithout, InTable, OnItsWay;
    InitialKnown(start);
    InitialOut(start);
    RunKeepsOut(start, steps);
    StaysExactlyWhenLeft(y, c, id);
  }

  // ---------------------------------------------------------------------------
  // Dropped before it sent
  // ---------------------------------------------------------------------------

  /** Nothing is on its way for a request that was not sent. */
  lemma UnsentIsNotOnItsWay(y: System, c: CallId)
    requires Known(y) && c in y.calls && y.calls[c].Registered?
    ensures !OnItsWay(y, y.calls[c].id)
  {
    hide Leads;
  }

  lemma ReachableIsOut(y: System)
    requires L.Reachable(y)
    ensures Known(y) && OutInv(y)
  {
    hide Known, OutInv, Initial, Runs, After;
    var start, steps :| L.Reaches(start, steps, y);
    InitialKnown(start);
    InitialOut(start);
    RunKeepsOut(start, steps);
  }

  /** In a reachable state a caller has registered and not sent, and if it is dropped now its entry stays for good. */
  lemma ADroppedCallCanStay(op: nat) returns (y: System)
    ensures L.Reachable(y) && 0 in y.calls && y.calls[0].Registered? && y.calls[0].id == 7 && StaysWithout(y, 0, 7)
  {
    hide Known, OutInv, OnItsWay, StaysWithout, L.Reachable;
    y := L.LateRegistration(op);
    ReachableIsOut(y);
    UnsentIsNotOnItsWay(y, 0);
    StaysExactlyWhenLeft(y, 0, 7);
  }
}
