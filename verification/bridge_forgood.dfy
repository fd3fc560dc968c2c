/** Entries that outlive their calls: which stay in the table for good, and when a deadline can leave one behind. */
module BridgeForGood {
  import opened Wrappers
  import opened Pending
  import opened Bridge
  import opened BridgeFields
  import opened BridgeWaiters
  import opened BridgeFailing
  import opened BridgePast
  import N = BridgeAnswers
  import S = BridgeSlot
  import T = BridgeTruth
  import R = BridgeRuns

  /** The request is in the table now and whatever happens next. */
  ghost predicate ForGood(y: System, id: RequestId)
  {
    forall later | Runs(y, later) :: id in After(y, later).pending.entries
  }

  ghost predicate CanStayForGood(y: System, id: RequestId)
  {
    exists later :: Runs(y, later) && ForGood(After(y, later), id)
  }

  /** Call `c` is over; `id` was its request. */
  predicate Ended(y: System, c: CallId, id: RequestId)
  {
    c in y.calls && y.calls[c].Done? && y.calls[c].id == id
  }

  predicate SessionFailedBefore(y: System, id: RequestId)
  {
    id in y.past.sessions && y.past.sessions[id] in y.past.failed
  }

  // ---------------------------------------------------------------------------
  // Runs
  // ---------------------------------------------------------------------------

  lemma {:induction false} RunsOn(y: System, first: seq<Step>, then_: seq<Step>)
    requires Runs(y, first) && Runs(After(y, first), then_)
    ensures Runs(y, first + then_) && After(y, first + then_) == After(After(y, first), then_)
    decreases |first|
  {
    hide Act, Enabled;
    if first == [] {
      assert [] + then_ == then_;
    } else {
      RunsOn(Act(y, first[0]), first[1..], then_);
      assert (first + then_)[1..] == first[1..] + then_;
    }
  }

  // ---------------------------------------------------------------------------
  // What an ended call's request can still do
  // ---------------------------------------------------------------------------

  lemma CallStaysEnded(y: System, a: Step, c: CallId, id: RequestId)
    requires R.Inv(y) && Enabled(y, a) && Ended(y, c, id)
    ensures Ended(Act(y, a), c, id)
  {
    R.SettledStaysSettled(y, a, id, c);
  }

  lemma SessionKept(y: System, a: Step, id: RequestId)
    requires LedgerInv(y) && Enabled(y, a) && id in y.past.sessions
    ensures id in Act(y, a).past.sessions && Act(y, a).past.sessions[id] == y.past.sessions[id]
  {
    hide ServerAct, PeerAct, WriterAct, CallAct, CellsTell;
    match a
    case Server(sid, s) => ServerSessions(y, sid, s);
    case Main(p, s) => PeerStrays(y, p, s);
    case Writer(sid, s) => WriterStrays(y, sid, s);
    case Caller(c, s) => CallFields(y, c, s);
  }

  lemma ServerSessions(y: System, sid: SessionId, a: ServerStep)
    requires ServerEnabled(y, sid, a)
    ensures ServerAct(y, sid, a).past.sessions == y.past.sessions
  {
    hide ServerAct;
    ServerFields(y, sid, a);
  }

  lemma EndedIsRegistered(y: System, c: CallId, id: RequestId)
    requires R.Inv(y) && LedgerInv(y) && Ended(y, c, id)
    ensures id in y.pending.cells && id in y.past.sessions
  {
  }

  /** What is out of the table stays out. */
  lemma OutStaysOut(y: System, a: Step, id: RequestId)
    requires Known(y) && Enabled(y, a) && id in y.pending.cells && !InTable(y, id)
    ensures id in Act(y, a).pending.cells && !InTable(Act(y, a), id)
  {
    assert !y.pending.cells[id].Waiting?;
    R.SettledStaysSettled(y, a, id, 0);
    StepKeepsKnown(y, a);
    assert WaiterInv(Act(y, a));
    InTableMeansWaiting(Act(y, a), id);
  }

  lemma {:induction false} OutForGood(y: System, later: seq<Step>, id: RequestId)
    requires Known(y) && Runs(y, later) && id in y.pending.cells && !InTable(y, id)
    ensures !InTable(After(y, later), id)
    decreases |later|
  {
    if later == [] {
    } else {
      hide Known, Act, Enabled, InTable;
      OutStaysOut(y, later[0], id);
      StepKeepsKnown(y, later[0]);
      OutForGood(Act(y, later[0]), later[1..], id);
    }
  }

  /** An ended call whose request is in the table was missed by its cancel, so nothing of it is under way. */
  lemma EndedIsOver(y: System, c: CallId, id: RequestId)
    requires Known(y) && Ended(y, c, id) && InTable(y, id)
    ensures id in y.missed && N.Over(y, id)
  {
  }

  /** Then only a failing of its session takes it out. */
  lemma EntryStays(y: System, a: Step, c: CallId, id: RequestId)
    requires Known(y) && Enabled(y, a) && Ended(y, c, id) && id in y.pending.entries
    requires forall sid | TaskFails(y, sid, y.pending.entries[id].session) ::
               a != Server(sid, FailPrevious) && a != Server(sid, FailOwn)
    ensures id in Act(y, a).pending.entries
  {
    hide *;
    EntryIsHere(y, id);
    EndedIsOver(y, c, id);
    NobodyElse(y, c, id);
    match a
    case Server(sid, s) => ServerEntryKept(y, sid, s, id);
    case Main(p, s) => PeerEntryKept(y, p, s, id);
    case Writer(sid, s) => WriterEntryKept(y, sid, s, id);
    case Caller(d, s) => CallEntryKept(y, d, s, id);
  }

  lemma EntryIsHere(y: System, id: RequestId)
    requires id in y.pending.entries
    ensures InTable(y, id)
  {
  }

  lemma ServerEntryKept(y: System, sid: SessionId, s: ServerStep, id: RequestId)
    requires Enabled(y, Server(sid, s)) && id in y.pending.entries && N.Over(y, id)
    requires forall d | TaskFails(y, d, y.pending.entries[id].session) ::
               Server(sid, s) != Server(d, FailPrevious) && Server(sid, s) != Server(d, FailOwn)
    ensures id in Act(y, Server(sid, s)).pending.entries
  {
    hide ServerAct, N.Over;
    ServerEntryStays(y, sid, s, id);
  }

  lemma PeerEntryKept(y: System, p: PeerId, s: PeerStep, id: RequestId)
    requires Enabled(y, Main(p, s)) && id in y.pending.entries
    ensures id in Act(y, Main(p, s)).pending.entries
  {
    hide PeerAct;
    PeerIsQuiet(y, p, s);
  }

  lemma WriterEntryKept(y: System, sid: SessionId, s: WriterStep, id: RequestId)
    requires Enabled(y, Writer(sid, s)) && id in y.pending.entries
    ensures id in Act(y, Writer(sid, s)).pending.entries
  {
    hide WriterAct;
    WriterIsQuiet(y, sid, s);
  }

  lemma CallEntryKept(y: System, d: CallId, s: CallStep, id: RequestId)
    requires Enabled(y, Caller(d, s)) && id in y.pending.entries
    requires forall e | e in y.calls && Live(y.calls[e]) :: y.calls[e].id != id
    ensures id in Act(y, Caller(d, s)).pending.entries
  {
    hide CallAct;
    CallEntryStays(y, d, s, id);
  }

  lemma NobodyElse(y: System, c: CallId, id: RequestId)
    requires Known(y) && Ended(y, c, id)
    ensures forall d | d in y.calls && Live(y.calls[d]) :: y.calls[d].id != id
  {
  }

  lemma CallEntryStays(y: System, d: CallId, a: CallStep, id: RequestId)
    requires CallEnabled(y, d, a) && id in y.pending.entries && (d in y.calls && Live(y.calls[d]) ==> y.calls[d].id != id)
    ensures id in CallAct(y, d, a).pending.entries
  {
    hide CallAct;
    CallFields(y, d, a);
  }

  lemma ServerEntryStays(y: System, sid: SessionId, a: ServerStep, id: RequestId)
    requires ServerEnabled(y, sid, a) && id in y.pending.entries && N.Over(y, id)
    requires TaskFails(y, sid, y.pending.entries[id].session) ==> !a.FailPrevious? && !a.FailOwn?
    ensures id in ServerAct(y, sid, a).pending.entries
  {
    if a.ReadFrame? {
      var f := y.conns[sid].up[0];
      N.ReadTells(y, sid);
      if f.Response? {
        assert N.Here(y, N.Up(sid, 0)) && N.IdAt(y, N.Up(sid, 0)) == f.id;
      }
    } else {
      T.ServerShrinks(y, sid, a);
    }
  }

  lemma SessionOfEntry(y: System, id: RequestId)
    requires Known(y) && id in y.pending.entries
    ensures id in y.past.sessions && y.past.sessions[id] == y.pending.entries[id].session
    ensures y.past.sessions[id] in y.installed
  {
    assert Carries(y, id, y.pending.entries[id]);
  }

  lemma FailedIsOver(y: System, d: SessionId)
    requires Known(y) && d in y.past.failed
    ensures forall sid :: !TaskFails(y, sid, d)
  {
  }

  lemma KnownLedger(y: System)
    requires Known(y)
    ensures R.Inv(y) && LedgerInv(y) && S.SlotInv(y) && StatusInv(y)
  {
    hide LedgerInv, S.SlotInv, StatusInv;
  }

  /** An entry whose call is over and whose session has been failed already stays for good. */
  lemma LeftoverStays(y: System, a: Step, c: CallId, id: RequestId)
    requires Known(y) && Enabled(y, a) && Ended(y, c, id) && id in y.pending.entries && SessionFailedBefore(y, id)
    ensures var z := Act(y, a); Ended(z, c, id) && id in z.pending.entries && SessionFailedBefore(z, id)
  {
    hide Known, Act, Enabled, Ended, TaskFails;
    SessionOfEntry(y, id);
    FailedIsOver(y, y.past.sessions[id]);
    KnownLedger(y);
    EntryStays(y, a, c, id);
    CallStaysEnded(y, a, c, id);
    SessionKept(y, a, id);
    OneFailing(y, a, y.past.sessions[id]);
  }

  lemma {:induction false} LeftoverStaysForGood(y: System, later: seq<Step>, c: CallId, id: RequestId)
    requires Known(y) && Runs(y, later) && Ended(y, c, id) && id in y.pending.entries && SessionFailedBefore(y, id)
    ensures id in After(y, later).pending.entries
    decreases |later|
  {
    if later == [] {
    } else {
      hide Known, Act, Enabled, Ended, SessionFailedBefore;
      LeftoverStays(y, later[0], c, id);
      StepKeepsKnown(y, later[0]);
      LeftoverStaysForGood(Act(y, later[0]), later[1..], c, id);
    }
  }

  // ---------------------------------------------------------------------------
  // A session not failed yet can be
  // ---------------------------------------------------------------------------

  /** How far a session's own task is from failing it. */
  ghost function Distance(y: System, d: SessionId): nat
  {
    if d !in y.conns then 0
    else match y.conns[d].pc
      case FailingPrevious(_) => 5
      case HoldingStray(_, _) => 4
      case Reading => 3
      case Ending => 2
      case FailingOwn => 1
      case _ => 0
  }

  /** The step fails the requests of session `d`. */
  ghost predicate FailsNow(y: System, a: Step, d: SessionId)
  {
    a.Server? && TaskFails(y, a.session, d) && (a.s.FailPrevious? || a.s.FailOwn?) && Enabled(y, a)
  }

  /** A step of the session's own task towards its end. */
  ghost predicate TowardsEnd(y: System, a: Step, d: SessionId)
  {
    && a.Server? && a.session == d && Enabled(y, a)
    && (a.s.FailPrevious? || a.s.RestoreStray? || a.s.EndRead? || a.s.ClearSlot?)
  }

  lemma FailsNowFails(y: System, a: Step, d: SessionId)
    requires FailsNow(y, a, d)
    ensures d in Act(y, a).past.failed
  {
    FailingShape(y, a.session, a.s);
  }

  lemma NextTowardsFailing(y: System, d: SessionId) returns (a: Step)
    requires S.SlotInv(y) && StatusInv(y) && d in y.installed && d !in y.past.failed
    ensures FailsNow(y, a, d) || (TowardsEnd(y, a, d) && y.slot == Some(d))
  {
    if y.slot == Some(d) {
      a := NextTowardsEnd(y, d);
    } else {
      assert AboutToFail(y, d);
      var sid :| TaskFails(y, sid, d);
      a := Server(sid, if y.conns[sid].pc.FailingOwn? then FailOwn else FailPrevious);
    }
  }

  lemma NextTowardsEnd(y: System, d: SessionId) returns (a: Step)
    requires S.SlotInv(y) && y.slot == Some(d)
    ensures TowardsEnd(y, a, d)
  {
    assert S.BeforeClear(y.conns[d].pc);
    a := Server(d, match y.conns[d].pc
                   case FailingPrevious(_) => FailPrevious
                   case HoldingStray(_, _) => RestoreStray
                   case Reading => EndRead
                   case _ => ClearSlot);
  }

  lemma NearerTheEnd(y: System, a: Step, d: SessionId)
    requires StatusInv(y) && y.slot == Some(d) && TowardsEnd(y, a, d)
    ensures Distance(Act(y, a), d) < Distance(y, d)
    ensures d in y.past.failed || d !in Act(y, a).past.failed
  {
    if a.s.FailPrevious? {
      FailingShape(y, d, a.s);
      assert TaskFails(y, d, y.conns[d].pc.previous);
    }
  }

  /** The holder of a stray stays where it is while other tasks move. */
  lemma OthersHoldOn(y: System, a: Step, d: SessionId, holder: SessionId, id: RequestId)
    requires FailsNow(y, a, d) || TowardsEnd(y, a, d)
    requires HoldsStray(y, holder, id) && holder != d
    ensures HoldsStray(Act(y, a), holder, id)
  {
    assert a.session != holder;
    S.ServerMoves(y, a.session, a.s);
    hide ServerAct;
  }

  lemma StillInstalled(y: System, a: Step, d: SessionId)
    requires Enabled(y, a) && a.Server? && d in y.installed
    ensures d in Act(y, a).installed
  {
    ServerInstalled(y, a.session, a.s);
  }

  /** With another task holding on to a stray, the session can be failed. */
  lemma CanBeFailedMeanwhile(y: System, d: SessionId, holder: SessionId, id: RequestId) returns (later: seq<Step>)
    requires Known(y) && d in y.installed && HoldsStray(y, holder, id) && holder != d
    ensures Runs(y, later) && d in After(y, later).past.failed && HoldsStray(After(y, later), holder, id)
    decreases Distance(y, d)
  {
    hide Known, Act, Enabled, Runs, After, S.SlotInv, StatusInv, R.Inv, LedgerInv, HoldsStray, TaskFails;
    if d in y.past.failed {
      later := [];
      Stop(y);
    } else {
      KnownLedger(y);
      var a := NextTowardsFailing(y, d);
      assert Enabled(y, a) && a.Server?;
      var z := Act(y, a);
      OthersHoldOn(y, a, d, holder, id);
      StepKeepsKnown(y, a);
      StillInstalled(y, a, d);
      if FailsNow(y, a, d) {
        FailsNowFails(y, a, d);
        later := [a];
        One(y, a);
      } else {
        NearerTheEnd(y, a, d);
        var rest := CanBeFailedMeanwhile(z, d, holder, id);
        later := [a] + rest;
        Prepend(y, a, rest);
      }
    }
  }

  lemma Stop(y: System)
    ensures Runs(y, []) && After(y, []) == y
  {
  }

  lemma One(y: System, a: Step)
    requires Enabled(y, a)
    ensures Runs(y, [a]) && After(y, [a]) == Act(y, a)
  {
    hide Act, Enabled;
    assert Runs(Act(y, a), [a][1..]) && After(Act(y, a), [a][1..]) == Act(y, a);
  }

  lemma Prepend(y: System, a: Step, rest: seq<Step>)
    requires Enabled(y, a) && Runs(Act(y, a), rest)
    ensures Runs(y, [a] + rest) && After(y, [a] + rest) == After(Act(y, a), rest)
  {
    hide Act, Enabled;
    assert ([a] + rest)[1..] == rest;
  }

  /** An entry that is neither held nor marked by a failing of its session: one can still come and take it out. */
  ghost predicate Removable(y: System, c: CallId, id: RequestId)
  {
    Known(y) && Ended(y, c, id) && id in y.pending.entries && !SessionFailedBefore(y, id)
  }

  lemma FailedOut(y: System, a: Step, d: SessionId, id: RequestId)
    requires Known(y) && FailsNow(y, a, d) && id in y.pending.entries && id in y.past.sessions && y.past.sessions[id] == d
    ensures !InTable(Act(y, a), id)
  {
    hide Known, InTable, ServerAct;
    FailedOutBy(y, a.session, a.s, d, id);
  }

  lemma FailedOutBy(y: System, sid: SessionId, a: ServerStep, d: SessionId, id: RequestId)
    requires Known(y) && ServerEnabled(y, sid, a) && TaskFails(y, sid, d) && (a.FailPrevious? || a.FailOwn?)
    requires id in y.pending.entries && id in y.past.sessions && y.past.sessions[id] == d
    ensures !InTable(ServerAct(y, sid, a), id)
  {
    hide *;
    FailsThat(y, sid, a, d);
    EntryNotHeld(y, id);
    InTableByEntry(y, id);
    FailingLeavesExactlyTheHeld(y, sid, a, id);
  }

  lemma FailsThat(y: System, sid: SessionId, a: ServerStep, d: SessionId)
    requires ServerEnabled(y, sid, a) && TaskFails(y, sid, d) && (a.FailPrevious? || a.FailOwn?)
    ensures d == if a.FailOwn? then sid else y.conns[sid].pc.previous
  {
  }

  lemma InTableByEntry(y: System, id: RequestId)
    requires id in y.pending.entries
    ensures InTable(y, id)
  {
  }

  lemma EntryNotHeld(y: System, id: RequestId)
    requires Known(y) && id in y.pending.entries
    ensures !Held(y, id)
  {
  }

  /** Whatever one step does to it, it stays so or goes. */
  lemma RemovableStep(y: System, a: Step, c: CallId, id: RequestId)
    requires Removable(y, c, id) && Enabled(y, a)
    ensures Removable(Act(y, a), c, id) || (Known(Act(y, a)) && !InTable(Act(y, a), id))
    ensures Ended(Act(y, a), c, id)
  {
    hide Known, Act, Enabled, Ended, InTable, FailsNow, TaskFails, R.Inv, LedgerInv;
    KnownLedger(y);
    SessionOfEntry(y, id);
    var d := y.past.sessions[id];
    StepKeepsKnown(y, a);
    CallStaysEnded(y, a, c, id);
    SessionKept(y, a, id);
    if FailsNow(y, a, d) {
      FailedOut(y, a, d, id);
    } else {
      NotNow(y, a, d);
      EntryStays(y, a, c, id);
      NotFailedNow(y, a, d);
    }
  }

  lemma NotNow(y: System, a: Step, d: SessionId)
    requires Enabled(y, a) && !FailsNow(y, a, d)
    ensures forall sid | TaskFails(y, sid, d) :: a != Server(sid, FailPrevious) && a != Server(sid, FailOwn)
  {
  }

  lemma NotFailedNow(y: System, a: Step, d: SessionId)
    requires Enabled(y, a) && d !in y.past.failed && !FailsNow(y, a, d)
    ensures d !in Act(y, a).past.failed
  {
    match a
    case Server(sid, s) =>
      if s.FailPrevious? || s.FailOwn? { FailingShape(y, sid, s); } else { ServerPast(y, sid, s); }
    case Main(p, s) => PeerStrays(y, p, s);
    case Writer(sid, s) => WriterStrays(y, sid, s);
    case Caller(c, s) => CallStrays(y, c, s);
  }

  /** No caller takes part. */
  predicate Unaided(steps: seq<Step>)
  {
    forall a | a in steps :: !a.Caller?
  }

  lemma TowardsEndKeeps(y: System, a: Step, d: SessionId, id: RequestId)
    requires StatusInv(y) && y.slot == Some(d) && TowardsEnd(y, a, d)
    requires id in y.pending.entries && y.pending.entries[id].session == d
    ensures id in Act(y, a).pending.entries
  {
    hide ServerAct, ConnAfterServer, BroadcastAfterServer, PastAfterServer;
    ServerFields(y, d, a.s);
    if a.s.FailPrevious? { assert TaskFails(y, d, y.conns[d].pc.previous); }
  }

  /** As long as its session has not been failed, that can come, without any caller's help, and take the entry out. */
  lemma {:induction false} CanBeRemoved(y: System, id: RequestId) returns (later: seq<Step>)
    requires Known(y) && id in y.pending.entries && !SessionFailedBefore(y, id)
    ensures Runs(y, later) && Unaided(later) && !InTable(After(y, later), id)
    decreases if id in y.past.sessions then Distance(y, y.past.sessions[id]) else 0
  {
    hide Known, Act, Enabled, Runs, After, InTable, FailsNow, TowardsEnd, Distance, R.Inv, LedgerInv, S.SlotInv, StatusInv;
    KnownLedger(y);
    SessionOfEntry(y, id);
    var d := y.past.sessions[id];
    var a := NextTowardsFailing(y, d);
    ServersOwn(y, a, d);
    if FailsNow(y, a, d) {
      FailedOut(y, a, d, id);
      later := [a];
      One(y, a);
    } else {
      TowardsEndKeeps(y, a, d, id);
      NearerTheEnd(y, a, d);
      SessionKept(y, a, id);
      StepKeepsKnown(y, a);
      var rest := CanBeRemoved(Act(y, a), id);
      later := [a] + rest;
      Prepend(y, a, rest);
    }
  }

  lemma ServersOwn(y: System, a: Step, d: SessionId)
    requires FailsNow(y, a, d) || TowardsEnd(y, a, d)
    ensures a.Server? && Enabled(y, a)
  {
  }

  lemma {:induction false} RemovableRuns(y: System, later: seq<Step>, c: CallId, id: RequestId)
    requires Removable(y, c, id) && Runs(y, later)
    ensures Removable(After(y, later), c, id) || !InTable(After(y, later), id)
    decreases |later|
  {
    if later == [] {
    } else {
      var z := Act(y, later[0]);
      RemovableStep(y, later[0], c, id);
      if Removable(z, c, id) {
        hide Removable, Act, Enabled;
        RemovableRuns(z, later[1..], c, id);
      } else {
        EndedIsRegistered(z, c, id);
        hide Removable, Act, Enabled;
        OutForGood(z, later[1..], id);
      }
    }
  }

  // ---------------------------------------------------------------------------
  // The theorems
  // ---------------------------------------------------------------------------

  lemma ForGoodExactlyWhen(y: System, c: CallId, id: RequestId)
    requires Known(y) && Ended(y, c, id)
    ensures ForGood(y, id) <==> id in y.pending.entries && SessionFailedBefore(y, id)
  {
    if id in y.pending.entries && SessionFailedBefore(y, id) {
      forall later | Runs(y, later) ensures id in After(y, later).pending.entries {
        LeftoverStaysForGood(y, later, c, id);
      }
    } else if id in y.pending.entries {
      var later := CanBeRemoved(y, id);
    } else {
      assert Runs(y, []) && After(y, []) == y;
    }
  }

  /** Once a call is over, its request's entry is in the table now and in every continuation if and only if it is in the
      table and its session has been failed already. */
  lemma StaysForGoodExactlyWhen(start: System, steps: seq<Step>, c: CallId)
    requires Initial(start) && Runs(start, steps)
    requires var y := After(start, steps); c in y.calls && y.calls[c].Done?
    ensures var y := After(start, steps);
            var id := y.calls[c].id;
            ForGood(y, id) <==> id in y.pending.entries && SessionFailedBefore(y, id)
  {
    ReachedIsKnown(start, steps);
    var y := After(start, steps);
    ForGoodExactlyWhen(y, c, y.calls[c].id);
  }

  /** A held entry can go back after its session was failed, and then stays. */
  lemma HeldCanStay(y: System, c: CallId, id: RequestId)
    requires Known(y) && Ended(y, c, id) && Held(y, id)
    ensures CanStayForGood(y, id)
  {
    var holder :| HoldsStray(y, holder, id);
    hide *;
    HeldIsElsewhere(y, holder, id);
    var first := CanBeFailedMeanwhile(y, y.past.sessions[id], holder, id);
    RunKeepsKnown(y, first);
    EndedRuns(y, first, c, id);
    FailedBy(After(y, first), id);
    GoesBack(After(y, first), holder, c, id);
    RunsOn(y, first, [Server(holder, RestoreStray)]);
    StaysBy(y, first + [Server(holder, RestoreStray)], id);
  }

  lemma FailedBy(y: System, id: RequestId)
    requires id in y.past.sessions && y.past.sessions[id] in y.past.failed
    ensures SessionFailedBefore(y, id)
  {
  }

  lemma StaysBy(y: System, later: seq<Step>, id: RequestId)
    requires Runs(y, later) && ForGood(After(y, later), id)
    ensures CanStayForGood(y, id)
  {
  }

  lemma HeldIsElsewhere(y: System, holder: SessionId, id: RequestId)
    requires Known(y) && HoldsStray(y, holder, id)
    ensures id in y.past.sessions && y.past.sessions[id] in y.installed && y.past.sessions[id] != holder
  {
    assert HoldsEntry(y, holder, id, y.conns[holder].pc.entry);
    assert Carries(y, id, y.conns[holder].pc.entry);
  }

  lemma {:induction false} EndedRuns(y: System, steps: seq<Step>, c: CallId, id: RequestId)
    requires Known(y) && Runs(y, steps) && Ended(y, c, id) && id in y.past.sessions
    ensures var z := After(y, steps); Ended(z, c, id) && id in z.past.sessions && z.past.sessions[id] == y.past.sessions[id]
    decreases |steps|
  {
    if steps == [] {
    } else {
      CallStaysEnded(y, steps[0], c, id);
      SessionKept(y, steps[0], id);
      StepKeepsKnown(y, steps[0]);
      hide Known, Act, Enabled, Ended;
      EndedRuns(Act(y, steps[0]), steps[1..], c, id);
    }
  }

  lemma GoesBack(x: System, holder: SessionId, c: CallId, id: RequestId)
    requires Known(x) && Ended(x, c, id) && HoldsStray(x, holder, id) && SessionFailedBefore(x, id)
    ensures var a := Server(holder, RestoreStray);
            Runs(x, [a]) && ForGood(After(x, [a]), id)
  {
    var a := Server(holder, RestoreStray);
    var z := Act(x, a);
    One(x, a);
    StepKeepsKnown(x, a);
    CallStaysEnded(x, a, c, id);
    SessionKept(x, a, id);
    OneFailing(x, a, x.past.sessions[id]);
    ServerRestores(x, holder);
    hide Known, Act, Enabled;
    ForGoodExactlyWhen(z, c, id);
  }

  lemma CanStayExactlyWhen(y: System, c: CallId, id: RequestId)
    requires Known(y) && Ended(y, c, id)
    ensures CanStayForGood(y, id) <==> Held(y, id) || (id in y.pending.entries && SessionFailedBefore(y, id))
  {
    EndedIsRegistered(y, c, id);
    if Held(y, id) {
      HeldCanStay(y, c, id);
    } else if id in y.pending.entries && SessionFailedBefore(y, id) {
      ForGoodExactlyWhen(y, c, id);
      assert Runs(y, []) && After(y, []) == y;
    } else {
      forall later | Runs(y, later) ensures !ForGood(After(y, later), id) {
        NotForGoodLater(y, later, c, id);
      }
    }
  }

  lemma NotForGoodLater(y: System, later: seq<Step>, c: CallId, id: RequestId)
    requires Known(y) && Ended(y, c, id) && Runs(y, later) && id in y.pending.cells
    requires !Held(y, id) && !(id in y.pending.entries && SessionFailedBefore(y, id))
    ensures !ForGood(After(y, later), id)
  {
    var z := After(y, later);
    if id in y.pending.entries {
      RemovableRuns(y, later, c, id);
    } else {
      OutForGood(y, later, id);
    }
    if Removable(z, c, id) {
      ForGoodExactlyWhen(z, c, id);
    } else {
      assert Runs(z, []) && After(z, []) == z;
    }
  }

  /** Once a call is over, some continuation leaves its request's entry in the table for good if and only if a task holds
      it as a stray, or it is in the table with its session failed already. */
  lemma CanStayForGoodExactlyWhen(start: System, steps: seq<Step>, c: CallId)
    requires Initial(start) && Runs(start, steps)
    requires var y := After(start, steps); c in y.calls && y.calls[c].Done?
    ensures var y := After(start, steps);
            var id := y.calls[c].id;
            CanStayForGood(y, id) <==> Held(y, id) || (id in y.pending.entries && SessionFailedBefore(y, id))
  {
    ReachedIsKnown(start, steps);
    var y := After(start, steps);
    CanStayExactlyWhen(y, c, y.calls[c].id);
  }

  lemma DeadlineShape(y: System, c: CallId)
    requires CallEnabled(y, c, CancelExpired)
    ensures var z := CallAct(y, c, CancelExpired);
            var id := y.calls[c].id;
            Ended(z, c, id) && id !in z.pending.entries && (Held(z, id) <==> Held(y, id))
  {
    CallHolds(y, c, CancelExpired);
    SameHeld(y, CallAct(y, c, CancelExpired));
  }

  /** The exact condition, at the moment of the deadline's cancel: no continuation leaves the entry behind for good if
      and only if no task holds it as a stray. */
  lemma DeadlineSettlesExactlyWhenNotHeld(start: System, steps: seq<Step>, c: CallId)
    requires Initial(start) && Runs(start, steps) && CallEnabled(After(start, steps), c, CancelExpired)
    ensures var y := After(start, steps);
            var id := y.calls[c].id;
            !CanStayForGood(CallAct(y, c, CancelExpired), id) <==> !Held(y, id)
  {
    var y := After(start, steps);
    var id := y.calls[c].id;
    hide *;
    ReachedIsKnown(start, steps);
    DeadlineShape(y, c);
    KnownAfter(y, c, CancelExpired);
    Regardless(CallAct(y, c, CancelExpired), c, id);
  }

  lemma KnownAfter(y: System, c: CallId, a: CallStep)
    requires Known(y) && CallEnabled(y, c, a)
    ensures Known(CallAct(y, c, a))
  {
    hide Known, CallAct;
    StepKeepsKnown(y, Caller(c, a));
  }

  /** An ended call whose entry is not in the table: only a task that holds it can leave it behind. */
  lemma Regardless(z: System, c: CallId, id: RequestId)
    requires Known(z) && Ended(z, c, id) && id !in z.pending.entries
    ensures CanStayForGood(z, id) <==> Held(z, id)
  {
    hide *;
    CanStayExactlyWhen(z, c, id);
  }

  /** What history says: the request of a call that is over is in the table, or about to go back there, if and only if its
      cancel missed it and no failing of its session has met it. */
  lemma EndedIsInTableExactlyWhen(start: System, steps: seq<Step>, c: CallId)
    requires Initial(start) && Runs(start, steps)
    requires var y := After(start, steps); c in y.calls && y.calls[c].Done?
    ensures var y := After(start, steps);
            var id := y.calls[c].id;
            InTable(y, id) <==> id in y.missed && !(SessionFailedBefore(y, id) && Met(y, id))
  {
    ReachedIsKnown(start, steps);
    var y := After(start, steps);
    var id := y.calls[c].id;
    hide Runs, After, Initial;
    EndedIsRegistered(y, c, id);
    InTableMeansWaiting(y, id);
  }
}
