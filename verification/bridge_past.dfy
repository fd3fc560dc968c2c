/** What every run leaves on record: how each session was failed, what became of every frame a writer took, and which
    answers can no longer arrive. */
module BridgePast {
  import opened Wrappers
  import opened Pending
  import opened Bridge
  import opened BridgeWaiters
  import opened BridgeFailing
  import opened BridgeWriters
  import opened BridgeAnswers
  import A = AddOn
  import K = BridgeTokens
  import T = BridgeTruth
  import R = BridgeRuns
  import S = BridgeSlot

  /** A call that returned a reply had its channel answered. */
  ghost predicate RepliesWereAnswered(y: System)
  {
    forall c | c in y.calls && y.calls[c].Done? && y.calls[c].result.Reply? :: WasAnswered(y, y.calls[c].id)
  }

  ghost predicate Known(y: System)
  {
    R.Inv(y) && StatusInv(y) && LedgerInv(y) && PullInv(y) && AnswerInv(y) && RepliesWereAnswered(y)
    && StraysElsewhere(y)
  }

  lemma InitialKnown(y: System)
    requires Initial(y)
    ensures Known(y)
  {
    R.InitialInv(y);
    hide R.Inv;
    InitialLedger(y);
    InitialPulls(y);
    InitialAnswers(y);
  }

  lemma InitialLedger(y: System)
    requires Initial(y)
    ensures StatusInv(y) && LedgerInv(y)
  {
  }

  lemma InitialPulls(y: System)
    requires Initial(y)
    ensures PullInv(y)
  {
    forall p | p in y.peers ensures Suffix(y.peers[p].addon.log.taken, FramesOf(Mine(y.past.pulls, p))) {
      assert y.peers[p].addon == A.Idle;
    }
  }

  lemma InitialAnswers(y: System)
    requires Initial(y)
    ensures AnswerInv(y)
  {
    forall s ensures !Here(y, s) {
      if s.Inbox? || s.Dispatch? || s.Outbox? { assert s.peer in y.peers ==> y.peers[s.peer].addon == A.Idle; }
    }
  }

  lemma ReplyStep(y: System, a: Step)
    requires R.Inv(y) && RepliesWereAnswered(y) && Enabled(y, a)
    ensures RepliesWereAnswered(Act(y, a))
  {
    var z := Act(y, a);
    forall c | c in z.calls && z.calls[c].Done? && z.calls[c].result.Reply? ensures WasAnswered(z, z.calls[c].id) {
      R.SettledStaysSettled(y, a, z.calls[c].id, c);
      ReplyComes(y, a, c);
    }
  }

  lemma ReplyComes(y: System, a: Step, c: CallId)
    requires Enabled(y, a)
    requires var z := Act(y, a); c in z.calls && z.calls[c].Done? && z.calls[c].result.Reply?
    ensures var z := Act(y, a);
            (c in y.calls && y.calls[c].Done? && y.calls[c] == z.calls[c]) || WasAnswered(y, z.calls[c].id)
  {
    match a
    case Server(sid, s) => ServerInstalled(y, sid, s);
    case Main(p, s) => PeerIsQuiet(y, p, s);
    case Writer(sid, s) => WriterIsQuiet(y, sid, s);
    case Caller(d, s) => T.CallResult(y, d, s);
  }

  lemma StepKeepsKnown(y: System, a: Step)
    requires Known(y) && Enabled(y, a)
    ensures Known(Act(y, a))
  {
    assert K.CallsKnowWhatWasSent(y) && HandsInv(y) && WaiterInv(y) && S.SlotInv(y);
    hide StatusInv, LedgerInv, PullInv, AnswerInv, WaiterInv, HandsInv, S.SlotInv, K.CallsKnowWhatWasSent, Act, Enabled;
    R.StepKeepsInv(y, a);
    StepKeepsStatus(y, a);
    StepKeepsLedger(y, a);
    StepKeepsPulls(y, a);
    StepKeepsAnswers(y, a);
    ReplyStep(y, a);
    StepKeepsElsewhere(y, a);
  }

  lemma {:induction false} RunKeepsKnown(y: System, steps: seq<Step>)
    requires Known(y) && Runs(y, steps)
    ensures Known(After(y, steps))
    decreases |steps|
  {
    if steps == [] {
    } else {
      hide Known;
      StepKeepsKnown(y, steps[0]);
      RunKeepsKnown(Act(y, steps[0]), steps[1..]);
    }
  }

  lemma ReachedIsKnown(start: System, steps: seq<Step>)
    requires Initial(start) && Runs(start, steps)
    ensures Known(After(start, steps))
  {
    InitialKnown(start);
    RunKeepsKnown(start, steps);
  }

  // ---------------------------------------------------------------------------
  // Failing a session
  // ---------------------------------------------------------------------------

  /** Over every run, an installed session is in the slot, about to be failed by one task, or has been failed: one of
      the three. */
  lemma EverySessionHasOneFate(start: System, steps: seq<Step>, d: SessionId)
    requires Initial(start) && Runs(start, steps) && d in After(start, steps).installed
    ensures var y := After(start, steps);
            && (y.slot == Some(d) || AboutToFail(y, d) || d in y.past.failed)
            && !(y.slot == Some(d) && AboutToFail(y, d)) && !(y.slot == Some(d) && d in y.past.failed)
            && !(AboutToFail(y, d) && d in y.past.failed)
    ensures var y := After(start, steps);
            forall s, t | TaskFails(y, s, d) && TaskFails(y, t, d) :: s == t
  {
    ReachedIsKnown(start, steps);
  }

  lemma OneFailing(y: System, a: Step, d: SessionId)
    requires StatusInv(y) && Enabled(y, a) && d in y.past.failed
    ensures var z := Act(y, a); d in z.past.failed && z.past.failed[d] == y.past.failed[d]
  {
    match a
    case Server(sid, s) =>
      if s.FailPrevious? || s.FailOwn? { FailingShape(y, sid, s); } else { ServerPast(y, sid, s); }
    case Main(p, s) => PeerStrays(y, p, s);
    case Writer(sid, s) => WriterStrays(y, sid, s);
    case Caller(c, s) => CallStrays(y, c, s);
  }

  /** A session is failed at most once: what its failing met is never overwritten by a later one. */
  lemma {:induction false} FailedAtMostOnce(y: System, steps: seq<Step>, d: SessionId)
    requires Known(y) && Runs(y, steps) && d in y.past.failed
    ensures var z := After(y, steps); d in z.past.failed && z.past.failed[d] == y.past.failed[d]
    decreases |steps|
  {
    if steps == [] {
    } else {
      OneFailing(y, steps[0], d);
      StepKeepsKnown(y, steps[0]);
      hide Known, Act, Enabled;
      FailedAtMostOnce(Act(y, steps[0]), steps[1..], d);
    }
  }

  /** What one failing leaves: of the requests of its session, exactly those held as strays. */
  lemma FailingLeavesExactlyTheHeld(y: System, sid: SessionId, a: ServerStep, id: RequestId)
    requires Known(y) && ServerEnabled(y, sid, a) && (a.FailPrevious? || a.FailOwn?) && InTable(y, id)
    requires id in y.past.sessions ==> y.past.sessions[id] == if a.FailOwn? then sid else y.conns[sid].pc.previous
    ensures InTable(ServerAct(y, sid, a), id) <==> Held(y, id)
  {
    var d := if a.FailOwn? then sid else y.conns[sid].pc.previous;
    var z := ServerAct(y, sid, a);
    FailingShape(y, sid, a);
    hide ServerAct, StatusInv, PullInv, AnswerInv;
    SameHeld(y, z);
    if id in y.pending.entries {
      assert Carries(y, id, y.pending.entries[id]);
      assert id in OfSession(y.pending, d);
    }
  }

  /** The exact condition, over every run: once its session has been failed, a request that was neither answered nor
      cancelled is still in the table, or in a task's hands on its way back, if and only if it was registered after the
      failing or was held as a stray while it happened. Otherwise its caller is told that the connection is lost. */
  lemma InTableAfterFailingExactlyWhen(start: System, steps: seq<Step>, id: RequestId)
    requires Initial(start) && Runs(start, steps)
    requires var y := After(start, steps);
             && id in y.past.sessions && y.past.sessions[id] in y.past.failed
             && id in y.pending.cells && !y.pending.cells[id].Dropped? && !WasAnswered(y, id)
    ensures var y := After(start, steps);
            var f := y.past.failed[y.past.sessions[id]];
            InTable(y, id) <==> id !in f.known || id in f.held
    ensures var y := After(start, steps);
            !InTable(y, id) <==> y.pending.cells[id] == Sent(ConnectionLost)
  {
    ReachedIsKnown(start, steps);
    hide Runs, After, StatusInv, PullInv, AnswerInv;
    InTableWhenNotMet(After(start, steps), id);
  }

  lemma InTableWhenNotMet(y: System, id: RequestId)
    requires WaiterInv(y) && LedgerInv(y) && id in y.past.sessions && y.past.sessions[id] in y.past.failed
    requires id in y.pending.cells && !y.pending.cells[id].Dropped? && !WasAnswered(y, id)
    ensures InTable(y, id) <==> !Met(y, id)
    ensures !InTable(y, id) <==> y.pending.cells[id] == Sent(ConnectionLost)
  {
    InTableMeansWaiting(y, id);
  }

  lemma InTableMeansWaiting(y: System, id: RequestId)
    requires WaiterInv(y)
    ensures InTable(y, id) ==> id in y.pending.cells && y.pending.cells[id].Waiting?
  {
    if Held(y, id) {
      var sid :| HoldsStray(y, sid, id);
    }
  }

  // ---------------------------------------------------------------------------
  // What writers took
  // ---------------------------------------------------------------------------

  /** Over every run and for every Blender, the requests read are accounted for up to the wire. */
  lemma RequestsConservedOverRuns(start: System, steps: seq<Step>, p: PeerId)
    requires Initial(start) && Runs(start, steps) && p in After(start, steps).peers
    ensures var y := After(start, steps);
            var s := y.peers[p].addon;
            var since := Since(y, p);
            && multiset(A.Ids(s.log.accepted)) + multiset(s.log.refused)
              == multiset(A.Ids(s.inbox)) + multiset(A.Ids(A.BusyList(s)))
               + A.Responses(s.outbox) + A.Responses(A.Frames(s.log.tried, false))
               + Tally(since, Crossed) + Tally(since, TooBig) + Tally(since, InHand) + Tally(since, Gone)
            && s.log.taken == FramesOf(since)
  {
    ReachedIsKnown(start, steps);
    var y := After(start, steps);
    RequestsConservedToTheWire(y, p);
    TakenIsSince(y, p);
  }

  /** Over every run, what writers took is where it is said to be: what is in hand is the frame of that connection's one
      unsettled pull, what is on its way up is the last of what crossed, and what is gone was pulled for a socket that
      takes no more writes. */
  lemma PullsAreWhereTheySay(start: System, steps: seq<Step>)
    requires Initial(start) && Runs(start, steps)
    ensures var y := After(start, steps);
            && (forall k | 0 <= k < |y.past.pulls| ::
                  && y.past.pulls[k].conn in y.conns
                  && (y.past.pulls[k].fate.InHand? ==> y.conns[y.past.pulls[k].conn].hand == Some(y.past.pulls[k].frame))
                  && (y.past.pulls[k].fate.Gone? ==> !y.conns[y.past.pulls[k].conn].open))
            && (forall sid | sid in y.conns && y.conns[sid].hand.Some? :: Pulled(y, sid))
            && (forall i, j | 0 <= i < j < |y.past.pulls| && y.past.pulls[i].conn == y.past.pulls[j].conn ::
                  !y.past.pulls[i].fate.InHand?)
            && (forall sid | sid in y.conns :: Suffix(y.conns[sid].up, Arrivals(y.past.pulls, sid)))
  {
    ReachedIsKnown(start, steps);
  }

  /** Over every run: a frame taken gets across in some continuation exactly when its socket still takes writes. */
  lemma TakenFramesCrossExactlyWhenOpen(start: System, steps: seq<Step>, k: nat)
    requires Initial(start) && Runs(start, steps)
    requires var y := After(start, steps); k < |y.past.pulls| && y.past.pulls[k].fate.InHand?
    ensures var y := After(start, steps);
            && y.past.pulls[k].conn in y.conns
            && ((exists later :: Runs(y, later) && GotAcross(After(y, later), k)) <==> y.conns[y.past.pulls[k].conn].open)
  {
    ReachedIsKnown(start, steps);
    GetsAcrossExactlyWhenOpen(After(start, steps), k);
  }

  /** A lost answer never arrives another way: nothing of its request is under way any more, its channel has not been
      answered, and no call returns a reply to it. */
  lemma LostAnswersNeverArrive(start: System, steps: seq<Step>, id: RequestId)
    requires Initial(start) && Runs(start, steps) && AnswerLost(After(start, steps), id)
    ensures var y := After(start, steps);
            && Over(y, id) && !WasAnswered(y, id)
            && forall c | c in y.calls && y.calls[c].Done? && y.calls[c].id == id :: !y.calls[c].result.Reply?
  {
    ReachedIsKnown(start, steps);
  }

  /** Over every run, a request and its response are one thing in at most one place: a writer task's queue, the wire, an
      inbox, in dispatch, an outbox, a writer's hand, or on the way back; and an answered channel had the only one. */
  lemma OneAnswerUnderWay(start: System, steps: seq<Step>)
    requires Initial(start) && Runs(start, steps)
    ensures var y := After(start, steps);
            && (forall s, t | Here(y, s) && Here(y, t) && IdAt(y, s) == IdAt(y, t) :: s == t)
            && (forall id | WasAnswered(y, id) || Held(y, id) || id in y.missed || AnswerLost(y, id) :: Over(y, id))
  {
    ReachedIsKnown(start, steps);
    var y := After(start, steps);
    forall id | Held(y, id) ensures Over(y, id) {
      var sid :| HoldsStray(y, sid, id);
    }
  }
}
