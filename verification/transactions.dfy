/** Undo-backed transactions: begin, step, commit and rollback over Blender's bounded undo stack. */
module Transactions {
  import opened Wrappers

  datatype Active = Active(id: string, name: string, steps: nat, revision: nat)

  datatype Reply =
    | Began(id: string, revision: nat)
    | Stepped(id: string, steps: nat, revision: nat)
    | Committed(id: string, steps: nat, revision: nat)
    | RolledBack(id: string, stepsUndone: nat, revision: nat)
    | TransactionUnsupported
    | TransactionFailed
    | RollbackFailed(id: string, undone: nat, expected: nat)

  /** `stack` ends with the current undo step; `live` is the scene as it stands, pushed or not. */
  datatype State<Scene> = State(
    undoAvailable: bool, limit: nat, stack: seq<Scene>, live: Scene, active: Option<Active>, revision: nat)

  ghost predicate Valid<Scene>(s: State<Scene>)
  {
    1 <= s.limit && |s.stack| <= s.limit
  }

  /** The last `n` elements, or all of them: what a bounded stack keeps. */
  function Newest<T>(s: seq<T>, n: nat): (r: seq<T>)
    ensures |r| == if |s| <= n then |s| else n
  {
    if |s| <= n then s else s[|s| - n..]
  }

  function Push<Scene>(s: State<Scene>): State<Scene>
  {
    s.(stack := Newest(s.stack + [s.live], s.limit))
  }

  predicate CanUndo<Scene>(s: State<Scene>)
  {
    |s.stack| >= 2
  }

  function Undo<Scene>(s: State<Scene>): State<Scene>
    requires CanUndo(s)
  {
    s.(stack := s.stack[..|s.stack| - 1], live := s.stack[|s.stack| - 2])
  }

  function UndoTimes<Scene>(s: State<Scene>, n: nat): State<Scene>
    requires n == 0 || n < |s.stack|
  {
    if n == 0 then s
    else s.(stack := s.stack[..|s.stack| - n], live := s.stack[|s.stack| - 1 - n])
  }

  lemma UndoNone<Scene>(s: State<Scene>)
    ensures UndoTimes(s, 0) == s
  {
  }

  lemma UndoOneMore<Scene>(s: State<Scene>, n: nat)
    requires n == 0 || n < |s.stack|
    ensures var t := UndoTimes(s, n);
            && t.active == s.active && t.revision == s.revision && (CanUndo(t) <==> n + 1 < |s.stack|)
            && (CanUndo(t) ==> Undo(t) == UndoTimes(s, n + 1))
  {
  }

  function Min(a: nat, b: nat): nat { if a <= b then a else b }

  // ---------------------------------------------------------------------------
  // The operations as functions of the state
  // ---------------------------------------------------------------------------

  function Begun<Scene>(s: State<Scene>, id: string, name: string): (State<Scene>, Reply)
  {
    if !s.undoAvailable then (s, TransactionUnsupported)
    else if s.active.Some? then (s, TransactionFailed)
    else (Push(s).(active := Some(Active(id, name, 0, s.revision))), Began(id, s.revision))
  }

  function Marked<Scene>(s: State<Scene>): (State<Scene>, Reply)
  {
    match s.active
    case None => (s, TransactionFailed)
    case Some(a) =>
      (Push(s).(active := Some(a.(steps := a.steps + 1))), Stepped(a.id, a.steps + 1, s.revision))
  }

  function Closed<Scene>(s: State<Scene>): (State<Scene>, Reply)
  {
    match s.active
    case None => (s, TransactionFailed)
    case Some(a) => (s.(active := None), Committed(a.id, a.steps, s.revision))
  }

  /** How many undo calls succeed. The `raises`-th call, if any, throws instead of answering. */
  function UndoneBy<Scene>(s: State<Scene>, steps: nat, raises: Option<nat>): nat
  {
    var possible := Min(steps + 1, if |s.stack| == 0 then 0 else |s.stack| - 1);
    if raises.Some? then Min(possible, raises.value) else possible
  }

  /** When the loop ends, this is how many calls succeeded, and whether they were enough. */
  lemma UndoneIs<Scene>(s: State<Scene>, steps: nat, raises: Option<nat>, undone: nat, failure: bool)
    requires undone <= steps + 1 && (undone == 0 || undone < |s.stack|) && (raises.Some? ==> undone <= raises.value)
    requires if failure then undone <= steps && (raises == Some(undone) || undone + 1 >= |s.stack|) else undone == steps + 1
    ensures undone == UndoneBy(s, steps, raises)
  {
  }

  function Reverted<Scene>(s: State<Scene>, raises: Option<nat>): (State<Scene>, Reply)
  {
    match s.active
    case None => (s, TransactionFailed)
    case Some(a) =>
      var undone := UndoneBy(s, a.steps, raises);
      var s' := UndoTimes(s, undone).(active := None, revision := s.revision + 1);
      (s', if undone == a.steps + 1 then RolledBack(a.id, undone, s'.revision)
           else RollbackFailed(a.id, undone, a.steps + 1))
  }

  // ---------------------------------------------------------------------------
  // The handlers
  // ---------------------------------------------------------------------------

  class Host<Scene> {
    const undoAvailable: bool
    const limit: nat
    var stack: seq<Scene>
    var live: Scene
    var active: Option<Active>
    var revision: nat

    constructor (undoAvailable: bool, limit: nat, stack: seq<Scene>, live: Scene)
      ensures Model() == State(undoAvailable, limit, stack, live, None, 0)
    {
      this.undoAvailable, this.limit, this.stack, this.live := undoAvailable, limit, stack, live;
      active, revision := None, 0;
    }

    ghost function Model(): State<Scene>
      reads this
    {
      State(undoAvailable, limit, stack, live, active, revision)
    }

    /** `bpy.ops.ed.undo_push`: the live scene becomes the newest step, the oldest falls off at the limit. */
    method UndoPush()
      modifies this
      ensures Model() == Push(old(Model()))
    {
      stack := stack + [live];
      if |stack| > limit {
        stack := stack[|stack| - limit..];
      }
    }

    /** `bpy.ops.ed.undo`: loads the step before the current one, or is cancelled. */
    method UndoOnce() returns (finished: bool)
      modifies this
      ensures finished == old(CanUndo(Model()))
      ensures Model() == if finished then Undo(old(Model())) else old(Model())
    {
      finished := |stack| >= 2;
      if finished {
        stack, live := stack[..|stack| - 1], stack[|stack| - 2];
      }
    }

    method Begin(id: string, name: string) returns (reply: Reply)
      modifies this
      ensures (Model(), reply) == Begun(old(Model()), id, name)
    {
      if !undoAvailable {
        return TransactionUnsupported;
      }
      if active.Some? {
        return TransactionFailed;
      }
      UndoPush();
      active := Some(Active(id, name, 0, revision));
      reply := Began(id, revision);
    }

    method Step() returns (reply: Reply)
      modifies this
      ensures (Model(), reply) == Marked(old(Model()))
    {
      if active.None? {
        return TransactionFailed;
      }
      UndoPush();
      active := Some(active.value.(steps := active.value.steps + 1));
      reply := Stepped(active.value.id, active.value.steps, revision);
    }

    method Commit() returns (reply: Reply)
      modifies this
      ensures (Model(), reply) == Closed(old(Model()))
    {
      if active.None? {
        return TransactionFailed;
      }
      reply := Committed(active.value.id, active.value.steps, revision);
      active := None;
    }

    method Rollback(raises: Option<nat>) returns (reply: Reply)
      modifies this
      ensures (Model(), reply) == Reverted(old(Model()), raises)
    {
      if active.None? {
        return TransactionFailed;
      }
      UndoNone(old(Model()));
      hide UndoTimes, CanUndo, Undo;
      var steps := active.value.steps;
      var undone := 0;
      var failure := false;
      while undone < steps + 1 && !failure
        invariant undone <= steps + 1 && (undone == 0 || undone < |old(stack)|)
        invariant Model() == UndoTimes(old(Model()), undone)
        invariant raises.Some? ==> undone <= raises.value
        invariant failure ==> undone <= steps
        invariant failure ==> raises == Some(undone) || undone + 1 >= |old(stack)|
        decreases steps + 1 - undone, !failure
      {
        if raises == Some(undone) {
          failure := true;
        } else {
          failure := UndoNext(old(Model()), undone);
          undone := if failure then undone else undone + 1;
        }
      }
      UndoneIs(old(Model()), steps, raises, undone, failure);
      UndoOneMore(old(Model()), undone);
      var id := active.value.id;
      active := None;
      revision := revision + 1;
      reply := if failure then RollbackFailed(id, undone, steps + 1) else RolledBack(id, undone, revision);
    }

    /** One more undo call, after `undone` of them since the state `was`. */
    method UndoNext(ghost was: State<Scene>, undone: nat) returns (failed: bool)
      requires (undone == 0 || undone < |was.stack|) && Model() == UndoTimes(was, undone)
      modifies this
      ensures failed ==> Model() == UndoTimes(was, undone) && undone + 1 >= |was.stack|
      ensures !failed ==> undone + 1 < |was.stack| && Model() == UndoTimes(was, undone + 1)
    {
      UndoOneMore(was, undone);
      hide UndoTimes, CanUndo, Undo;
      var finished := UndoOnce();
      failed := !finished;
    }
  }

  // ---------------------------------------------------------------------------
  // Runs
  // ---------------------------------------------------------------------------

  /** What may happen between the calls: any handler, succeeding or failing, may change the live scene and
      the revision, but pushes no undo step. */
  datatype Action<Scene> =
    | DoBegin(id: string, name: string)
    | DoStep
    | DoCommit
    | DoRollback(raises: Option<nat>)
    | Operate(scene: Scene, bumps: nat)

  function Act<Scene>(s: State<Scene>, a: Action<Scene>): State<Scene>
  {
    match a
    case DoBegin(id, name) => Begun(s, id, name).0
    case DoStep => Marked(s).0
    case DoCommit => Closed(s).0
    case DoRollback(raises) => Reverted(s, raises).0
    case Operate(scene, bumps) => s.(live := scene, revision := s.revision + bumps)
  }

  function Run<Scene>(s: State<Scene>, actions: seq<Action<Scene>>): State<Scene>
  {
    if actions == [] then s else Act(Run(s, actions[..|actions| - 1]), actions[|actions| - 1])
  }

  /** Neither commit nor rollback: the transaction opened before these actions is still the one open after. */
  predicate StaysOpen<Scene>(actions: seq<Action<Scene>>)
  {
    forall k | 0 <= k < |actions| :: !actions[k].DoCommit? && !actions[k].DoRollback?
  }

  /** The scenes marked by the steps of a run, in order. */
  function Marks<Scene>(s: State<Scene>, actions: seq<Action<Scene>>): seq<Scene>
  {
    if actions == [] then []
    else
      var before := actions[..|actions| - 1];
      Marks(s, before) + if actions[|actions| - 1].DoStep? then [Run(s, before).live] else []
  }

  lemma NewestOfNewest<T>(s: seq<T>, x: T, n: nat)
    requires n >= 1
    ensures Newest(Newest(s, n) + [x], n) == Newest(s + [x], n)
  {
  }

  /** Every interleaving since begin: boundaries pushed equal `steps` + 1, and they lie on the stack in the order
      they were pushed, above whatever the limit left of the earlier steps. */
  lemma {:induction false} BoundariesAreCounted<Scene>(
    s: State<Scene>, id: string, name: string, actions: seq<Action<Scene>>)
    requires Valid(s) && s.undoAvailable && s.active.None? && StaysOpen(actions)
    ensures var open := Run(Begun(s, id, name).0, actions);
            && open.active.Some? && open.active.value.id == id
            && open.active.value.steps == |Marks(Begun(s, id, name).0, actions)|
            && open.stack == Newest(s.stack + [s.live] + Marks(Begun(s, id, name).0, actions), s.limit)
            && open.limit == s.limit
    decreases |actions|
  {
    var begun := Begun(s, id, name).0;
    if actions == [] {
      assert s.stack + [s.live] + [] == s.stack + [s.live];
    } else {
      var before, last := actions[..|actions| - 1], actions[|actions| - 1];
      BoundariesAreCounted(s, id, name, before);
      var marks := Marks(begun, before);
      if last.DoStep? {
        var scene := Run(begun, before).live;
        NewestOfNewest(s.stack + [s.live] + marks, scene, s.limit);
        assert s.stack + [s.live] + marks + [scene] == s.stack + [s.live] + (marks + [scene]);
      }
    }
  }

  /** The state a rollback meets, reduced to what matters: how many steps were marked. */
  ghost predicate OpenedOn<Scene(!new)>(s: State<Scene>, open: State<Scene>, steps: nat)
  {
    && Valid(s) && open.limit == s.limit && open.active.Some? && open.active.value.steps == steps
    && exists pushed :: HoldsBoundaries(s, open.stack, steps, pushed)
  }

  /** The stack since begin: the begin boundary and one boundary a step, above what the limit left of `s.stack`. */
  ghost predicate HoldsBoundaries<Scene>(s: State<Scene>, stack: seq<Scene>, steps: nat, pushed: seq<Scene>)
  {
    |pushed| == steps + 1 && pushed[0] == s.live && stack == Newest(s.stack + pushed, s.limit)
  }

  lemma BeginOpensOn<Scene(!new)>(s: State<Scene>, id: string, name: string, actions: seq<Action<Scene>>)
    requires Valid(s) && s.undoAvailable && s.active.None? && StaysOpen(actions)
    ensures var open := Run(Begun(s, id, name).0, actions);
            open.active.Some? && OpenedOn(s, open, open.active.value.steps)
  {
    BoundariesAreCounted(s, id, name, actions);
    var open := Run(Begun(s, id, name).0, actions);
    var marks := Marks(Begun(s, id, name).0, actions);
    assert s.stack + [s.live] + marks == s.stack + ([s.live] + marks);
    assert HoldsBoundaries(s, open.stack, open.active.value.steps, [s.live] + marks);
  }

  /** When rollback succeeds, and where it lands: exactly when a step lay beneath the begin boundary and the limit
      still holds it, and then on that step, with the earlier steps the limit spared beneath it. */
  lemma RollbackLands<Scene(!new)>(s: State<Scene>, open: State<Scene>, steps: nat)
    requires OpenedOn(s, open, steps)
    ensures var (after, reply) := Reverted(open, None);
            && (reply.RolledBack? <==> |s.stack| >= 1 && steps + 2 <= s.limit)
            && (reply.RolledBack? ==>
                  && reply.stepsUndone == steps + 1
                  && after.live == s.stack[|s.stack| - 1]
                  && after.stack == Newest(s.stack, s.limit - steps - 1))
            && after.active.None?
  {
    var pushed :| HoldsBoundaries(s, open.stack, steps, pushed);
    if |s.stack| >= 1 && steps + 2 <= s.limit {
      StackAfterUndo(s.stack, pushed, s.limit);
      assert UndoneBy(open, steps, None) == steps + 1;
    } else {
      assert UndoneBy(open, steps, None) <= steps;
    }
  }

  /** Taking the pushed boundaries off again leaves the newest of the earlier steps. */
  lemma StackAfterUndo<T>(below: seq<T>, pushed: seq<T>, limit: nat)
    requires |below| >= 1 && |pushed| < limit
    ensures var stack := Newest(below + pushed, limit);
            && |stack| > |pushed|
            && stack[..|stack| - |pushed|] == Newest(below, limit - |pushed|)
            && stack[|stack| - 1 - |pushed|] == below[|below| - 1]
  {
    var full := below + pushed;
    var stack := Newest(full, limit);
    var kept := stack[..|stack| - |pushed|];
    assert |stack| > |pushed|;
    forall k | 0 <= k < |kept|
      ensures kept[k] == below[|below| - |kept| + k]
    {
      assert stack[k] == full[|full| - |stack| + k];
    }
  }

  /** Otherwise it reports ROLLBACK_FAILED with the number of undo calls that really succeeded, whether the
      stack ran out or an undo call raised; it never reports success. */
  lemma FailedRollbackTellsTheTruth<Scene(!new)>(s: State<Scene>, open: State<Scene>, steps: nat, raises: Option<nat>)
    requires OpenedOn(s, open, steps)
    ensures var (after, reply) := Reverted(open, raises);
            var undone := UndoneBy(open, steps, raises);
            && (reply.RolledBack? <==>
                  |s.stack| >= 1 && steps + 2 <= s.limit && (raises.None? || raises.value > steps))
            && (!reply.RolledBack? ==> reply == RollbackFailed(open.active.value.id, undone, steps + 1) && undone <= steps)
            && |after.stack| == |open.stack| - undone
            && after.active.None?
  {
    var pushed :| HoldsBoundaries(s, open.stack, steps, pushed);
  }

  /** The scene was pushed and not changed since. */
  predicate Current<Scene(==)>(s: State<Scene>)
  {
    s.stack != [] && s.stack[|s.stack| - 1] == s.live
  }

  /** A successful rollback restores the scene as it was at begin if and only if that scene was current then. */
  lemma RollbackRestoresExactlyWhenCurrent<Scene(!new)>(s: State<Scene>, open: State<Scene>, steps: nat)
    requires OpenedOn(s, open, steps) && Reverted(open, None).1.RolledBack?
    ensures Reverted(open, None).0.live == s.live <==> Current(s)
    ensures Current(Reverted(open, None).0)
  {
    hide Reverted, OpenedOn, HoldsBoundaries;
    RollbackLands(s, open, steps);
  }

  // ---------------------------------------------------------------------------
  // A whole transaction
  // ---------------------------------------------------------------------------

  function StepsIn<Scene>(actions: seq<Action<Scene>>): nat
  {
    if actions == [] then 0
    else StepsIn(actions[..|actions| - 1]) + if actions[|actions| - 1].DoStep? then 1 else 0
  }

  lemma {:induction false} MarksAreSteps<Scene>(s: State<Scene>, actions: seq<Action<Scene>>)
    ensures |Marks(s, actions)| == StepsIn(actions)
  {
    if actions != [] { MarksAreSteps(s, actions[..|actions| - 1]); }
  }

  lemma RunLast<Scene>(s: State<Scene>, actions: seq<Action<Scene>>, last: Action<Scene>)
    ensures Run(s, actions + [last]) == Act(Run(s, actions), last)
  {
    assert (actions + [last])[..|actions|] == actions;
  }

  lemma {:induction false} RunFirst<Scene>(s: State<Scene>, first: Action<Scene>, actions: seq<Action<Scene>>)
    ensures Run(s, [first] + actions) == Run(Act(s, first), actions)
  {
    if actions == [] {
      assert [first] + actions == [] + [first];
      RunLast(s, [], first);
    } else {
      var before, last := actions[..|actions| - 1], actions[|actions| - 1];
      RunFirst(s, first, before);
      assert [first] + actions == [first] + before + [last] && actions == before + [last];
      RunLast(s, [first] + before, last);
      RunLast(Act(s, first), before, last);
    }
  }

  /** The run of one transaction: begin, anything but its end, rollback. */
  function Attempt<Scene>(id: string, name: string, actions: seq<Action<Scene>>, raises: Option<nat>): seq<Action<Scene>>
  {
    [DoBegin(id, name)] + actions + [DoRollback(raises)]
  }

  lemma AttemptRuns<Scene>(s: State<Scene>, id: string, name: string, actions: seq<Action<Scene>>, raises: Option<nat>)
    requires s.undoAvailable && s.active.None?
    ensures Run(s, Attempt(id, name, actions, raises)) == Reverted(Run(Begun(s, id, name).0, actions), raises).0
  {
    RunLast(s, [DoBegin(id, name)] + actions, DoRollback(raises));
    RunFirst(s, DoBegin(id, name), actions);
  }

  /** Over every run of one transaction, whatever comes between begin and rollback and wherever an undo call raises: the
      rollback succeeds exactly when a step lay beneath the begin boundary, the limit still holds it, and no undo call it
      needs raised; then the scene is the one of that step, which is the scene at begin exactly when that was current; else
      the reply says how many undo calls succeeded. Either way the transaction is closed and its changes are numbered. */
  lemma RolledBackRun<Scene(!new)>(s: State<Scene>, id: string, name: string, actions: seq<Action<Scene>>, raises: Option<nat>)
    requires Valid(s) && s.undoAvailable && s.active.None? && StaysOpen(actions)
    ensures var open := Run(Begun(s, id, name).0, actions);
            var end := Run(s, Attempt(id, name, actions, raises));
            var reply := Reverted(open, raises).1;
            var steps := StepsIn(actions);
            && end == Reverted(open, raises).0 && end.active.None? && end.revision == open.revision + 1
            && (reply.RolledBack? <==> |s.stack| >= 1 && steps + 2 <= s.limit && (raises.None? || raises.value > steps))
            && (reply.RolledBack? ==>
                  && reply == RolledBack(id, steps + 1, end.revision)
                  && end.live == s.stack[|s.stack| - 1] && end.stack == Newest(s.stack, s.limit - steps - 1)
                  && (end.live == s.live <==> Current(s)))
            && (!reply.RolledBack? ==>
                  reply == RollbackFailed(id, |open.stack| - |end.stack|, steps + 1) && |open.stack| - |end.stack| <= steps)
  {
    var open := Run(Begun(s, id, name).0, actions);
    BeginOpensOn(s, id, name, actions);
    BoundariesAreCounted(s, id, name, actions);
    MarksAreSteps(Begun(s, id, name).0, actions);
    AttemptRuns(s, id, name, actions, raises);
    hide Run, Begun, OpenedOn, Marks, StepsIn, Newest;
    RollbackOf(s, open, StepsIn(actions), raises);
  }

  lemma RollbackOf<Scene(!new)>(s: State<Scene>, open: State<Scene>, steps: nat, raises: Option<nat>)
    requires OpenedOn(s, open, steps)
    ensures var (end, reply) := Reverted(open, raises);
            && end.active.None? && end.revision == open.revision + 1
            && (reply.RolledBack? <==> |s.stack| >= 1 && steps + 2 <= s.limit && (raises.None? || raises.value > steps))
            && (reply.RolledBack? ==>
                  && reply == RolledBack(open.active.value.id, steps + 1, end.revision)
                  && end.live == s.stack[|s.stack| - 1] && end.stack == Newest(s.stack, s.limit - steps - 1)
                  && (end.live == s.live <==> Current(s)))
            && (!reply.RolledBack? ==>
                  && reply == RollbackFailed(open.active.value.id, |open.stack| - |end.stack|, steps + 1)
                  && |open.stack| - |end.stack| <= steps)
  {
    FailedRollbackTellsTheTruth(s, open, steps, raises);
    RollbackLands(s, open, steps);
    if Reverted(open, raises).1.RolledBack? {
      assert UndoneBy(open, steps, raises) == UndoneBy(open, steps, None) == steps + 1;
      RollbackRestoresExactlyWhenCurrent(s, open, steps);
    }
    hide OpenedOn, HoldsBoundaries, Newest;
  }

  /** The failing family is reachable: an edit made through any plain handler is never pushed, so the next
      transaction's rollback takes it away as well. */
  lemma UnpushedEditIsLost(before: int, edited: int, changed: int)
    requires before != edited
    ensures var s := Run(State(true, 32, [before], before, None, 0), [Operate(edited, 1)]);
            var open := Run(Begun(s, "t", "batch").0, [Operate(changed, 1)]);
            var (after, reply) := Reverted(open, None);
            s.live == edited && reply.RolledBack? && after.live == before
  {
    var start := State(true, 32, [before], before, None, 0);
    assert Run(start, [Operate(edited, 1)]) == start.(live := edited, revision := 1) by {
      assert [Operate(edited, 1)][..0] == [];
      assert Run(start, []) == start;
    }
    var s := Run(start, [Operate(edited, 1)]);
    var begun := Begun(s, "t", "batch").0;
    assert [Operate(changed, 1)][..0] == [];
    assert Run(begun, []) == begun;
    assert Run(begun, [Operate(changed, 1)]).stack == [before, edited];
  }

  /** Over every run from a closed state: the stack never exceeds its limit, the revision never falls, and a
      second begin while one is open is refused without touching anything. */
  lemma {:induction false} RunsStayValid<Scene>(s: State<Scene>, actions: seq<Action<Scene>>, id: string, name: string)
    requires Valid(s)
    ensures var end := Run(s, actions);
            && Valid(end) && end.limit == s.limit && end.revision >= s.revision
            && (end.active.Some? && end.undoAvailable ==> Begun(end, id, name) == (end, TransactionFailed))
    decreases |actions|
  {
    if actions != [] {
      var before := Run(s, actions[..|actions| - 1]);
      RunsStayValid(s, actions[..|actions| - 1], id, name);
      ActStaysValid(before, actions[|actions| - 1]);
      hide Act, Valid;
    }
  }

  lemma ActStaysValid<Scene>(s: State<Scene>, a: Action<Scene>)
    requires Valid(s)
    ensures Valid(Act(s, a)) && Act(s, a).limit == s.limit && Act(s, a).revision >= s.revision
  {
  }

  // ---------------------------------------------------------------------------
  // When a transaction is open, and what ends it
  // ---------------------------------------------------------------------------

  predicate Ends<Scene>(a: Action<Scene>)
  {
    a.DoCommit? || a.DoRollback?
  }

  /** The transaction of the first begin since the last commit or rollback is asked for by action `k`. */
  ghost predicate Opens<Scene(!new)>(actions: seq<Action<Scene>>, k: nat)
  {
    && k < |actions| && actions[k].DoBegin?
    && (forall j | k < j < |actions| :: !Ends(actions[j]))
    && (forall j | 0 <= j < k && actions[j].DoBegin? :: exists e :: j < e < k && Ends(actions[e]))
  }

  /** What is open after these actions, said without running them: nothing, the transaction open before them, or the one begun
      by the first begin since the last end, as old as that begin and with the steps since. */
  ghost predicate OpenIs<Scene(!new)>(s: State<Scene>, actions: seq<Action<Scene>>, active: Option<Active>)
  {
    match active
    case None =>
      && (s.active.None? || exists e :: 0 <= e < |actions| && Ends(actions[e]))
      && (s.undoAvailable ==>
            forall k | 0 <= k < |actions| && actions[k].DoBegin? :: exists e :: k < e < |actions| && Ends(actions[e]))
    case Some(a) =>
      || (s.active.Some? && StaysOpen(actions) && a == s.active.value.(steps := s.active.value.steps + StepsIn(actions)))
      || (s.undoAvailable && exists k: nat :: OpenedBy(s, actions, k, a))
  }

  ghost predicate OpenedBy<Scene(!new)>(s: State<Scene>, actions: seq<Action<Scene>>, k: nat, a: Active)
  {
    && Opens(actions, k) && (s.active.Some? ==> exists e :: 0 <= e < k && Ends(actions[e]))
    && a == Active(actions[k].id, actions[k].name, StepsIn(actions[k + 1..]), Run(s, actions[..k]).revision)
  }

  lemma StepsLast<Scene>(actions: seq<Action<Scene>>, last: Action<Scene>)
    ensures StepsIn(actions + [last]) == StepsIn(actions) + if last.DoStep? then 1 else 0
  {
    assert (actions + [last])[..|actions|] == actions;
  }

  lemma StillOpen<Scene(!new)>(s: State<Scene>, front: seq<Action<Scene>>, last: Action<Scene>, k: nat, a: Active)
    requires OpenedBy(s, front, k, a) && !Ends(last)
    ensures OpenedBy(s, front + [last], k, a.(steps := a.steps + if last.DoStep? then 1 else 0))
  {
    hide Run;
    var all := front + [last];
    assert all[..k] == front[..k] && all[k + 1..] == front[k + 1..] + [last];
    StepsLast(front[k + 1..], last);
    assert forall j | 0 <= j < |front| :: all[j] == front[j];
  }

  lemma JustOpened<Scene(!new)>(s: State<Scene>, front: seq<Action<Scene>>, id: string, name: string)
    requires OpenIs(s, front, None) && s.undoAvailable
    ensures OpenedBy(s, front + [DoBegin(id, name)], |front|, Active(id, name, 0, Run(s, front).revision))
  {
    hide Run;
    var all := front + [DoBegin(id, name)];
    assert all[..|front|] == front && all[|front| + 1..] == [];
    assert forall j | 0 <= j < |front| :: all[j] == front[j];
  }

  /** Over every run: what is open at its end is what the order of begins and ends says. */
  lemma {:induction false} OpenAfterRun<Scene(!new)>(s: State<Scene>, actions: seq<Action<Scene>>)
    ensures OpenIs(s, actions, Run(s, actions).active) && Run(s, actions).undoAvailable == s.undoAvailable
    decreases |actions|
  {
    if actions != [] {
      var front, last := actions[..|actions| - 1], actions[|actions| - 1];
      assert actions == front + [last];
      OpenAfterRun(s, front);
      RunLast(s, front, last);
      OpenAfterOneMore(s, front, last);
    }
  }

  lemma OpenAfterOneMore<Scene(!new)>(s: State<Scene>, front: seq<Action<Scene>>, last: Action<Scene>)
    requires OpenIs(s, front, Run(s, front).active) && Run(s, front).undoAvailable == s.undoAvailable
    ensures var t := Act(Run(s, front), last); OpenIs(s, front + [last], t.active) && t.undoAvailable == s.undoAvailable
  {
    hide Run, OpenedBy;
    var t, all := Run(s, front), front + [last];
    assert all[|front|] == last && forall j | 0 <= j < |front| :: all[j] == front[j];
    if Ends(last) {
    } else if t.active.None? {
      if last.DoBegin? && s.undoAvailable {
        JustOpened(s, front, last.id, last.name);
        assert OpenedBy(s, all, |front|, Active(last.id, last.name, 0, t.revision));
      } else {
        NothingYet(s, front, last);
      }
    } else {
      StepsLast(front, last);
      if s.undoAvailable && exists k: nat :: OpenedBy(s, front, k, t.active.value) {
        var k: nat :| OpenedBy(s, front, k, t.active.value);
        StillOpen(s, front, last, k, t.active.value);
      }
    }
  }

  lemma NothingYet<Scene(!new)>(s: State<Scene>, front: seq<Action<Scene>>, last: Action<Scene>)
    requires OpenIs(s, front, None) && !Ends(last) && (last.DoBegin? ==> !s.undoAvailable)
    ensures OpenIs(s, front + [last], None)
  {
    var all := front + [last];
    assert forall j | 0 <= j < |front| :: all[j] == front[j];
  }

  /** A transaction is open at the end of a run exactly when one was begun, in a host with an undo stack or before the run,
      and neither commit nor rollback came after it. */
  lemma OpenExactlyWhenBegunAndNotEnded<Scene(!new)>(s: State<Scene>, actions: seq<Action<Scene>>)
    ensures Run(s, actions).active.Some? <==>
              || (s.active.Some? && StaysOpen(actions))
              || (s.undoAvailable && exists k ::
                    0 <= k < |actions| && actions[k].DoBegin? && forall j | k < j < |actions| :: !Ends(actions[j]))
  {
    OpenAfterRun(s, actions);
    hide Run, StepsIn;
  }

  /** No transaction is open: only a begin is accepted, and it is exactly where there is an undo stack. */
  ghost predicate Idle<Scene(!new)>(s: State<Scene>)
  {
    && Marked(s) == (s, TransactionFailed) && Closed(s) == (s, TransactionFailed)
    && (forall raises :: Reverted(s, raises) == (s, TransactionFailed))
    && forall id, name :: Begun(s, id, name).1 == if s.undoAvailable then Began(id, s.revision) else TransactionUnsupported
  }

  lemma IdleExactlyWhenNoneIsOpen<Scene(!new)>(s: State<Scene>)
    ensures Idle(s) <==> s.active.None?
  {
    if s.active.Some? { assert Closed(s).1.Committed?; }
  }

  /** Over every run of one transaction: a commit replies with the id begun and the number of steps since, changes neither
      scene nor stack nor revision, and leaves the host as before the begin, ready for the next. */
  lemma CommittedRun<Scene(!new)>(s: State<Scene>, id: string, name: string, actions: seq<Action<Scene>>)
    requires Valid(s) && s.undoAvailable && s.active.None? && StaysOpen(actions)
    ensures var open := Run(s, [DoBegin(id, name)] + actions);
            var end := Run(s, [DoBegin(id, name)] + actions + [DoCommit]);
            && Closed(open).1 == Committed(id, StepsIn(actions), open.revision)
            && end.live == open.live && end.stack == open.stack && end.revision == open.revision
            && end.undoAvailable && Idle(end)
  {
    var before := [DoBegin(id, name)] + actions;
    RunFirst(s, DoBegin(id, name), actions);
    RunLast(s, before, DoCommit);
    BoundariesAreCounted(s, id, name, actions);
    MarksAreSteps(Begun(s, id, name).0, actions);
    OpenAfterRun(s, before);
    hide Run, Begun, Marks, StepsIn, OpenIs;
    IdleExactlyWhenNoneIsOpen(Closed(Run(s, before)).0);
  }

  /** What each call in an open transaction replies: a step the id and its own number, a second begin a refusal; each step pushes
      the scene as it stands and changes nothing else. */
  lemma StepsAreNumbered<Scene(!new)>(s: State<Scene>, id: string, name: string, actions: seq<Action<Scene>>)
    requires Valid(s) && s.undoAvailable && s.active.None? && StaysOpen(actions)
    ensures var open := Run(s, [DoBegin(id, name)] + actions);
            var (after, reply) := Marked(open);
            && reply == Stepped(id, StepsIn(actions) + 1, open.revision)
            && after.live == open.live && after.revision == open.revision
            && after.stack == Newest(open.stack + [open.live], s.limit)
            && (forall other, label_ :: Begun(open, other, label_) == (open, TransactionFailed))
  {
    RunFirst(s, DoBegin(id, name), actions);
    BoundariesAreCounted(s, id, name, actions);
    MarksAreSteps(Begun(s, id, name).0, actions);
    OpenAfterRun(s, [DoBegin(id, name)] + actions);
    hide Run, Begun, Marks, StepsIn, OpenIs, Newest;
    SecondIsRefused(Run(s, [DoBegin(id, name)] + actions));
  }

  lemma SecondIsRefused<Scene(!new)>(open: State<Scene>)
    requires open.active.Some? && open.undoAvailable
    ensures forall other, label_ :: Begun(open, other, label_) == (open, TransactionFailed)
  {
  }

  /** What a begin does to the stack and the scene, and what its reply says. */
  lemma BeginPushesTheScene<Scene(!new)>(s: State<Scene>, id: string, name: string)
    requires s.undoAvailable && s.active.None?
    ensures var (after, reply) := Begun(s, id, name);
            && reply == Began(id, s.revision) && after.live == s.live && after.revision == s.revision
            && after.stack == Newest(s.stack + [s.live], s.limit) && !Idle(after)
  {
    IdleExactlyWhenNoneIsOpen(Begun(s, id, name).0);
    hide Newest;
  }
}
