/** The server's record of what changed: a bounded window of numbered changes, and the differences read from it. */
module SceneCache {
  import opened Wrappers
  import opened DiffFold
  import W = Watch

  type SessionId = nat

  datatype Failure = BackToFront | InTheFuture | Expired

  datatype Answer<T> = Ok(value: T) | Err(error: Failure)

  /** `horizon` is the oldest revision a difference can start from. */
  datatype History = History(entries: seq<W.Event>, capacity: nat, current: nat, horizon: nat)

  function Max(a: nat, b: nat): nat
  {
    if a > b then a else b
  }

  /** Entries fall off the back until the window holds no more than it may. */
  function Trimmed(h: History): History
    decreases |h.entries|
  {
    if |h.entries| <= h.capacity then h
    else Trimmed(h.(entries := h.entries[1..], horizon := h.entries[0].revision))
  }

  function Pushed(h: History, e: W.Event): History
  {
    Trimmed(h.(entries := h.entries + [e], current := Max(h.current, e.revision)))
  }

  function Within(entries: seq<W.Event>, from: nat, to: nat): (r: seq<W.Event>)
    ensures |r| <= |entries|
  {
    if entries == [] then []
    else (if from < entries[0].revision <= to then [entries[0]] else []) + Within(entries[1..], from, to)
  }

  function Since(h: History, from: nat, to: nat): Answer<seq<W.Event>>
  {
    if from > to then Err(BackToFront)
    else if to > h.current then Err(InTheFuture)
    else if from < h.horizon then Err(Expired)
    else Ok(Within(h.entries, from, to))
  }

  function Observed(h: History, revision: nat): History
  {
    if revision > h.current then History([], h.capacity, revision, revision) else h
  }

  function Forgotten(h: History): History
  {
    h.(entries := [], horizon := h.current)
  }

  datatype Cache = Cache(history: History, session: Option<SessionId>)

  function Begun(c: Cache, session: SessionId, revision: nat): Cache
  {
    Cache(Forgotten(Observed(c.history, revision)), Some(session))
  }

  function Ended(c: Cache): Cache
  {
    Cache(Forgotten(c.history), None)
  }

  function Applied(c: Cache, session: SessionId, e: W.Event): Cache
  {
    if c.session.Some? && c.session.value != session then c else c.(history := Pushed(c.history, e))
  }

  /** The task that feeds the cache: the first event of a session opens it just below itself. */
  function Followed(c: Cache, session: SessionId, e: W.Event): Cache
  {
    Applied(if c.session == Some(session) then c else Begun(c, session, if e.revision == 0 then 0 else e.revision - 1),
            session, e)
  }

  function AllFollowed(c: Cache, session: SessionId, events: seq<W.Event>): Cache
  {
    if events == [] then c
    else Followed(AllFollowed(c, session, events[..|events| - 1]), session, events[|events| - 1])
  }

  class SceneCache {
    var entries: seq<W.Event>
    const capacity: nat
    var current: nat
    var horizon: nat
    var session: Option<SessionId>

    constructor (capacity: nat)
      ensures Model() == Cache(History([], Max(capacity, 1), 0, 0), None)
    {
      this.capacity := Max(capacity, 1);
      entries, current, horizon, session := [], 0, 0, None;
    }

    ghost function Model(): Cache
      reads this
    {
      Cache(History(entries, capacity, current, horizon), session)
    }

    method PushAt(e: W.Event)
      modifies this
      ensures Model() == old(Model()).(history := Pushed(old(Model().history), e))
    {
      entries := entries + [e];
      if e.revision > current {
        current := e.revision;
      }
      ghost var whole := Model().history;
      while |entries| > capacity
        invariant Trimmed(Model().history) == Trimmed(whole) && current == whole.current && session == old(session)
        decreases |entries|
      {
        horizon := entries[0].revision;
        entries := entries[1..];
      }
    }

    method BeginSession(opened_: SessionId, revision: nat)
      modifies this
      ensures Model() == Begun(old(Model()), opened_, revision)
    {
      session := Some(opened_);
      if revision > current {
        current, horizon, entries := revision, revision, [];
      }
      entries, horizon := [], current;
    }

    method EndSession()
      modifies this
      ensures Model() == Ended(old(Model()))
    {
      session, entries, horizon := None, [], current;
    }

    method Apply(owner: SessionId, e: W.Event) returns (taken: bool)
      modifies this
      ensures Model() == Applied(old(Model()), owner, e)
      ensures taken <==> old(session).None? || old(session) == Some(owner)
    {
      if session.Some? && session.value != owner {
        return false;
      }
      PushAt(e);
      taken := true;
    }

    method FollowEvent(owner: SessionId, e: W.Event)
      modifies this
      ensures Model() == Followed(old(Model()), owner, e)
    {
      if session != Some(owner) {
        BeginSession(owner, if e.revision == 0 then 0 else e.revision - 1);
      }
      var _ := Apply(owner, e);
    }

    method DiffSince(from: nat, upTo: Option<nat>) returns (r: Answer<Diff>)
      ensures r == DiffOf(Model().history, from, if upTo.Some? then upTo.value else current)
    {
      var to := if upTo.Some? then upTo.value else current;
      if from > to {
        return Err(BackToFront);
      }
      if to > current {
        return Err(InTheFuture);
      }
      if from < horizon {
        return Err(Expired);
      }
      var diff := Fold(W.Changes(Within(entries, from, to)));
      r := Ok(diff);
    }
  }

  function DiffOf(h: History, from: nat, to: nat): Answer<Diff>
  {
    match Since(h, from, to)
    case Ok(events) => Ok(Folded(W.Changes(events)))
    case Err(error) => Err(error)
  }

  // ---------------------------------------------------------------------------
  // What the window holds
  // ---------------------------------------------------------------------------

  ghost predicate Rising(events: seq<W.Event>, floor: nat)
  {
    && (forall e | e in events :: e.revision > floor)
    && forall i, j | 0 <= i < j < |events| :: events[i].revision < events[j].revision
  }

  /** How many of `n` changes have fallen off. */
  function Lost(n: nat, capacity: nat): nat
  {
    if n > capacity then n - capacity else 0
  }

  /** A window opened at `floor`, after these changes. */
  ghost predicate Holds(h: History, floor: nat, events: seq<W.Event>)
  {
    var lost := Lost(|events|, h.capacity);
    && h.entries == events[lost..]
    && h.horizon == (if lost == 0 then floor else events[lost - 1].revision)
    && h.current >= floor && (forall e | e in events :: e.revision <= h.current)
    && (h.current == floor || exists e :: e in events && e.revision == h.current)
  }

  lemma PushedHolds(h: History, floor: nat, events: seq<W.Event>, e: W.Event)
    requires h.capacity > 0 && Holds(h, floor, events)
    ensures Holds(Pushed(h, e), floor, events + [e]) && Pushed(h, e).capacity == h.capacity
  {
    var full := h.(entries := h.entries + [e], current := Max(h.current, e.revision));
    var all := events + [e];
    assert all[|events|] == e;
    var lost := Lost(|events|, h.capacity);
    assert full.entries == all[lost..];
    if |full.entries| > h.capacity {
      var cut := full.(entries := full.entries[1..], horizon := full.entries[0].revision);
      assert Trimmed(full) == Trimmed(cut) == cut;
      assert cut.entries == all[lost + 1..];
    }
    if full.current != floor {
      if h.current >= e.revision {
        var d :| d in events && d.revision == h.current;
        assert d in all;
      } else {
        assert e in all;
      }
    }
  }

  /** The window after following one session's events. */
  lemma {:induction false} FollowedHolds(c: Cache, session: SessionId, floor: nat, events: seq<W.Event>)
    requires c.history.capacity > 0 && c.session == Some(session) && Holds(c.history, floor, [])
    ensures var z := AllFollowed(c, session, events);
            Holds(z.history, floor, events) && z.session == Some(session) && z.history.capacity == c.history.capacity
  {
    if events != [] {
      var front, last := events[..|events| - 1], events[|events| - 1];
      assert events == front + [last];
      FollowedHolds(c, session, floor, front);
      PushedHolds(AllFollowed(c, session, front).history, floor, front, last);
    }
  }

  lemma {:induction false} WithinAll(entries: seq<W.Event>, from: nat, to: nat)
    ensures Within(entries, from, to) == entries <==> forall e | e in entries :: from < e.revision <= to
  {
    if entries != [] {
      WithinAll(entries[1..], from, to);
      assert forall e :: e in entries <==> e == entries[0] || e in entries[1..];
      if from < entries[0].revision <= to {
        assert ([entries[0]] + Within(entries[1..], from, to))[1..] == Within(entries[1..], from, to);
      }
    }
  }

  lemma {:induction false} WithinJoins(one: seq<W.Event>, two: seq<W.Event>, from: nat, to: nat)
    ensures Within(one + two, from, to) == Within(one, from, to) + Within(two, from, to)
  {
    if one == [] {
      assert one + two == two;
    } else {
      assert (one + two)[1..] == one[1..] + two && (one + two)[0] == one[0];
      WithinJoins(one[1..], two, from, to);
    }
  }

  lemma {:induction false} WithinNone(entries: seq<W.Event>, from: nat, to: nat)
    requires forall e | e in entries :: !(from < e.revision <= to)
    ensures Within(entries, from, to) == []
  {
    if entries != [] { WithinNone(entries[1..], from, to); }
  }

  /** An answer holds every change of its range that was ever recorded; when one of them has fallen off, or the range
      starts below the opening of the window, there is no answer. */
  lemma AnswerIsCompleteOrExpired(h: History, floor: nat, events: seq<W.Event>, from: nat, to: nat)
    requires Holds(h, floor, events) && Rising(events, floor) && from <= to <= h.current
    ensures Since(h, from, to) == Err(Expired) <==>
              from < floor || exists k :: 0 <= k < Lost(|events|, h.capacity) && events[k].revision > from
    ensures Since(h, from, to) != Err(Expired) ==> Since(h, from, to) == Ok(Within(events, from, to))
  {
    HorizonCoversTheLost(h, floor, events);
    if from >= h.horizon { HeldIsComplete(h, floor, events, from, to); }
    var lost := Lost(|events|, h.capacity);
    if floor <= from < h.horizon { assert events[lost - 1].revision > from; }
  }

  lemma HeldIsComplete(h: History, floor: nat, events: seq<W.Event>, from: nat, to: nat)
    requires Holds(h, floor, events) && Rising(events, floor) && from >= h.horizon
    ensures Within(h.entries, from, to) == Within(events, from, to)
  {
    HorizonCoversTheLost(h, floor, events);
    var lost := Lost(|events|, h.capacity);
    var gone, kept := events[..lost], events[lost..];
    assert events == gone + kept;
    WithinNone(gone, from, to);
    WithinJoins(gone, kept, from, to);
  }

  lemma HorizonCoversTheLost(h: History, floor: nat, events: seq<W.Event>)
    requires Holds(h, floor, events) && Rising(events, floor)
    ensures var lost := Lost(|events|, h.capacity);
            && h.horizon >= floor && (lost > 0 ==> h.horizon == events[lost - 1].revision)
            && (forall e | e in events[..lost] :: e.revision <= h.horizon)
            && (forall k | 0 <= k < lost :: events[k].revision <= h.horizon)
  {
    var lost := Lost(|events|, h.capacity);
    if lost > 0 { assert events[lost - 1] in events; }
    forall k | 0 <= k < lost ensures events[k].revision <= h.horizon {
      if k < lost - 1 { assert events[k].revision < events[lost - 1].revision; }
    }
  }

  /** A marker taken after some changes is answered with just the changes since, exactly while these fit the window. */
  lemma MarkerLastsExactlyOneWindow(h: History, floor: nat, before: seq<W.Event>, since: seq<W.Event>, mark: nat)
    requires h.capacity > 0 && Holds(h, floor, before + since) && Rising(before + since, floor)
    requires mark == if before == [] then floor else before[|before| - 1].revision
    ensures |since| <= h.capacity ==> Since(h, mark, h.current) == Ok(since)
    ensures |since| > h.capacity ==> Since(h, mark, h.current) == Err(Expired)
  {
    hide Holds, Rising, Within;
    MarkParts(before, since, floor, mark);
    MarkIsPast(h, floor, before, since, mark);
    MarkAgainstHorizon(h, floor, before, since, mark);
    if |since| <= h.capacity {
      HeldIsComplete(h, floor, before + since, mark, h.current);
      AfterTheMark(before, since, mark, h.current);
    }
  }

  lemma MarkAgainstHorizon(h: History, floor: nat, before: seq<W.Event>, since: seq<W.Event>, mark: nat)
    requires Holds(h, floor, before + since) && floor <= mark
    requires forall e | e in before :: e.revision <= mark
    requires forall e | e in since :: e.revision > mark
    ensures mark < h.horizon <==> |since| > h.capacity
  {
    var events := before + since;
    var lost := Lost(|events|, h.capacity);
    if lost > 0 {
      var last := events[lost - 1];
      if |since| > h.capacity {
        assert last == since[lost - 1 - |before|] && last in since;
      } else {
        assert last == before[lost - 1] && last in before;
      }
    }
  }

  lemma MarkIsPast(h: History, floor: nat, before: seq<W.Event>, since: seq<W.Event>, mark: nat)
    requires Holds(h, floor, before + since)
    requires mark == if before == [] then floor else before[|before| - 1].revision
    ensures mark <= h.current && forall e | e in since :: e.revision <= h.current
  {
    var events := before + since;
    if before != [] { assert before[|before| - 1] in events; }
    assert forall e | e in since :: e in events;
  }

  lemma AfterTheMark(before: seq<W.Event>, since: seq<W.Event>, mark: nat, to: nat)
    requires forall e | e in before :: e.revision <= mark
    requires forall e | e in since :: mark < e.revision <= to
    ensures Within(before + since, mark, to) == since
  {
    WithinNone(before, mark, to);
    WithinAll(since, mark, to);
    WithinJoins(before, since, mark, to);
  }

  lemma MarkParts(before: seq<W.Event>, since: seq<W.Event>, floor: nat, mark: nat)
    requires Rising(before + since, floor)
    requires mark == if before == [] then floor else before[|before| - 1].revision
    ensures floor <= mark
    ensures forall e | e in before :: e.revision <= mark
    ensures forall e | e in since :: e.revision > mark
  {
    var events, n := before + since, |before|;
    if n > 0 { assert events[n - 1] == before[n - 1] && events[n - 1] in events; }
    forall e | e in before ensures e.revision <= mark {
      var k :| 0 <= k < n && before[k] == e;
      assert events[k] == e;
      if k < n - 1 { assert events[k].revision < events[n - 1].revision; }
    }
    forall e | e in since ensures e.revision > mark {
      var k :| 0 <= k < |since| && since[k] == e;
      assert events[n + k] == e && e in events;
      if n > 0 { assert events[n - 1].revision < events[n + k].revision; }
    }
  }

  /** A session opened over a counter that is already ahead: a marker taken then shows every later change exactly when
      their numbers lie beyond the counter. Otherwise they are recorded, and left out of the answer. */
  lemma NewSessionShowsExactlyWhenAhead(c: Cache, session: SessionId, revision: nat, events: seq<W.Event>)
    requires c.history.capacity > 0 && |events| <= c.history.capacity
    ensures var begun := Begun(c, session, revision);
            var h := AllFollowed(begun, session, events).history;
            && h.entries == events
            && (Since(h, begun.history.current, h.current) == Ok(events) <==>
                  forall e | e in events :: e.revision > begun.history.current)
  {
    var begun := Begun(c, session, revision);
    FollowedHolds(begun, session, begun.history.current, events);
    WithinAll(events, begun.history.current, AllFollowed(begun, session, events).history.current);
  }

  /** Blender restarts and numbers from one again while the server stands at `old_`: its first changes do not show. */
  lemma RestartedNumbersDoNotShow(capacity: nat, session: SessionId, old_: nat, change: Change)
    requires capacity > 0 && old_ > 0
    ensures var c := Cache(History([], capacity, old_, old_), None);
            var h := Followed(c, session, W.Event(1, change)).history;
            h.entries == [W.Event(1, change)] && Since(h, old_, h.current) == Ok([])
  {
    var c := Cache(History([], capacity, old_, old_), None);
    assert Begun(c, session, 0).history == c.history;
    PushedHolds(c.history, old_, [], W.Event(1, change));
    var none: seq<W.Event> := [];
    assert none + [W.Event(1, change)] == [W.Event(1, change)];
    assert [W.Event(1, change)][1..] == [];
  }

  /** Falling behind the event stream forgets the record. Until the next event a difference is refused exactly when its marker
      lies below the counter; a marker at the counter is answered as if nothing had changed. */
  lemma LagIsRefusedExactlyBelowTheCounter(c: Cache, mark: nat)
    requires mark <= c.history.current
    ensures var h := Ended(c).history;
            Since(h, mark, h.current) == if mark < c.history.current then Err(Expired) else Ok([])
  {
  }

  /** The next event opens the record just below itself: from then on every marker from before the lag is refused, exactly
      as long as some number was skipped. */
  lemma NextEventShowsTheLagExactlyWhenSkipped(c: Cache, session: SessionId, e: W.Event, mark: nat)
    requires c.history.capacity > 0 && mark <= c.history.current < e.revision
    ensures var h := Followed(Ended(c), session, e).history;
            Since(h, mark, h.current) == if mark + 1 < e.revision then Err(Expired) else Ok([e])
  {
    OpenedByNext(c, session, e);
    OneWithin(e, mark);
    hide Followed, Within;
  }

  /** An event of another session than the one the record is open for is not taken; the follower opens a record of its own for it,
      just below the event, or at the counter where that is ahead. */
  lemma OtherSessionsStartAfresh(c: Cache, session: SessionId, e: W.Event)
    requires c.session != Some(session) && c.history.capacity > 0
    ensures c.session.Some? ==> Applied(c, session, e) == c
    ensures var z := Followed(c, session, e);
            && z.session == Some(session) && z.history.entries == [e] && z.history.capacity == c.history.capacity
            && z.history.current == (if e.revision > c.history.current then e.revision else c.history.current)
            && z.history.horizon == (if e.revision > c.history.current then e.revision - 1 else c.history.current)
  {
    var none: seq<W.Event> := [];
    assert none + [e] == [e];
  }

  lemma OpenedByNext(c: Cache, session: SessionId, e: W.Event)
    requires c.history.capacity > 0 && c.history.current < e.revision
    ensures var h := Followed(Ended(c), session, e).history;
            h == History([e], c.history.capacity, e.revision, e.revision - 1)
  {
    var empty := History([], c.history.capacity, e.revision - 1, e.revision - 1);
    assert Begun(Ended(c), session, e.revision - 1) == Cache(empty, Some(session));
    var none: seq<W.Event> := [];
    assert none + [e] == [e];
    assert Pushed(empty, e) == History([e], c.history.capacity, e.revision, e.revision - 1);
  }

  lemma OneWithin(e: W.Event, mark: nat)
    ensures Within([e], mark, e.revision) == if mark < e.revision then [e] else []
  {
    assert [e][1..] == [];
  }

  /** So no missed change goes unnoticed once the stream is heard again. */
  lemma MissedChangesAreRefused(c: Cache, session: SessionId, missed: seq<W.Event>, e: W.Event, mark: nat)
    requires c.history.capacity > 0 && mark <= c.history.current && missed != []
    requires Rising(missed + [e], c.history.current)
    ensures var h := Followed(Ended(c), session, e).history; Since(h, mark, h.current) == Err(Expired)
  {
    var all := missed + [e];
    assert all[0] == missed[0] && all[|missed|] == e && all[0] in all;
    NextEventShowsTheLagExactlyWhenSkipped(c, session, e, mark);
  }

  // ---------------------------------------------------------------------------
  // From the user's edits to the answer
  // ---------------------------------------------------------------------------

  /** End to end. The add-on watches any run of edits short of a reload, in one session; the server follows its events from
      a marker. The next session is another run, from the baseline this one leaves.
      While the changes fit the window, the difference turns the scene as it was at the marker into the scene as it is,
      exactly when no object that is gone was created again in between. */
  lemma DiffTurnsThenIntoNow(s: W.State, steps: seq<W.Step>, c: Cache, session: SessionId)
    requires s.snapshot.Valid() && s.connected && W.Small(steps) && W.OneSession(steps) && W.Rising(s.emitted, s.revision)
    requires c.history.capacity > 0 && c.session == Some(session)
    requires Holds(c.history, s.revision, [])
    requires |W.Run(s, steps).emitted| - |s.emitted| <= c.history.capacity
    ensures var z := W.Run(s, steps);
            && z.snapshot.Valid() && s.emitted <= z.emitted
            && var since := z.emitted[|s.emitted|..];
               var h := AllFollowed(c, session, since).history;
               && DiffOf(h, s.revision, h.current).Ok?
               && (Patched(DiffOf(h, s.revision, h.current).value, s.snapshot.names) == z.snapshot.names <==>
                     forall id | id in s.snapshot.names && id !in z.snapshot.names :: !Recreated(W.Changes(since), id))
  {
    hide *;
    var z := W.Run(s, steps);
    W.EventsRebuildTheScene(s, steps);
    SinceRises(s, steps);
    DiffOfSince(s.snapshot.names, z.snapshot.names, c, session, s.revision, z.emitted[|s.emitted|..]);
  }

  lemma DiffOfSince(then_: Names, now: Names, c: Cache, session: SessionId, floor: nat, since: seq<W.Event>)
    requires c.history.capacity > 0 && c.session == Some(session) && Holds(c.history, floor, [])
    requires |since| <= c.history.capacity && Rising(since, floor)
    requires AllFit(then_, W.Changes(since)) && Replay(then_, W.Changes(since)) == now
    ensures var h := AllFollowed(c, session, since).history;
            && DiffOf(h, floor, h.current).Ok?
            && (Patched(DiffOf(h, floor, h.current).value, then_) == now <==>
                  forall id | id in then_ && id !in now :: !Recreated(W.Changes(since), id))
  {
    hide AllFollowed, Holds, Rising, Since, Recreated, Patched, Folded, AllFit, Replay;
    FollowedHolds(c, session, floor, since);
    var h := AllFollowed(c, session, since).history;
    var none: seq<W.Event> := [];
    assert none + since == since;
    MarkerLastsExactlyOneWindow(h, floor, [], since, floor);
    FoldIsFaithfulExactlyWhenNoneCameBackToGo(then_, W.Changes(since));
  }

  lemma SinceRises(s: W.State, steps: seq<W.Step>)
    requires s.snapshot.Valid() && W.Rising(s.emitted, s.revision)
    ensures s.emitted <= W.Run(s, steps).emitted
    ensures Rising(W.Run(s, steps).emitted[|s.emitted|..], s.revision)
  {
    W.RevisionsRise(s, steps);
    SinceIsAbove(s, steps);
  }

  lemma {:induction false} SinceIsAbove(s: W.State, steps: seq<W.Step>)
    requires s.snapshot.Valid() && W.Rising(s.emitted, s.revision) && s.emitted <= W.Run(s, steps).emitted
    ensures forall e | e in W.Run(s, steps).emitted[|s.emitted|..] :: e.revision > s.revision
    decreases |steps|
  {
    if steps != [] {
      var mid, z := W.Next(s, steps[0]), W.Run(s, steps);
      W.StepRises(s, steps[0]);
      W.RevisionsRise(mid, steps[1..]);
      SinceIsAbove(mid, steps[1..]);
      StepIsAbove(s, steps[0]);
      assert z.emitted[|s.emitted|..] == mid.emitted[|s.emitted|..] + z.emitted[|mid.emitted|..];
    }
  }

  lemma StepIsAbove(s: W.State, step: W.Step)
    requires s.snapshot.Valid() && W.Rising(s.emitted, s.revision)
    ensures s.emitted <= W.Next(s, step).emitted && W.Next(s, step).revision >= s.revision
    ensures forall e | e in W.Next(s, step).emitted[|s.emitted|..] :: e.revision > s.revision
  {
    match step
    case Depsgraph(t) =>
      if s.connected {
        assert W.Next(s, step).emitted[|s.emitted|..] == W.Numbered(W.TickChanges(s, t), s.revision);
      }
    case Reload(objects, filepath) =>
      if s.connected { assert W.Next(s, step).emitted[|s.emitted|..] == W.Numbered([Reset(filepath)], s.revision); }
    case _ =>
  }
}
