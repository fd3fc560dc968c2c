/** The add-on watching the user: creations, renames and deletions are found by comparing two snapshots. */
module Watch {
  import opened Wrappers
  import opened DiffFold

  const SNAPSHOT_LIMIT: nat := 5000

  datatype Obj = Obj(id: Id, name: Name)

  /** A dictionary keeps its keys in the order they first came. */
  datatype Dict = Dict(keys: seq<Id>, names: Names)
  {
    ghost predicate Valid()
    {
      NoRepeat(keys) && forall k :: k in keys <==> k in names
    }
  }

  /** What a depsgraph tick says of one data-block. */
  datatype Update =
    | ObjectUpdate(id: Option<Id>, moved: bool, shaded: bool, reshaped: bool)
    | MaterialUpdate(id: Option<Id>, shaded: bool)
    | NodeTreeUpdate(id: Option<Id>)
    | OtherUpdate

  datatype Event = Event(revision: nat, change: Change)

  function SnapshotOf(objects: seq<Obj>): (d: Dict)
    ensures d.Valid()
  {
    if objects == [] then Dict([], map[])
    else
      var d, last := SnapshotOf(objects[..|objects| - 1]), objects[|objects| - 1];
      Dict(if last.id in d.names then d.keys else d.keys + [last.id], d.names[last.id := last.name])
  }

  function OneAppeared(id: Id, was: Names, now: Names): seq<Change>
    requires id in now
  {
    if id !in was then [Created(id, now[id])]
    else if was[id] != now[id] then [Renamed(id, was[id], now[id])] else []
  }

  function Appeared(keys: seq<Id>, was: Names, now: Names): seq<Change>
    requires forall k | k in keys :: k in now
  {
    if keys == [] then [] else Appeared(keys[..|keys| - 1], was, now) + OneAppeared(keys[|keys| - 1], was, now)
  }

  lemma AppearedNext(keys: seq<Id>, i: nat, was: Names, now: Names)
    requires i < |keys| && forall k | k in keys :: k in now
    ensures Appeared(keys[..i + 1], was, now) == Appeared(keys[..i], was, now) + OneAppeared(keys[i], was, now)
  {
    assert keys[..i + 1][..i] == keys[..i];
  }

  function OneGone(id: Id, was: Names, now: Names): seq<Change>
    requires id in was
  {
    if id !in now then [Deleted(id, was[id])] else []
  }

  function Gone(keys: seq<Id>, was: Names, now: Names): seq<Change>
    requires forall k | k in keys :: k in was
  {
    if keys == [] then [] else Gone(keys[..|keys| - 1], was, now) + OneGone(keys[|keys| - 1], was, now)
  }

  function Structural(was: Dict, now: Dict): seq<Change>
    requires was.Valid() && now.Valid()
  {
    Appeared(now.keys, was.names, now.names) + Gone(was.keys, was.names, now.names)
  }

  // ---------------------------------------------------------------------------
  // Replaying the difference
  // ---------------------------------------------------------------------------

  /** The old names with those of `keys` brought up to date. */
  ghost function Halfway(keys: seq<Id>, was: Names, now: Names): Names
    requires forall k | k in keys :: k in now
  {
    map k | k in was.Keys + now.Keys && (k in was || k in keys) :: if k in keys then now[k] else was[k]
  }

  lemma ReplayOne(a: Names, c: Change)
    ensures Replay(a, [c]) == After(a, c) && (AllFit(a, [c]) <==> Fits(a, c))
  {
    assert [c][1..] == [];
  }

  lemma OneBroughtForward(mid: Names, id: Id, was: Names, now: Names)
    requires id in now && (id in mid <==> id in was) && (id in was ==> mid[id] == was[id])
    ensures AllFit(mid, OneAppeared(id, was, now)) && Replay(mid, OneAppeared(id, was, now)) == mid[id := now[id]]
  {
    if id !in was { ReplayOne(mid, Created(id, now[id])); }
    else if was[id] != now[id] { ReplayOne(mid, Renamed(id, was[id], now[id])); }
  }

  lemma {:induction false} AppearedBringsForward(keys: seq<Id>, was: Names, now: Names)
    requires NoRepeat(keys) && forall k | k in keys :: k in now
    ensures AllFit(was, Appeared(keys, was, now)) && Replay(was, Appeared(keys, was, now)) == Halfway(keys, was, now)
  {
    if keys == [] {
      assert Halfway([], was, now) == was;
    } else {
      var front, id := keys[..|keys| - 1], keys[|keys| - 1];
      AppearedBringsForward(front, was, now);
      HalfwayOneMore(keys, was, now);
      OneBroughtForward(Halfway(front, was, now), id, was, now);
      ReplayJoins(was, Appeared(front, was, now), OneAppeared(id, was, now));
    }
  }

  lemma HalfwayOneMore(keys: seq<Id>, was: Names, now: Names)
    requires keys != [] && NoRepeat(keys) && forall k | k in keys :: k in now
    ensures var front, id := keys[..|keys| - 1], keys[|keys| - 1];
            id !in front && Halfway(keys, was, now) == Halfway(front, was, now)[id := now[id]]
  {
    var front, id := keys[..|keys| - 1], keys[|keys| - 1];
    assert forall k :: k in keys <==> k in front || k == id;
  }

  /** Everything up to date, and of the departed those in `keys` taken out. */
  ghost function Nearly(keys: seq<Id>, was: Names, now: Names): Names
  {
    map k | k in was.Keys + now.Keys && (k in now || k !in keys) :: if k in now then now[k] else was[k]
  }

  lemma {:induction false} GoneTakesOut(keys: seq<Id>, was: Names, now: Names)
    requires NoRepeat(keys) && forall k | k in keys :: k in was
    ensures AllFit(Nearly([], was, now), Gone(keys, was, now))
    ensures Replay(Nearly([], was, now), Gone(keys, was, now)) == Nearly(keys, was, now)
  {
    if keys != [] {
      var front, id := keys[..|keys| - 1], keys[|keys| - 1];
      GoneTakesOut(front, was, now);
      NearlyOneMore(keys, was, now);
      if id !in now { ReplayOne(Nearly(front, was, now), Deleted(id, was[id])); }
      ReplayJoins(Nearly([], was, now), Gone(front, was, now), OneGone(id, was, now));
    }
  }

  lemma NearlyOneMore(keys: seq<Id>, was: Names, now: Names)
    requires keys != [] && NoRepeat(keys) && forall k | k in keys :: k in was
    ensures var front, id := keys[..|keys| - 1], keys[|keys| - 1];
            && Nearly(keys, was, now) == (if id in now then Nearly(front, was, now) else Nearly(front, was, now) - {id})
            && (id !in now ==> id in Nearly(front, was, now) && Nearly(front, was, now)[id] == was[id])
  {
    var front, id := keys[..|keys| - 1], keys[|keys| - 1];
    assert forall k :: k in keys <==> k in front || k == id;
  }

  lemma HalfwayMeets(was: Dict, now: Dict)
    requires was.Valid() && now.Valid()
    ensures Halfway(now.keys, was.names, now.names) == Nearly([], was.names, now.names)
    ensures Nearly(was.keys, was.names, now.names) == now.names
  {
    var half, near := Halfway(now.keys, was.names, now.names), Nearly([], was.names, now.names);
    assert half.Keys == near.Keys;
    assert Nearly(was.keys, was.names, now.names).Keys == now.names.Keys;
  }

  /** Replaying the reported changes onto the old snapshot gives the new one. */
  lemma DiffRebuildsTheSnapshot(was: Dict, now: Dict)
    requires was.Valid() && now.Valid()
    ensures AllFit(was.names, Structural(was, now)) && Replay(was.names, Structural(was, now)) == now.names
  {
    AppearedBringsForward(now.keys, was.names, now.names);
    GoneTakesOut(was.keys, was.names, now.names);
    HalfwayMeets(was, now);
    ReplayJoins(was.names, Appeared(now.keys, was.names, now.names), Gone(was.keys, was.names, now.names));
  }

  // ---------------------------------------------------------------------------
  // The handlers
  // ---------------------------------------------------------------------------

  /** Events for some changes, each after a bump of the revision. */
  function Numbered(changes: seq<Change>, revision: nat): (r: seq<Event>)
    ensures |r| == |changes|
    ensures forall k | 0 <= k < |r| :: r[k] == Event(revision + 1 + k, changes[k])
  {
    if changes == [] then []
    else
      var front := |changes| - 1;
      Numbered(changes[..front], revision) + [Event(revision + 1 + front, changes[front])]
  }

  /** Nothing a reset, nothing about which objects there are. */
  ghost predicate Quiet(changes: seq<Change>)
  {
    forall c | c in changes :: c.Modified? || c.MeshInvalidated? || c.NodeTreeInvalidated? || c.SelectionChanged?
  }

  function UpdateChanges(u: Update): (r: seq<Change>)
    ensures Quiet(r)
  {
    match u
    case ObjectUpdate(None, _, _, _) => []
    case ObjectUpdate(Some(id), moved, shaded, reshaped) =>
      var aspects := (if moved then [Transform] else []) + if shaded then [Materials] else [];
      (if reshaped then [MeshInvalidated(id)] else []) + if aspects != [] then [Modified(id, aspects)] else []
    case MaterialUpdate(id, shaded) => if id.Some? && shaded then [NodeTreeInvalidated(id.value)] else []
    case NodeTreeUpdate(id) => if id.Some? then [NodeTreeInvalidated(id.value)] else []
    case OtherUpdate => []
  }

  function AllUpdates(updates: seq<Update>): (r: seq<Change>)
    ensures Quiet(r)
  {
    if updates == [] then []
    else AllUpdates(updates[..|updates| - 1]) + UpdateChanges(updates[|updates| - 1])
  }

  datatype State = State(
    snapshot: Dict, selection: set<Id>, active: Option<Id>, connected: bool, revision: nat, emitted: seq<Event>)

  datatype Tick = Tick(objects: seq<Obj>, updates: seq<Update>, selection: set<Id>, active: Option<Id>)

  function Report(s: State, changes: seq<Change>): State
  {
    s.(revision := s.revision + |changes|, emitted := s.emitted + Numbered(changes, s.revision))
  }

  function StructuralChanges(s: State, objects: seq<Obj>): seq<Change>
    requires s.snapshot.Valid()
  {
    if |objects| > SNAPSHOT_LIMIT then if s.snapshot.names != map[] then [Reset(0)] else []
    else if SnapshotOf(objects).names == s.snapshot.names then []
    else Structural(s.snapshot, SnapshotOf(objects))
  }

  function SnapshotAfter(s: State, objects: seq<Obj>): (d: Dict)
    requires s.snapshot.Valid()
    ensures d.Valid()
  {
    if |objects| > SNAPSHOT_LIMIT then if s.snapshot.names != map[] then Dict([], map[]) else s.snapshot
    else if SnapshotOf(objects).names == s.snapshot.names then s.snapshot
    else SnapshotOf(objects)
  }

  function SelectionChanges(s: State, selection: set<Id>, active: Option<Id>): (r: seq<Change>)
    ensures Quiet(r)
  {
    if selection == s.selection && active == s.active then [] else [SelectionChanged(selection, active)]
  }

  /** All that one tick reports, in order. */
  function TickChanges(s: State, t: Tick): seq<Change>
    requires s.snapshot.Valid()
  {
    StructuralChanges(s, t.objects) + AllUpdates(t.updates) + SelectionChanges(s, t.selection, t.active)
  }

  function Ticked(s: State, t: Tick): State
    requires s.snapshot.Valid()
  {
    if !s.connected then s
    else
      Report(s, TickChanges(s, t)).(
        snapshot := SnapshotAfter(s, t.objects), selection := t.selection, active := t.active)
  }

  // ---------------------------------------------------------------------------
  // What a tick tells, change by change
  // ---------------------------------------------------------------------------

  /** What one update calls for, in order: an object's mesh before what else of it changed. */
  ghost predicate Calls(u: Update, c: Change)
  {
    match c
    case MeshInvalidated(id) => u.ObjectUpdate? && u.id == Some(id) && u.reshaped
    case Modified(id, aspects) =>
      && u.ObjectUpdate? && u.id == Some(id)
      && aspects != [] && aspects in [[Transform], [Materials], [Transform, Materials]]
      && (Transform in aspects <==> u.moved) && (Materials in aspects <==> u.shaded)
    case NodeTreeInvalidated(id) => (u.MaterialUpdate? && u.id == Some(id) && u.shaded) || (u.NodeTreeUpdate? && u.id == Some(id))
    case _ => false
  }

  lemma UpdateTellsWhatItCallsFor(u: Update)
    ensures forall c :: c in UpdateChanges(u) <==> Calls(u, c)
    ensures |UpdateChanges(u)| <= 2
    ensures |UpdateChanges(u)| == 2 ==> UpdateChanges(u)[0].MeshInvalidated? && UpdateChanges(u)[1].Modified?
  {
    assert [Transform] + [Materials] == [Transform, Materials];
    assert [] + [Materials] == [Materials] && [Transform] + [] == [Transform];
  }

  lemma {:induction false} UpdatesTell(updates: seq<Update>, c: Change)
    ensures c in AllUpdates(updates) <==> exists u :: u in updates && Calls(u, c)
  {
    hide Calls, UpdateChanges;
    if updates != [] {
      var front, last := updates[..|updates| - 1], updates[|updates| - 1];
      UpdatesTell(front, c);
      UpdateTellsWhatItCallsFor(last);
      assert forall u :: u in updates <==> u in front || u == last;
    }
  }

  lemma {:induction false} UpdatesInOrder(one: seq<Update>, rest: seq<Update>)
    ensures AllUpdates(one + rest) == AllUpdates(one) + AllUpdates(rest)
    decreases |rest|
  {
    hide UpdateChanges;
    if rest == [] {
      assert one + rest == one;
    } else {
      UpdatesInOrder(one, rest[..|rest| - 1]);
      assert (one + rest)[..|one + rest| - 1] == one + rest[..|rest| - 1];
    }
  }

  /** Of what stays in the scene a tick tells, besides new names, just what its updates call for, and the selection and the active
      object exactly when they are others than last time. */
  lemma TickTells(s: State, t: Tick, c: Change)
    requires s.snapshot.Valid() && (c.Modified? || c.MeshInvalidated? || c.NodeTreeInvalidated? || c.SelectionChanged?)
    ensures c in TickChanges(s, t) <==>
              || (exists u :: u in t.updates && Calls(u, c))
              || ((t.selection != s.selection || t.active != s.active) && c == SelectionChanged(t.selection, t.active))
  {
    UpdatesTell(t.updates, c);
    if c in StructuralChanges(s, t.objects) { StructureOnly(s, t.objects, c); }
    assert c.SelectionChanged? ==> forall u :: !Calls(u, c);
    hide Calls, AllUpdates, StructuralChanges;
  }

  lemma StructureOnly(s: State, objects: seq<Obj>, c: Change)
    requires s.snapshot.Valid() && c in StructuralChanges(s, objects)
    ensures c.Created? || c.Deleted? || c.Renamed? || c.Reset?
  {
    hide SnapshotOf, Structural;
    if c in Structural(s.snapshot, SnapshotOf(objects)) { StructuralTells(s.snapshot, SnapshotOf(objects), c); }
  }

  /** What two snapshots call for: what is only in the new one was created, what is only in the old one deleted, and what is in
      both renamed exactly when its name is another. */
  ghost predicate Differs(was: Names, now: Names, c: Change)
  {
    match c
    case Created(id, name) => id !in was && id in now && now[id] == name
    case Deleted(id, name) => id in was && id !in now && was[id] == name
    case Renamed(id, old_, name) => id in was && id in now && was[id] == old_ && now[id] == name && old_ != name
    case _ => false
  }

  lemma StructuralTells(was: Dict, now: Dict, c: Change)
    requires was.Valid() && now.Valid()
    ensures c in Structural(was, now) <==> Differs(was.names, now.names, c)
  {
    AppearedTells(now.keys, was.names, now.names, c);
    GoneTells(was.keys, was.names, now.names, c);
  }

  lemma {:induction false} AppearedTells(keys: seq<Id>, was: Names, now: Names, c: Change)
    requires forall k | k in keys :: k in now
    ensures c in Appeared(keys, was, now) <==> !c.Deleted? && Differs(was, now, c) && c.id in keys
  {
    if keys != [] { AppearedTells(keys[..|keys| - 1], was, now, c); }
  }

  lemma {:induction false} GoneTells(keys: seq<Id>, was: Names, now: Names, c: Change)
    requires forall k | k in keys :: k in was
    ensures c in Gone(keys, was, now) <==> c.Deleted? && Differs(was, now, c) && c.id in keys
  {
    if keys != [] { GoneTells(keys[..|keys| - 1], was, now, c); }
  }

  class Watcher {
    var snapshot: Dict
    var selection: set<Id>
    var active: Option<Id>
    var connected: bool
    var revision: nat
    /** Every event handed to the outbox. */
    ghost var emitted: seq<Event>

    constructor ()
      ensures Model() == State(Dict([], map[]), {}, None, false, 0, [])
    {
      snapshot, selection, active, connected, revision, emitted := Dict([], map[]), {}, None, false, 0, [];
    }

    ghost function Model(): State
      reads this
    {
      State(snapshot, selection, active, connected, revision, emitted)
    }

    /** A session begins: the baseline stays as the last one left it. */
    method Connect()
      modifies this`connected
      ensures Model() == old(Model()).(connected := true)
    {
      connected := true;
    }

    method Disconnect()
      modifies this`connected
      ensures Model() == old(Model()).(connected := false)
    {
      connected := false;
    }

    method BumpAndEmit(change: Change)
      modifies this`revision, this`emitted
      ensures Model() == Report(old(Model()), [change])
    {
      revision := revision + 1;
      emitted := emitted + [Event(revision, change)];
      assert Numbered([change], old(revision)) == [Event(revision, change)];
    }

    method SnapshotObjects(objects: seq<Obj>) returns (d: Dict)
      ensures d == SnapshotOf(objects)
    {
      d := Dict([], map[]);
      for i := 0 to |objects|
        invariant d == SnapshotOf(objects[..i])
      {
        assert objects[..i + 1][..i] == objects[..i];
        var obj := objects[i];
        d := Dict(if obj.id in d.names then d.keys else d.keys + [obj.id], d.names[obj.id := obj.name]);
      }
      assert objects[..|objects|] == objects;
    }

    method ReportAppeared(previous: Dict, current: Dict)
      requires current.Valid()
      modifies this`revision, this`emitted
      ensures Model() == Report(old(Model()), Appeared(current.keys, previous.names, current.names))
    {
      ghost var before := Model();
      for i := 0 to |current.keys|
        invariant Model() == Report(before, Appeared(current.keys[..i], previous.names, current.names))
      {
        var id := current.keys[i];
        AppearedNext(current.keys, i, previous.names, current.names);
        hide Appeared, Report;
        ReportJoins(before, Appeared(current.keys[..i], previous.names, current.names),
                    OneAppeared(id, previous.names, current.names));
        ReportNothing(Model());
        if id !in previous.names {
          BumpAndEmit(Created(id, current.names[id]));
        } else if previous.names[id] != current.names[id] {
          BumpAndEmit(Renamed(id, previous.names[id], current.names[id]));
        }
      }
      assert current.keys[..|current.keys|] == current.keys;
    }

    method ReportGone(previous: Dict, current: Dict)
      requires previous.Valid()
      modifies this`revision, this`emitted
      ensures Model() == Report(old(Model()), Gone(previous.keys, previous.names, current.names))
    {
      ghost var before := Model();
      for i := 0 to |previous.keys|
        invariant Model() == Report(before, Gone(previous.keys[..i], previous.names, current.names))
      {
        var id := previous.keys[i];
        assert previous.keys[..i + 1][..i] == previous.keys[..i];
        ReportJoins(before, Gone(previous.keys[..i], previous.names, current.names),
                    OneGone(id, previous.names, current.names));
        ReportNothing(Model());
        if id !in current.names {
          BumpAndEmit(Deleted(id, previous.names[id]));
        }
      }
      assert previous.keys[..|previous.keys|] == previous.keys;
    }

    method ReportStructuralChanges(objects: seq<Obj>)
      requires snapshot.Valid()
      modifies this
      ensures Model() == Report(old(Model()), StructuralChanges(old(Model()), objects)).(
                           snapshot := SnapshotAfter(old(Model()), objects))
    {
      ghost var before := Model();
      ReportNothing(before);
      if |objects| > SNAPSHOT_LIMIT {
        if snapshot.names != map[] {
          snapshot := Dict([], map[]);
          BumpAndEmit(Reset(0));
        }
        return;
      }
      var current := SnapshotObjects(objects);
      if current.names == snapshot.names {
        return;
      }
      var previous := snapshot;
      ReportAppeared(previous, current);
      ReportGone(previous, current);
      ReportJoins(before, Appeared(current.keys, previous.names, current.names),
                  Gone(previous.keys, previous.names, current.names));
      snapshot := current;
    }

    method ReportUpdate(u: Update)
      modifies this`revision, this`emitted
      ensures Model() == Report(old(Model()), UpdateChanges(u))
    {
      ghost var before := Model();
      ReportNothing(before);
      match u {
        case ObjectUpdate(id, moved, shaded, reshaped) =>
          if id.None? {
            return;
          }
          var aspects := [];
          if moved {
            aspects := aspects + [Transform];
          }
          if shaded {
            aspects := aspects + [Materials];
          }
          assert aspects == (if moved then [Transform] else []) + if shaded then [Materials] else [];
          ReportJoins(before, if reshaped then [MeshInvalidated(id.value)] else [],
                      if aspects != [] then [Modified(id.value, aspects)] else []);
          if reshaped {
            BumpAndEmit(MeshInvalidated(id.value));
          }
          ReportNothing(Model());
          if aspects != [] {
            BumpAndEmit(Modified(id.value, aspects));
          }
        case MaterialUpdate(id, shaded) =>
          if id.Some? && shaded {
            BumpAndEmit(NodeTreeInvalidated(id.value));
          }
        case NodeTreeUpdate(id) =>
          if id.Some? {
            BumpAndEmit(NodeTreeInvalidated(id.value));
          }
        case OtherUpdate =>
      }
    }

    method ReportDatablockUpdates(updates: seq<Update>)
      modifies this`revision, this`emitted
      ensures Model() == Report(old(Model()), AllUpdates(updates))
    {
      ghost var before := Model();
      for i := 0 to |updates|
        invariant Model() == Report(before, AllUpdates(updates[..i]))
      {
        assert updates[..i + 1][..i] == updates[..i];
        ReportJoins(before, AllUpdates(updates[..i]), UpdateChanges(updates[i]));
        ReportUpdate(updates[i]);
      }
      assert updates[..|updates|] == updates;
    }

    method ReportSelection(nowSelected: set<Id>, nowActive: Option<Id>)
      modifies this
      ensures Model() == Report(old(Model()), SelectionChanges(old(Model()), nowSelected, nowActive)).(
                           selection := nowSelected, active := nowActive)
    {
      ReportNothing(Model());
      if nowSelected == selection && nowActive == active {
        return;
      }
      selection, active := nowSelected, nowActive;
      BumpAndEmit(SelectionChanged(nowSelected, nowActive));
    }

    /** The handler Blender calls after every change. */
    method OnDepsgraphUpdate(t: Tick)
      requires snapshot.Valid()
      modifies this
      ensures Model() == Ticked(old(Model()), t)
    {
      if !connected {
        return;
      }
      ghost var s := Model();
      ReportStructuralChanges(t.objects);
      ReportDatablockUpdates(t.updates);
      ReportSelection(t.selection, t.active);
      TickInThreeParts(s, t);
    }

    /** After loading a file or an undo: a new baseline, and one event that says so. */
    method OnReload(objects: seq<Obj>, filepath: Name)
      modifies this
      ensures Model() == Reloaded(old(Model()), objects, filepath)
    {
      snapshot, selection, active := Dict([], map[]), {}, None;
      if |objects| <= SNAPSHOT_LIMIT {
        snapshot := SnapshotObjects(objects);
      }
      if connected {
        BumpAndEmit(Reset(filepath));
      }
    }
  }

  function Reloaded(s: State, objects: seq<Obj>, filepath: Name): State
  {
    var fresh_ := s.(snapshot := if |objects| <= SNAPSHOT_LIMIT then SnapshotOf(objects) else Dict([], map[]),
                     selection := {}, active := None);
    if s.connected then Report(fresh_, [Reset(filepath)]) else fresh_
  }

  lemma ReportJoins(s: State, one: seq<Change>, two: seq<Change>)
    ensures Report(Report(s, one), two) == Report(s, one + two)
  {
    var split, whole := Numbered(one, s.revision) + Numbered(two, s.revision + |one|), Numbered(one + two, s.revision);
    assert split == whole;
    assert s.emitted + Numbered(one, s.revision) + Numbered(two, s.revision + |one|) == s.emitted + whole;
  }

  lemma TickInThreeParts(s: State, t: Tick)
    requires s.snapshot.Valid() && s.connected
    ensures var one := Report(s, StructuralChanges(s, t.objects)).(snapshot := SnapshotAfter(s, t.objects));
            var two := Report(one, AllUpdates(t.updates));
            Ticked(s, t) == Report(two, SelectionChanges(two, t.selection, t.active)).(
                              selection := t.selection, active := t.active)
  {
    var a, b, c := StructuralChanges(s, t.objects), AllUpdates(t.updates), SelectionChanges(s, t.selection, t.active);
    ReportJoins(s, a, b);
    ReportJoins(s, a + b, c);
    var d := SnapshotAfter(s, t.objects);
    ReportElsewhere(Report(s, a), d, b);
    ReportElsewhere(Report(s, a + b), d, c);
  }

  lemma ReportElsewhere(s: State, d: Dict, changes: seq<Change>)
    ensures Report(s.(snapshot := d), changes) == Report(s, changes).(snapshot := d)
  {
  }

  lemma ReportNothing(s: State)
    ensures Report(s, []) == s
  {
  }

  // ---------------------------------------------------------------------------
  // Any run
  // ---------------------------------------------------------------------------

  /** What else moves the revision: a handler changes the scene and reports it in its own response. */
  datatype Step = Depsgraph(tick: Tick) | HandlerBump | Reload(objects: seq<Obj>, filepath: Name) | Connect | Disconnect

  function Next(s: State, step: Step): State
    requires s.snapshot.Valid()
  {
    match step
    case Depsgraph(t) => Ticked(s, t)
    case HandlerBump => s.(revision := s.revision + 1)
    case Reload(objects, filepath) => Reloaded(s, objects, filepath)
    case Connect => s.(connected := true)
    case Disconnect => s.(connected := false)
  }

  /** What each step leaves behind. A tick takes the scene as its new snapshot, and none above the limit; a reload does so too,
      forgets the selection and reports itself; connecting and disconnecting decide only whether anything is reported. */
  lemma StepLeaves(s: State, step: Step)
    requires s.snapshot.Valid()
    ensures var z := Next(s, step);
            && z.connected == (if step.Connect? then true else if step.Disconnect? then false else s.connected)
            && (step.Connect? || step.Disconnect? ==> z == s.(connected := z.connected))
            && (step.HandlerBump? ==> z == s.(revision := s.revision + 1))
            && (step.Reload? ==>
                  && z.snapshot.names == NamesOf(step.objects) && z.selection == {} && z.active == None
                  && z.emitted == s.emitted + (if s.connected then [Event(s.revision + 1, Reset(step.filepath))] else [])
                  && z.revision == s.revision + if s.connected then 1 else 0)
            && (step.Depsgraph? && s.connected ==>
                  z.snapshot.names == NamesOf(step.tick.objects) && z.selection == step.tick.selection && z.active == step.tick.active)
  {
    assert Numbered([], s.revision) == [];
  }

  /** Each object's id with the name of the last that has it; nothing above the limit. */
  ghost function NamesOf(objects: seq<Obj>): Names
  {
    if |objects| > SNAPSHOT_LIMIT then map[] else SnapshotOf(objects).names
  }

  ghost predicate LastOf(objects: seq<Obj>, id: Id, name: Name, k: nat)
  {
    k < |objects| && objects[k] == Obj(id, name) && forall j | k < j < |objects| :: objects[j].id != id
  }

  lemma {:induction false} SnapshotMeans(objects: seq<Obj>, id: Id, name: Name)
    ensures id in SnapshotOf(objects).names && SnapshotOf(objects).names[id] == name <==> exists k :: LastOf(objects, id, name, k)
  {
    if objects != [] {
      var front, last := objects[..|objects| - 1], objects[|objects| - 1];
      SnapshotMeans(front, id, name);
      assert SnapshotOf(objects).names == SnapshotOf(front).names[last.id := last.name];
      hide SnapshotOf;
      LastOfMore(front, last, id, name);
      assert front + [last] == objects;
    }
  }

  lemma LastOfMore(front: seq<Obj>, last: Obj, id: Id, name: Name)
    ensures (exists k :: LastOf(front + [last], id, name, k)) <==>
              if last.id == id then last.name == name else exists k :: LastOf(front, id, name, k)
  {
    var all := front + [last];
    assert all[|front|] == last && forall k | 0 <= k < |front| :: all[k] == front[k];
    if last == Obj(id, name) { assert LastOf(all, id, name, |front|); }
    if last.id != id {
      if k :| LastOf(front, id, name, k) { assert LastOf(all, id, name, k); }
      if k :| LastOf(all, id, name, k) { assert LastOf(front, id, name, k); }
    }
  }

  /** Above the limit the objects are not told one by one: the scene is reset once, and then nothing more until it is small again. */
  lemma LargeScenesAreReset(s: State, t: Tick, c: Change)
    requires s.snapshot.Valid() && |t.objects| > SNAPSHOT_LIMIT && (c.Created? || c.Deleted? || c.Renamed? || c.Reset?)
    ensures c in TickChanges(s, t) <==> s.snapshot.names != map[] && c == Reset(0)
  {
    OfTheStructure(s, t, c);
    hide TickChanges;
  }

  /** Below it, exactly the difference is told. */
  lemma SmallScenesAreCompared(s: State, t: Tick, c: Change)
    requires s.snapshot.Valid() && |t.objects| <= SNAPSHOT_LIMIT && (c.Created? || c.Deleted? || c.Renamed? || c.Reset?)
    ensures c in TickChanges(s, t) <==> Differs(s.snapshot.names, SnapshotOf(t.objects).names, c)
  {
    ComparedBelow(s, t.objects, c);
    OfTheStructure(s, t, c);
    hide *;
  }

  lemma OfTheStructure(s: State, t: Tick, c: Change)
    requires s.snapshot.Valid() && (c.Created? || c.Deleted? || c.Renamed? || c.Reset?)
    ensures c in TickChanges(s, t) <==> c in StructuralChanges(s, t.objects)
  {
    hide AllUpdates, StructuralChanges, SelectionChanges;
  }

  lemma ComparedBelow(s: State, objects: seq<Obj>, c: Change)
    requires s.snapshot.Valid() && |objects| <= SNAPSHOT_LIMIT
    ensures c in StructuralChanges(s, objects) <==> Differs(s.snapshot.names, SnapshotOf(objects).names, c)
  {
    hide SnapshotOf, Structural;
    StructuralTells(s.snapshot, SnapshotOf(objects), c);
  }

  function Run(s: State, steps: seq<Step>): State
    requires s.snapshot.Valid()
    decreases |steps|
  {
    if steps == [] then s else Run(Next(s, steps[0]), steps[1..])
  }

  ghost predicate Rising(events: seq<Event>, last: nat)
  {
    && (forall i, j | 0 <= i < j < |events| :: events[i].revision < events[j].revision)
    && (forall e | e in events :: e.revision <= last)
  }

  lemma ReportRises(s: State, changes: seq<Change>)
    requires Rising(s.emitted, s.revision)
    ensures Rising(Report(s, changes).emitted, Report(s, changes).revision)
  {
    var more := Numbered(changes, s.revision);
    forall e | e in s.emitted + more ensures e.revision <= s.revision + |changes| {
      if e in more { var k :| 0 <= k < |more| && more[k] == e; }
    }
  }

  /** Over any run, every event has a revision of its own, greater than those before it; the revision counts the
      events and the handlers' own bumps, and nothing else. */
  lemma {:induction false} RevisionsRise(s: State, steps: seq<Step>)
    requires s.snapshot.Valid() && Rising(s.emitted, s.revision)
    ensures var z := Run(s, steps);
            && Rising(z.emitted, z.revision) && s.emitted <= z.emitted
            && z.revision - s.revision == |z.emitted| - |s.emitted| + HandlerBumps(steps)
    decreases |steps|
  {
    if steps != [] {
      StepRises(s, steps[0]);
      RevisionsRise(Next(s, steps[0]), steps[1..]);
    }
  }

  function HandlerBumps(steps: seq<Step>): nat
  {
    if steps == [] then 0 else (if steps[0].HandlerBump? then 1 else 0) + HandlerBumps(steps[1..])
  }

  lemma StepRises(s: State, step: Step)
    requires s.snapshot.Valid() && Rising(s.emitted, s.revision)
    ensures var z := Next(s, step);
            && Rising(z.emitted, z.revision) && s.emitted <= z.emitted
            && z.revision - s.revision == |z.emitted| - |s.emitted| + if step.HandlerBump? then 1 else 0
  {
    match step
    case Depsgraph(t) => if s.connected { ReportRises(s, TickChanges(s, t)); }
    case Reload(objects, filepath) => ReportRises(s, [Reset(filepath)]);
    case _ =>
  }

  function Changes(events: seq<Event>): seq<Change>
  {
    seq(|events|, k requires 0 <= k < |events| => events[k].change)
  }

  ghost predicate Small(steps: seq<Step>)
  {
    forall step | step in steps :: !step.Reload? && (step.Depsgraph? ==> |step.tick.objects| <= SNAPSHOT_LIMIT)
  }

  ghost predicate OneSession(steps: seq<Step>)
  {
    forall step | step in steps :: !step.Connect? && !step.Disconnect?
  }

  lemma {:induction false} QuietLeavesNames(a: Names, changes: seq<Change>)
    requires Quiet(changes)
    ensures AllFit(a, changes) && Replay(a, changes) == a
    decreases |changes|
  {
    if changes != [] {
      assert changes[0] in changes;
      QuietLeavesNames(a, changes[1..]);
    }
  }

  lemma TickRebuilds(s: State, t: Tick)
    requires s.snapshot.Valid() && s.connected && |t.objects| <= SNAPSHOT_LIMIT
    ensures AllFit(s.snapshot.names, TickChanges(s, t))
    ensures Replay(s.snapshot.names, TickChanges(s, t)) == Ticked(s, t).snapshot.names == SnapshotOf(t.objects).names
  {
    var a, b := s.snapshot.names, SnapshotOf(t.objects).names;
    var one, two, three := StructuralChanges(s, t.objects), AllUpdates(t.updates), SelectionChanges(s, t.selection, t.active);
    if b != a { DiffRebuildsTheSnapshot(s.snapshot, SnapshotOf(t.objects)); }
    QuietLeavesNames(b, two);
    QuietLeavesNames(b, three);
    ReplayJoins(a, one, two);
    ReplayJoins(a, one + two, three);
  }

  /** Over any run short of a reload, through any number of disconnections, the events since then, replayed, take the
      snapshot of then to the one of now. */
  lemma {:induction false} EventsRebuildTheScene(s: State, steps: seq<Step>)
    requires s.snapshot.Valid() && Small(steps)
    requires Rising(s.emitted, s.revision)
    ensures var z := Run(s, steps);
            && z.snapshot.Valid() && s.emitted <= z.emitted
            && var since := Changes(z.emitted[|s.emitted|..]);
               AllFit(s.snapshot.names, since) && Replay(s.snapshot.names, since) == z.snapshot.names
    decreases |steps|
  {
    RevisionsRise(s, steps);
    var z := Run(s, steps);
    if steps == [] {
      assert Changes(z.emitted[|s.emitted|..]) == [];
    } else {
      var mid := Next(s, steps[0]);
      assert steps[0] in steps && forall e | e in steps[1..] :: e in steps;
      StepRises(s, steps[0]);
      EventsRebuildTheScene(mid, steps[1..]);
      StepRebuilds(s, steps[0]);
      ChangesJoin(s.emitted, mid.emitted, z.emitted);
      ReplayJoins(s.snapshot.names, Changes(mid.emitted[|s.emitted|..]), Changes(z.emitted[|mid.emitted|..]));
    }
  }

  lemma ChangesJoin(a: seq<Event>, b: seq<Event>, c: seq<Event>)
    requires a <= b <= c
    ensures Changes(c[|a|..]) == Changes(b[|a|..]) + Changes(c[|b|..])
  {
    assert c[|a|..] == b[|a|..] + c[|b|..];
  }

  lemma StepRebuilds(s: State, step: Step)
    requires s.snapshot.Valid() && Small([step])
    requires Next(s, step).snapshot.Valid() && s.emitted <= Next(s, step).emitted
    ensures var since := Changes(Next(s, step).emitted[|s.emitted|..]);
            AllFit(s.snapshot.names, since) && Replay(s.snapshot.names, since) == Next(s, step).snapshot.names
  {
    assert step in [step];
    if step.Depsgraph? && s.connected {
      TickSince(s, step.tick);
    } else {
      assert Next(s, step).emitted[|s.emitted|..] == [];
    }
  }

  lemma TickSince(s: State, t: Tick)
    requires s.snapshot.Valid() && s.connected && |t.objects| <= SNAPSHOT_LIMIT
    ensures var z := Ticked(s, t);
            && s.emitted <= z.emitted && Changes(z.emitted[|s.emitted|..]) == TickChanges(s, t)
            && AllFit(s.snapshot.names, TickChanges(s, t)) && Replay(s.snapshot.names, TickChanges(s, t)) == z.snapshot.names
  {
    TickRebuilds(s, t);
    hide TickChanges, SnapshotAfter, AllFit, Replay;
    assert Ticked(s, t).emitted[|s.emitted|..] == Numbered(TickChanges(s, t), s.revision);
  }

  /** Connecting takes no new baseline: the first tick of a session reports a creation, a renaming or a deletion exactly when
      the objects are not those of the last snapshot, and what it reports is all that happened in between. */
  lemma FirstTickReportsTheGap(s: State, t: Tick)
    requires s.snapshot.Valid() && |t.objects| <= SNAPSHOT_LIMIT
    ensures var changes := StructuralChanges(Next(s, Connect), t.objects);
            && (changes == [] <==> SnapshotOf(t.objects).names == s.snapshot.names)
            && AllFit(s.snapshot.names, changes) && Replay(s.snapshot.names, changes) == SnapshotOf(t.objects).names
            && changes <= TickChanges(Next(s, Connect), t)
  {
    if SnapshotOf(t.objects).names != s.snapshot.names {
      DiffRebuildsTheSnapshot(s.snapshot, SnapshotOf(t.objects));
    }
  }

  /** While nobody is connected nothing is reported and the baseline stays where it was. */
  lemma {:induction false} NothingHappensUnconnected(s: State, ticks: seq<Tick>)
    requires s.snapshot.Valid() && !s.connected
    ensures Run(s, seq(|ticks|, k requires 0 <= k < |ticks| => Depsgraph(ticks[k]))) == s
    decreases |ticks|
  {
    if ticks != [] {
      var steps := seq(|ticks|, k requires 0 <= k < |ticks| => Depsgraph(ticks[k]));
      assert steps[1..] == seq(|ticks[1..]|, k requires 0 <= k < |ticks[1..]| => Depsgraph(ticks[1..][k]));
      NothingHappensUnconnected(s, ticks[1..]);
    }
  }
}
