/** Folding a run of scene changes into one difference. */
module DiffFold {
  import opened Wrappers

  /** Ids and names are compared and copied, never looked into. */
  type Id = nat
  type Name = nat

  datatype Aspect = Transform | Naming | Visibility | Parentage | Materials | Other(what: Name)

  datatype Change =
    | Created(id: Id, name: Name)
    | Deleted(id: Id, name: Name)
    | Renamed(id: Id, old_: Name, now: Name)
    | Modified(id: Id, aspects: seq<Aspect>)
    | MeshInvalidated(id: Id)
    | NodeTreeInvalidated(id: Id)
    | SelectionChanged(selected: set<Id>, active: Option<Id>)
    | Reset(reason: Name)

  // ---------------------------------------------------------------------------
  // What the changes mean for the objects of the scene
  // ---------------------------------------------------------------------------

  type Names = map<Id, Name>

  function After(a: Names, c: Change): Names
  {
    match c
    case Created(id, name) => a[id := name]
    case Deleted(id, _) => a - {id}
    case Renamed(id, _, now) => a[id := now]
    case _ => a
  }

  function Replay(a: Names, changes: seq<Change>): Names
    decreases |changes|
  {
    if changes == [] then a else Replay(After(a, changes[0]), changes[1..])
  }

  /** The change can happen to these objects. */
  predicate Fits(a: Names, c: Change)
  {
    match c
    case Created(id, _) => id !in a
    case Deleted(id, name) => id in a && a[id] == name
    case Renamed(id, old_, now) => id in a && a[id] == old_
    case Reset(_) => false
    case _ => true
  }

  ghost predicate AllFit(a: Names, changes: seq<Change>)
    decreases |changes|
  {
    changes == [] || (Fits(a, changes[0]) && AllFit(After(a, changes[0]), changes[1..]))
  }

  lemma {:induction false} ReplayJoins(a: Names, one: seq<Change>, two: seq<Change>)
    ensures Replay(a, one + two) == Replay(Replay(a, one), two)
    ensures AllFit(a, one + two) <==> AllFit(a, one) && AllFit(Replay(a, one), two)
    decreases |one|
  {
    if one == [] {
      assert one + two == two;
    } else {
      assert (one + two)[1..] == one[1..] + two && (one + two)[0] == one[0];
      ReplayJoins(After(a, one[0]), one[1..], two);
    }
  }

  // ---------------------------------------------------------------------------
  // Folding
  // ---------------------------------------------------------------------------

  /** One entity in a difference. */
  datatype Entity = Entity(name: Option<Name>, previous: Option<Name>, aspects: seq<Aspect>)

  /** A map that remembers the order its keys came in. */
  datatype Table = Table(keys: seq<Id>, values: map<Id, Entity>)
  {
    ghost predicate Valid()
    {
      (forall k :: k in keys <==> k in values) && NoRepeat(keys)
    }

    function Insert(id: Id, e: Entity): Table
    {
      Table(if id in values then keys else keys + [id], values[id := e])
    }

    function Remove(id: Id): Table
    {
      Table(Without(keys, id), values - {id})
    }
  }

  function Without(keys: seq<Id>, id: Id): (r: seq<Id>)
    ensures forall k :: k in r <==> k in keys && k != id
  {
    if keys == [] then [] else (if keys[0] == id then [] else [keys[0]]) + Without(keys[1..], id)
  }

  lemma {:induction false} WithoutNoRepeat(keys: seq<Id>, id: Id)
    requires NoRepeat(keys)
    ensures NoRepeat(Without(keys, id))
  {
    if keys != [] {
      var rest := Without(keys[1..], id);
      WithoutNoRepeat(keys[1..], id);
      assert keys[0] !in keys[1..];
      assert keys[0] !in rest;
      assert [] + rest == rest;
    }
  }

  lemma RemoveKeeps(t: Table, id: Id)
    requires t.Valid()
    ensures t.Remove(id).Valid()
  {
    WithoutNoRepeat(t.keys, id);
  }

  lemma InsertKeeps(t: Table, id: Id, e: Entity)
    requires t.Valid()
    ensures t.Insert(id, e).Valid()
  {
  }

  datatype Diff = Diff(
    created: Table, modified: Table, deleted: Table, meshes: seq<Id>, trees: seq<Id>,
    selection: Option<(set<Id>, Option<Id>)>, reset: Option<Name>)

  const EMPTY: Table := Table([], map[])

  const NOTHING: Diff := Diff(EMPTY, EMPTY, EMPTY, [], [], None, None)

  function Add(ids: seq<Id>, id: Id): seq<Id>
  {
    if id in ids then ids else ids + [id]
  }

  function AddAspects(have: seq<Aspect>, more: seq<Aspect>): (r: seq<Aspect>)
    ensures forall a :: a in r <==> a in have || a in more
    decreases |more|
  {
    if more == [] then have else AddAspects(if more[0] in have then have else have + [more[0]], more[1..])
  }

  function Entry(t: Table, id: Id, fallback: Entity): Entity
  {
    if id in t.values then t.values[id] else fallback
  }

  /** One more change taken into the difference. */
  function Taken(d: Diff, c: Change): Diff
  {
    match c
    case Reset(reason) => Diff(EMPTY, EMPTY, EMPTY, [], [], d.selection, Some(reason))
    case Created(id, name) => d.(deleted := d.deleted.Remove(id), created := d.created.Insert(id, Entity(Some(name), None, [])))
    case Deleted(id, name) =>
      d.(created := d.created.Remove(id), modified := d.modified.Remove(id), meshes := Without(d.meshes, id),
         deleted := if id in d.created.values then d.deleted else d.deleted.Insert(id, Entity(Some(name), None, [])))
    case Renamed(id, old_, now) =>
      if id in d.created.values then d.(created := d.created.Insert(id, d.created.values[id].(name := Some(now))))
      else
        var e := Entry(d.modified, id, Entity(None, Some(old_), []));
        d.(modified := d.modified.Insert(id, e.(name := Some(now), aspects := AddAspects(e.aspects, [Naming]))))
    case Modified(id, aspects) =>
      if id in d.created.values then
        var e := d.created.values[id];
        d.(created := d.created.Insert(id, e.(aspects := AddAspects(e.aspects, aspects))))
      else
        var e := Entry(d.modified, id, Entity(None, None, []));
        d.(modified := d.modified.Insert(id, e.(aspects := AddAspects(e.aspects, aspects))))
    case MeshInvalidated(id) => d.(meshes := Add(d.meshes, id))
    case NodeTreeInvalidated(id) => d.(trees := Add(d.trees, id))
    case SelectionChanged(selected, active) => d.(selection := Some((selected, active)))
  }

  function Folded(changes: seq<Change>): Diff
    decreases |changes|
  {
    if changes == [] then NOTHING else Taken(Folded(changes[..|changes| - 1]), changes[|changes| - 1])
  }

  /** `fold`, table by table. */
  method Fold(changes: seq<Change>) returns (diff: Diff)
    ensures diff == Folded(changes)
  {
    var created, modified, deleted, meshes, trees := EMPTY, EMPTY, EMPTY, [], [];
    var selection: Option<(set<Id>, Option<Id>)> := None;
    var reset: Option<Name> := None;
    for i := 0 to |changes|
      invariant Diff(created, modified, deleted, meshes, trees, selection, reset) == Folded(changes[..i])
    {
      assert changes[..i + 1][..i] == changes[..i];
      match changes[i] {
        case Reset(reason) =>
          created, modified, deleted, meshes, trees := EMPTY, EMPTY, EMPTY, [], [];
          reset := Some(reason);
        case Created(id, name) =>
          deleted := deleted.Remove(id);
          created := created.Insert(id, Entity(Some(name), None, []));
        case Deleted(id, name) =>
          var wasCreated := id in created.values;
          created := created.Remove(id);
          modified := modified.Remove(id);
          meshes := Without(meshes, id);
          if !wasCreated {
            deleted := deleted.Insert(id, Entity(Some(name), None, []));
          }
        case Renamed(id, old_, now) =>
          if id in created.values {
            created := created.Insert(id, created.values[id].(name := Some(now)));
          } else {
            var e := Entry(modified, id, Entity(None, Some(old_), []));
            modified := modified.Insert(id, e.(name := Some(now), aspects := AddAspects(e.aspects, [Naming])));
          }
        case Modified(id, aspects) =>
          if id in created.values {
            var e := created.values[id];
            created := created.Insert(id, e.(aspects := AddAspects(e.aspects, aspects)));
          } else {
            var e := Entry(modified, id, Entity(None, None, []));
            modified := modified.Insert(id, e.(aspects := AddAspects(e.aspects, aspects)));
          }
        case MeshInvalidated(id) => meshes := Add(meshes, id);
        case NodeTreeInvalidated(id) => trees := Add(trees, id);
        case SelectionChanged(selected, active) => selection := Some((selected, active));
      }
    }
    assert changes[..|changes|] == changes;
    diff := Diff(created, modified, deleted, meshes, trees, selection, reset);
  }

  // ---------------------------------------------------------------------------
  // What a difference says
  // ---------------------------------------------------------------------------

  /** The objects as a reader of the difference has them, who knew them as `a`. */
  ghost function Patched(d: Diff, a: Names): Names
  {
    map id | id in (a.Keys - d.deleted.values.Keys) + d.created.values.Keys ::
      if id in d.created.values then (if d.created.values[id].name.Some? then d.created.values[id].name.value else 0)
      else if id in d.modified.values && d.modified.values[id].name.Some? then d.modified.values[id].name.value
      else a[id]
  }

  ghost predicate Recreated(changes: seq<Change>, id: Id)
  {
    exists c :: c in changes && c.Created? && c.id == id
  }

  /** What the fold so far knows of one id that changes took from `a` to `b`. */
  ghost predicate Tells(d: Diff, a: Names, b: Names, recreated: bool, id: Id)
  {
    && (recreated ==> id !in d.deleted.values && (id in b <==> id in d.created.values))
    && (!recreated ==> id !in d.created.values && (id in d.deleted.values <==> id in a && id !in b) && (id in b ==> id in a))
    && (id in d.created.values ==> d.created.values[id].name == Some(b[id]))
    && (id in b && id !in d.created.values ==>
          b[id] == if id in d.modified.values && d.modified.values[id].name.Some? then d.modified.values[id].name.value else a[id])
    && (id in d.modified.values && d.modified.values[id].name.Some? ==> id in b && !recreated)
  }

  lemma TakenTells(d: Diff, a: Names, b: Names, recreated: bool, id: Id, c: Change)
    requires Tells(d, a, b, recreated, id) && Fits(b, c)
    ensures Tells(Taken(d, c), a, After(b, c), recreated || (c.Created? && c.id == id), id)
  {
  }

  lemma {:induction false} FoldTells(a: Names, changes: seq<Change>, id: Id)
    requires AllFit(a, changes)
    ensures Tells(Folded(changes), a, Replay(a, changes), Recreated(changes, id), id)
    decreases |changes|
  {
    if changes != [] {
      var front, last := changes[..|changes| - 1], changes[|changes| - 1];
      assert changes == front + [last];
      ReplayJoins(a, front, [last]);
      assert Replay(Replay(a, front), [last]) == After(Replay(a, front), last);
      FoldTells(a, front, id);
      TakenTells(Folded(front), a, Replay(a, front), Recreated(front, id), id, last);
      assert Recreated(changes, id) <==> Recreated(front, id) || (last.Created? && last.id == id);
    }
  }

  /** Reading the difference gives the objects as they are now exactly when none that is gone was created again in
      between: deleting it a second time is then taken for undoing the creation, and the first deletion is forgotten. */
  lemma FoldIsFaithfulExactlyWhenNoneCameBackToGo(a: Names, changes: seq<Change>)
    requires AllFit(a, changes)
    ensures Patched(Folded(changes), a) == Replay(a, changes) <==>
              forall id | id in a && id !in Replay(a, changes) :: !Recreated(changes, id)
  {
    var d, b := Folded(changes), Replay(a, changes);
    var p := Patched(d, a);
    forall id ensures Tells(d, a, b, Recreated(changes, id), id) { FoldTells(a, changes, id); }
    forall id ensures id in p <==> id in b || (id in a && Recreated(changes, id)) {
      assert Tells(d, a, b, Recreated(changes, id), id);
    }
    forall id | id in b ensures p[id] == b[id] {
      assert Tells(d, a, b, Recreated(changes, id), id);
    }
    if forall id | id in a && id !in b :: !Recreated(changes, id) {
      assert p.Keys == b.Keys;
    } else {
      var id :| id in a && id !in b && Recreated(changes, id);
      assert id in p;
    }
  }

  /** Delete, create again, delete again: the difference is empty, the object is gone. */
  lemma ComingBackHidesADeletion(id: Id, name: Name)
    ensures var changes := [Deleted(id, name), Created(id, name), Deleted(id, name)];
            && AllFit(map[id := name], changes) && Replay(map[id := name], changes) == map[]
            && Folded(changes) == NOTHING
  {
    var a: Names := map[id := name];
    var one: seq<Change> := [Deleted(id, name)];
    var two := one + [Created(id, name)];
    var three := two + [Deleted(id, name)];
    assert three == [Deleted(id, name), Created(id, name), Deleted(id, name)];
    var none: Names := map[];
    assert a - {id} == none && none[id := name] == a;
    assert three[1..] == [Created(id, name), Deleted(id, name)] && three[1..][1..] == one && one[1..] == [];
    assert AllFit(none, []) && Replay(a, one) == none && AllFit(a, one);
    assert AllFit(none, three[1..]) && Replay(none, three[1..]) == none;
    assert one[..0] == [] && two[..1] == one && three[..2] == two;
    var e := Entity(Some(name), None, []);
    assert Without([id], id) == [] by { assert [id][1..] == []; }
    assert Folded(one) == NOTHING.(deleted := Table([id], map[id := e]));
    assert map[id := e] - {id} == map[];
    assert Folded(two) == NOTHING.(created := Table([id], map[id := e]));
  }

  /** Keys and values agree, no id is listed twice, and none both as created and as deleted. */
  ghost predicate WellFormed(d: Diff)
  {
    && d.created.Valid() && d.modified.Valid() && d.deleted.Valid()
    && d.created.values.Keys !! d.deleted.values.Keys
  }

  lemma TakenKeeps(d: Diff, c: Change)
    requires WellFormed(d)
    ensures WellFormed(Taken(d, c))
  {
    match c
    case Created(id, name) =>
      RemoveKeeps(d.deleted, id);
      InsertKeeps(d.created, id, Entity(Some(name), None, []));
    case Deleted(id, name) =>
      RemoveKeeps(d.created, id);
      RemoveKeeps(d.modified, id);
      InsertKeeps(d.deleted, id, Entity(Some(name), None, []));
    case Renamed(id, old_, now) =>
      forall e { InsertKeeps(d.created, id, e); }
      forall e { InsertKeeps(d.modified, id, e); }
    case Modified(id, aspects) =>
      forall e { InsertKeeps(d.created, id, e); }
      forall e { InsertKeeps(d.modified, id, e); }
    case _ =>
  }

  lemma {:induction false} FoldIsWellFormed(changes: seq<Change>)
    ensures WellFormed(Folded(changes))
    decreases |changes|
  {
    if changes != [] {
      FoldIsWellFormed(changes[..|changes| - 1]);
      TakenKeeps(Folded(changes[..|changes| - 1]), changes[|changes| - 1]);
    }
  }

  lemma FoldedOneMore(front: seq<Change>, last: Change)
    ensures Folded(front + [last]) == Taken(Folded(front), last)
  {
    assert (front + [last])[..|front|] == front;
  }

  /** The difference as it is when a reset came first. */
  ghost function ResetFirst(d: Diff, reason: Name, before: Option<(set<Id>, Option<Id>)>): Diff
  {
    d.(reset := Some(reason), selection := if d.selection.Some? then d.selection else before)
  }

  lemma TakenAfterReset(d: Diff, reason: Name, before: Option<(set<Id>, Option<Id>)>, c: Change)
    requires !c.Reset?
    ensures Taken(ResetFirst(d, reason, before), c) == ResetFirst(Taken(d, c), reason, before)
  {
  }

  /** A reset forgets everything before it but the selection, which a reader may take for the new scene's. */
  lemma {:induction false} ResetForgetsAllButTheSelection(before: seq<Change>, reason: Name, later: seq<Change>)
    requires forall c | c in later :: !c.Reset?
    ensures Folded(before + [Reset(reason)] + later) ==
              ResetFirst(Folded(later), reason, Folded(before).selection)
    decreases |later|
  {
    hide *;
    if later == [] {
      ResetAlone(before, reason);
      assert before + [Reset(reason)] + later == before + [Reset(reason)];
    } else {
      var front, last := later[..|later| - 1], later[|later| - 1];
      assert later == front + [last] && last in later;
      ResetForgetsAllButTheSelection(before, reason, front);
      TakenAfterReset(Folded(front), reason, Folded(before).selection, last);
      FoldedOneMore(before + [Reset(reason)] + front, last);
      FoldedOneMore(front, last);
      assert before + [Reset(reason)] + later == before + [Reset(reason)] + front + [last];
    }
  }

  lemma ResetAlone(before: seq<Change>, reason: Name)
    ensures Folded(before + [Reset(reason)]) == ResetFirst(Folded([]), reason, Folded(before).selection)
  {
    FoldedOneMore(before, Reset(reason));
  }
}
