/** What a difference tells, read off the changes themselves: of each table, which ids are in it, with what, and in what
    order. */
module DiffTells {
  import opened Wrappers
  import opened DiffFold

  // ---------------------------------------------------------------------------
  // Since
  // ---------------------------------------------------------------------------

  /** Of a change and those before it. */
  type Test = (seq<Change>, Change) -> bool

  /** Some change was such a one, and none after it undid that. */
  ghost predicate Since(changes: seq<Change>, yes: Test, no: Test)
  {
    exists k :: SinceAt(changes, k, yes, no)
  }

  ghost predicate SinceAt(changes: seq<Change>, k: nat, yes: Test, no: Test)
  {
    && k < |changes| && yes(changes[..k], changes[k])
    && forall j | k < j < |changes| :: !no(changes[..j], changes[j])
  }

  lemma SinceLast(front: seq<Change>, last: Change, yes: Test, no: Test)
    ensures Since(front + [last], yes, no) <==> yes(front, last) || (Since(front, yes, no) && !no(front, last))
  {
    var all := front + [last];
    assert all[..|front|] == front && forall k | 0 <= k < |front| :: all[..k] == front[..k] && all[k] == front[k];
    if yes(front, last) { assert SinceAt(all, |front|, yes, no); }
    if Since(front, yes, no) && !no(front, last) {
      var k :| SinceAt(front, k, yes, no);
      assert SinceAt(all, k, yes, no);
    }
    if Since(all, yes, no) && !yes(front, last) {
      var k :| SinceAt(all, k, yes, no);
      assert SinceAt(front, k, yes, no);
      assert all[|front|] == last;
    }
  }

  lemma SinceWeaker(changes: seq<Change>, yes: Test, no: Test, yes_: Test, no_: Test)
    requires forall p, c | yes(p, c) :: yes_(p, c)
    requires forall p, c | no_(p, c) :: no(p, c)
    ensures Since(changes, yes, no) ==> Since(changes, yes_, no_)
  {
    if Since(changes, yes, no) {
      var k :| SinceAt(changes, k, yes, no);
      assert SinceAt(changes, k, yes_, no_);
    }
  }

  lemma NothingSince(yes: Test, no: Test)
    ensures !Since([], yes, no)
  {
  }

  predicate Creates(c: Change, id: Id)
  {
    c.Created? && c.id == id
  }

  predicate Renames(c: Change, id: Id)
  {
    c.Renamed? && c.id == id
  }

  predicate Deletes(c: Change, id: Id)
  {
    c.Deleted? && c.id == id
  }

  /** Nothing said of the id before counts any more. */
  predicate Forgets(c: Change, id: Id)
  {
    c.Reset? || Deletes(c, id)
  }

  // What counts, and what undoes it, for each thing a difference tells.

  ghost function Creating(id: Id): Test { (p: seq<Change>, c: Change) => Creates(c, id) }

  ghost function Forgetting(id: Id): Test { (p: seq<Change>, c: Change) => Forgets(c, id) }

  ghost function Restarting(id: Id): Test { (p: seq<Change>, c: Change) => Forgets(c, id) || Creates(c, id) }

  ghost function Recreating(id: Id): Test { (p: seq<Change>, c: Change) => c.Reset? || Creates(c, id) }

  ghost function Modifying(id: Id, a: Aspect): Test { (p: seq<Change>, c: Change) => c.Modified? && c.id == id && a in c.aspects }

  ghost function NamedAs(id: Id, n: Name): Test
  {
    (p: seq<Change>, c: Change) => (Creates(c, id) && c.name == n) || (Renames(c, id) && c.now == n)
  }

  ghost function NamedAgain(id: Id): Test { (p: seq<Change>, c: Change) => Forgets(c, id) || Creates(c, id) || Renames(c, id) }

  ghost function MeshChanging(id: Id): Test { (p: seq<Change>, c: Change) => c.MeshInvalidated? && c.id == id }

  ghost function TreeChanging(id: Id): Test { (p: seq<Change>, c: Change) => c.NodeTreeInvalidated? && c.id == id }

  ghost function Selecting(selected: set<Id>, active: Option<Id>): Test
  {
    (p: seq<Change>, c: Change) => c == SelectionChanged(selected, active)
  }

  ghost function SelectingAgain(): Test { (p: seq<Change>, c: Change) => c.SelectionChanged? }

  ghost function ResettingFor(reason: Name): Test { (p: seq<Change>, c: Change) => c == Reset(reason) }

  ghost function Resetting(): Test { (p: seq<Change>, c: Change) => c.Reset? }

  /** The id was created, and is not gone since. */
  ghost predicate IsNew(changes: seq<Change>, id: Id)
  {
    Since(changes, Creating(id), Forgetting(id))
  }

  ghost function Deleting(id: Id): Test { (p: seq<Change>, c: Change) => Deletes(c, id) && !IsNew(p, id) }

  ghost function DeletedAs(id: Id, n: Name): Test { (p: seq<Change>, c: Change) => Deletes(c, id) && c.name == n && !IsNew(p, id) }

  ghost function DeletedAgain(id: Id): Test
  {
    (p: seq<Change>, c: Change) => c.Reset? || Creates(c, id) || (Deletes(c, id) && !IsNew(p, id))
  }

  ghost function RenamedTo(id: Id, n: Name): Test { (p: seq<Change>, c: Change) => Renames(c, id) && c.now == n && !IsNew(p, id) }

  ghost function RenamedAgain(id: Id): Test { (p: seq<Change>, c: Change) => Forgets(c, id) || (Renames(c, id) && !IsNew(p, id)) }

  /** Something is said of an id that is not new. */
  ghost function Mentioning(id: Id): Test
  {
    (p: seq<Change>, c: Change) => (Renames(c, id) || (c.Modified? && c.id == id)) && !IsNew(p, id)
  }

  ghost predicate IsMentioned(changes: seq<Change>, id: Id)
  {
    Since(changes, Mentioning(id), Forgetting(id))
  }

  ghost function FirstRenamed(id: Id, n: Name): Test
  {
    (p: seq<Change>, c: Change) => Renames(c, id) && c.old_ == n && !IsNew(p, id) && !IsMentioned(p, id)
  }

  /** What a change tells of an object that is not new: a rename its naming, a modification its aspects. */
  ghost function Telling(id: Id, a: Aspect): Test
  {
    (p: seq<Change>, c: Change) =>
      !IsNew(p, id) && ((Renames(c, id) && a == Naming) || (c.Modified? && c.id == id && a in c.aspects))
  }

  // ---------------------------------------------------------------------------
  // Created
  // ---------------------------------------------------------------------------

  lemma FoldedNothing()
    ensures Folded([]) == NOTHING
  {
  }

  lemma {:induction false} CreatedExactlyWhenNew(changes: seq<Change>, id: Id)
    ensures id in Folded(changes).created.values <==> IsNew(changes, id)
    decreases |changes|
  {
    hide Since, SinceAt, Folded;
    if changes == [] {
      FoldedNothing();
      NothingSince(Creating(id), Forgetting(id));
    } else {
      var front, last := changes[..|changes| - 1], changes[|changes| - 1];
      assert changes == front + [last];
      FoldedOneMore(front, last);
      CreatedExactlyWhenNew(front, id);
      SinceLast(front, last, Creating(id), Forgetting(id));
    }
  }

  /** A new object has the aspects modified since it was last created, and no others. */
  lemma {:induction false} AspectsOfTheNew(changes: seq<Change>, id: Id, a: Aspect)
    requires id in Folded(changes).created.values
    ensures a in Folded(changes).created.values[id].aspects <==>
              Since(changes, Modifying(id, a), Restarting(id))
    decreases |changes|
  {
    hide Since, SinceAt, Folded;
    FoldedNothing();
    var yes: Test := Modifying(id, a);
    var no: Test := Restarting(id);
    var front, last := changes[..|changes| - 1], changes[|changes| - 1];
    assert changes == front + [last];
    FoldedOneMore(front, last);
    if id in Folded(front).created.values { AspectsOfTheNew(front, id, a); }
    SinceLast(front, last, yes, no);
  }

  /** It has the name it was last given, and no earlier one is told. */
  lemma {:induction false} NameOfTheNew(changes: seq<Change>, id: Id, n: Name)
    requires id in Folded(changes).created.values
    ensures var e := Folded(changes).created.values[id];
            && e.previous == None
            && (e.name == Some(n) <==>
                  Since(changes, NamedAs(id, n),
                        NamedAgain(id)))
    decreases |changes|
  {
    hide Since, SinceAt, Folded;
    FoldedNothing();
    var yes: Test := NamedAs(id, n);
    var no: Test := NamedAgain(id);
    var front, last := changes[..|changes| - 1], changes[|changes| - 1];
    assert changes == front + [last];
    FoldedOneMore(front, last);
    if id in Folded(front).created.values { NameOfTheNew(front, id, n); }
    SinceLast(front, last, yes, no);
  }

  // ---------------------------------------------------------------------------
  // Modified
  // ---------------------------------------------------------------------------

  lemma {:induction false} ModifiedExactlyWhenMentioned(changes: seq<Change>, id: Id)
    ensures id in Folded(changes).modified.values <==> IsMentioned(changes, id)
    decreases |changes|
  {
    hide Since, SinceAt, Folded;
    if changes == [] {
      FoldedNothing();
      NothingSince(Mentioning(id), Forgetting(id));
    } else {
      var front, last := changes[..|changes| - 1], changes[|changes| - 1];
      assert changes == front + [last];
      FoldedOneMore(front, last);
      ModifiedExactlyWhenMentioned(front, id);
      CreatedExactlyWhenNew(front, id);
      SinceLast(front, last, Mentioning(id), Forgetting(id));
      var d := Folded(front);
      assert Mentioning(id)(front, last) == ((Renames(last, id) || (last.Modified? && last.id == id)) && id !in d.created.values);
      assert id in Taken(d, last).modified.values <==>
               Mentioning(id)(front, last) || (id in d.modified.values && !Forgets(last, id));
    }
  }

  /** Of an id that is not in the table nothing was said that counts. */
  lemma NotMentioned(changes: seq<Change>, id: Id, yes: Test, no: Test)
    requires id !in Folded(changes).modified.values
    requires forall p, c | yes(p, c) :: Mentioning(id)(p, c)
    requires forall p, c | Forgetting(id)(p, c) :: no(p, c)
    ensures !Since(changes, yes, no)
  {
    ModifiedExactlyWhenMentioned(changes, id);
    SinceWeaker(changes, yes, no, Mentioning(id), Forgetting(id));
  }

  /** A modified object has the aspects told of it, with its naming for a rename, and no others. */
  lemma {:induction false} AspectsOfTheModified(changes: seq<Change>, id: Id, a: Aspect)
    requires id in Folded(changes).modified.values
    ensures a in Folded(changes).modified.values[id].aspects <==>
              Since(changes, Telling(id, a), Forgetting(id))
    decreases |changes|
  {
    hide Since, SinceAt, Folded;
    FoldedNothing();
    var front, last := changes[..|changes| - 1], changes[|changes| - 1];
    assert changes == front + [last];
    FoldedOneMore(front, last);
    CreatedExactlyWhenNew(front, id);
    if id in Folded(front).modified.values {
      AspectsOfTheModified(front, id, a);
    } else {
      NotMentioned(front, id, Telling(id, a), Forgetting(id));
    }
    SinceLast(front, last, Telling(id, a), Forgetting(id));
  }

  /** It has the name it was last given in the range, if any. */
  lemma {:induction false} NameOfTheModified(changes: seq<Change>, id: Id, n: Name)
    requires id in Folded(changes).modified.values
    ensures Folded(changes).modified.values[id].name == Some(n) <==>
              Since(changes, RenamedTo(id, n),
                    RenamedAgain(id))
    decreases |changes|
  {
    hide Since, SinceAt, Folded;
    FoldedNothing();
    var front, last := changes[..|changes| - 1], changes[|changes| - 1];
    assert changes == front + [last];
    FoldedOneMore(front, last);
    CreatedExactlyWhenNew(front, id);
    if id in Folded(front).modified.values { NameOfTheModified(front, id, n); }
    else { NotMentioned(front, id, RenamedTo(id, n), RenamedAgain(id)); }
    SinceLast(front, last, RenamedTo(id, n),
              RenamedAgain(id));
  }

  /** The name it had before is told exactly when the first thing said of it was a rename. */
  lemma {:induction false} PreviousOfTheModified(changes: seq<Change>, id: Id, n: Name)
    requires id in Folded(changes).modified.values
    ensures Folded(changes).modified.values[id].previous == Some(n) <==>
              Since(changes, FirstRenamed(id, n),
                    Forgetting(id))
    decreases |changes|
  {
    hide Since, SinceAt, Folded;
    FoldedNothing();
    var front, last := changes[..|changes| - 1], changes[|changes| - 1];
    assert changes == front + [last];
    FoldedOneMore(front, last);
    CreatedExactlyWhenNew(front, id);
    ModifiedExactlyWhenMentioned(front, id);
    if id in Folded(front).modified.values { PreviousOfTheModified(front, id, n); }
    else { NotMentioned(front, id, FirstRenamed(id, n), Forgetting(id)); }
    SinceLast(front, last, FirstRenamed(id, n),
              Forgetting(id));
  }

  // ---------------------------------------------------------------------------
  // Deleted, stale, selected, reset
  // ---------------------------------------------------------------------------

  /** An object that was not new has been deleted, and not created since. */
  lemma {:induction false} DeletedExactlyWhen(changes: seq<Change>, id: Id)
    ensures id in Folded(changes).deleted.values <==>
              Since(changes, Deleting(id), Recreating(id))
    decreases |changes|
  {
    hide Since, SinceAt, Folded;
    var yes: Test := Deleting(id);
    var no: Test := Recreating(id);
    if changes == [] {
      FoldedNothing();
      NothingSince(yes, no);
    } else {
      var front, last := changes[..|changes| - 1], changes[|changes| - 1];
      assert changes == front + [last];
      FoldedOneMore(front, last);
      DeletedExactlyWhen(front, id);
      CreatedExactlyWhenNew(front, id);
      SinceLast(front, last, yes, no);
      }
  }

  /** It is told with the name it was last deleted under, and nothing else. */
  lemma {:induction false} NameOfTheDeleted(changes: seq<Change>, id: Id, n: Name)
    requires id in Folded(changes).deleted.values
    ensures var e := Folded(changes).deleted.values[id];
            && e.previous == None && e.aspects == []
            && (e.name == Some(n) <==>
                  Since(changes, DeletedAs(id, n),
                        DeletedAgain(id)))
    decreases |changes|
  {
    hide Since, SinceAt, Folded;
    FoldedNothing();
    var yes: Test := DeletedAs(id, n);
    var no: Test := DeletedAgain(id);
    var front, last := changes[..|changes| - 1], changes[|changes| - 1];
    assert changes == front + [last];
    FoldedOneMore(front, last);
    CreatedExactlyWhenNew(front, id);
    if id in Folded(front).deleted.values { NameOfTheDeleted(front, id, n); }
    SinceLast(front, last, yes, no);
  }

  lemma {:induction false} MeshIsStaleExactlyWhen(changes: seq<Change>, id: Id)
    ensures id in Folded(changes).meshes <==>
              Since(changes, MeshChanging(id), Forgetting(id))
    decreases |changes|
  {
    hide Since, SinceAt, Folded;
    var yes: Test := MeshChanging(id);
    if changes == [] {
      FoldedNothing();
      NothingSince(yes, Forgetting(id));
    } else {
      var front, last := changes[..|changes| - 1], changes[|changes| - 1];
      assert changes == front + [last];
      FoldedOneMore(front, last);
      MeshIsStaleExactlyWhen(front, id);
      SinceLast(front, last, yes, Forgetting(id));
    }
  }

  /** A node tree stays stale when its object is deleted; only a reset takes it off. */
  lemma {:induction false} TreeIsStaleExactlyWhen(changes: seq<Change>, id: Id)
    ensures id in Folded(changes).trees <==>
              Since(changes, TreeChanging(id), Resetting())
    decreases |changes|
  {
    hide Since, SinceAt, Folded;
    var yes: Test := TreeChanging(id);
    if changes == [] {
      FoldedNothing();
      NothingSince(yes, Resetting());
    } else {
      var front, last := changes[..|changes| - 1], changes[|changes| - 1];
      assert changes == front + [last];
      FoldedOneMore(front, last);
      TreeIsStaleExactlyWhen(front, id);
      SinceLast(front, last, yes, Resetting());
    }
  }

  /** The selection is the last reported, the reason that of the last reset. */
  lemma {:induction false} SelectionAndResetAreTheLast(changes: seq<Change>, selected: set<Id>, active: Option<Id>, reason: Name)
    ensures Folded(changes).selection == Some((selected, active)) <==>
              Since(changes, Selecting(selected, active), SelectingAgain())
    ensures Folded(changes).reset == Some(reason) <==> Since(changes, ResettingFor(reason), Resetting())
    decreases |changes|
  {
    hide Since, SinceAt, Folded;
    var yes: Test := Selecting(selected, active);
    var reset: Test := ResettingFor(reason);
    if changes == [] {
      FoldedNothing();
      NothingSince(yes, SelectingAgain());
      NothingSince(reset, Resetting());
    } else {
      var front, last := changes[..|changes| - 1], changes[|changes| - 1];
      assert changes == front + [last];
      FoldedOneMore(front, last);
      SelectionAndResetAreTheLast(front, selected, active, reason);
      SinceLast(front, last, yes, SelectingAgain());
      SinceLast(front, last, reset, Resetting());
    }
  }

  // ---------------------------------------------------------------------------
  // Each once, and in the order it came
  // ---------------------------------------------------------------------------

  ghost predicate AspectsOnce(t: Table)
  {
    forall id | id in t.values :: NoRepeat(t.values[id].aspects)
  }

  lemma {:induction false} AddingKeepsOnce(have: seq<Aspect>, more: seq<Aspect>)
    requires NoRepeat(have)
    ensures NoRepeat(AddAspects(have, more))
    decreases |more|
  {
    if more != [] { AddingKeepsOnce(if more[0] in have then have else have + [more[0]], more[1..]); }
  }

  /** No aspect is told twice of one object, and no mesh or node tree listed twice. */
  lemma {:induction false} EachIsToldOnce(changes: seq<Change>)
    ensures var d := Folded(changes);
            AspectsOnce(d.created) && AspectsOnce(d.modified) && NoRepeat(d.meshes) && NoRepeat(d.trees)
    decreases |changes|
  {
    hide Folded, AddAspects, Without;
    if changes == [] {
      FoldedNothing();
    } else {
      var front, last := changes[..|changes| - 1], changes[|changes| - 1];
      assert changes == front + [last];
      FoldedOneMore(front, last);
      EachIsToldOnce(front);
      var d := Folded(front);
      match last
      case Modified(id, aspects) =>
        AddingKeepsOnce(if id in d.created.values then d.created.values[id].aspects
                        else Entry(d.modified, id, Entity(None, None, [])).aspects,
                        aspects);
      case Renamed(id, old_, _) => AddingKeepsOnce(Entry(d.modified, id, Entity(None, Some(old_), [])).aspects, [Naming]);
      case Deleted(id, _) => WithoutNoRepeat(d.meshes, id);
      case _ =>
    }
  }

  /** One of the lists of ids a difference has. */
  type List = Diff -> seq<Id>

  /** `x` came into the list when `y` was not there, and has been there since. */
  ghost predicate CameFirst(changes: seq<Change>, list: List, x: Id, y: Id)
  {
    exists n :: CameFirstAt(changes, list, x, y, n)
  }

  ghost predicate CameFirstAt(changes: seq<Change>, list: List, x: Id, y: Id, n: nat)
  {
    && n <= |changes| && y !in list(Folded(changes[..n]))
    && forall m | n <= m <= |changes| :: x in list(Folded(changes[..m]))
  }

  /** What one change can do to a list: empty it, take one id off, or add one at the end. */
  ghost predicate Edits(before: seq<Id>, after: seq<Id>)
  {
    || after == [] || after == before
    || (exists x :: after == Without(before, x))
    || (exists x :: x !in before && after == before + [x])
  }

  /** A list each change edits in that way. */
  ghost predicate Edited(list: List)
  {
    && list(NOTHING) == []
    && forall d, c | WellFormed(d) && NoRepeat(d.meshes) && NoRepeat(d.trees) :: Edits(list(d), list(Taken(d, c)))
  }

  lemma {:induction false} WithoutKeepsOrder(keys: seq<Id>, id: Id, i: nat, j: nat)
    requires i < j < |Without(keys, id)|
    ensures exists k, l :: 0 <= k < l < |keys| && keys[k] == Without(keys, id)[i] && keys[l] == Without(keys, id)[j]
  {
    var rest := Without(keys[1..], id);
    if keys[0] == id {
      assert Without(keys, id) == rest;
      WithoutKeepsOrder(keys[1..], id, i, j);
      var k, l :| 0 <= k < l < |keys[1..]| && keys[1..][k] == rest[i] && keys[1..][l] == rest[j];
      assert keys[k + 1] == rest[i] && keys[l + 1] == rest[j];
    } else if i > 0 {
      WithoutKeepsOrder(keys[1..], id, i - 1, j - 1);
      var k, l :| 0 <= k < l < |keys[1..]| && keys[1..][k] == rest[i - 1] && keys[1..][l] == rest[j - 1];
      assert keys[k + 1] == rest[i - 1] && keys[l + 1] == rest[j - 1];
    } else {
      assert rest[j - 1] in rest && rest[j - 1] in keys[1..];
      var l :| 0 <= l < |keys[1..]| && keys[1..][l] == rest[j - 1];
      assert Without(keys, id)[0] == keys[0];
      assert keys[l + 1] == rest[j - 1];
    }
  }

  lemma StillFirst(front: seq<Change>, last: Change, list: List, x: Id, y: Id)
    requires CameFirst(front, list, x, y) && x in list(Folded(front + [last]))
    ensures CameFirst(front + [last], list, x, y)
  {
    hide Folded;
    var n: nat :| CameFirstAt(front, list, x, y, n);
    var all := front + [last];
    assert all[..n] == front[..n];
    forall m | n <= m <= |all| ensures x in list(Folded(all[..m])) {
      if m <= |front| { assert all[..m] == front[..m]; } else { assert all[..m] == all; }
    }
    assert CameFirstAt(all, list, x, y, n);
  }

  lemma FirstNow(front: seq<Change>, last: Change, list: List, x: Id, y: Id)
    requires x in list(Folded(front)) && y !in list(Folded(front)) && x in list(Folded(front + [last]))
    ensures CameFirst(front + [last], list, x, y)
  {
    hide Folded;
    var all := front + [last];
    assert all[..|front|] == front;
    forall m | |front| <= m <= |all| ensures x in list(Folded(all[..m])) {
      if m == |front| { assert all[..m] == front; } else { assert all[..m] == all; }
    }
    assert CameFirstAt(all, list, x, y, |front|);
  }

  /** The ids of a list stand in the order in which they came into it. */
  lemma {:induction false} OldestFirst(changes: seq<Change>, list: List, i: nat, j: nat)
    requires Edited(list) && i < j < |list(Folded(changes))|
    ensures CameFirst(changes, list, list(Folded(changes))[i], list(Folded(changes))[j])
    decreases |changes|
  {
    hide Folded, Without, CameFirst;
    FoldedNothing();
    var front, last := changes[..|changes| - 1], changes[|changes| - 1];
    assert changes == front + [last];
    FoldedOneMore(front, last);
    FoldIsWellFormed(front);
    EachIsToldOnce(front);
    var before, after := list(Folded(front)), list(Folded(changes));
    if j < |before| && after[i] == before[i] && after[j] == before[j] {
      OldestFirst(front, list, i, j);
      StillFirst(front, last, list, after[i], after[j]);
    } else if after[j] !in before {
      var x :| x !in before && after == before + [x];
      FirstNow(front, last, list, after[i], after[j]);
    } else {
      var x :| after == Without(before, x);
      WithoutKeepsOrder(before, x, i, j);
      var k, l :| 0 <= k < l < |before| && before[k] == after[i] && before[l] == after[j];
      OldestFirst(front, list, k, l);
      StillFirst(front, last, list, after[i], after[j]);
    }
  }

  function CreatedIds(d: Diff): seq<Id> { d.created.keys }

  function ModifiedIds(d: Diff): seq<Id> { d.modified.keys }

  function DeletedIds(d: Diff): seq<Id> { d.deleted.keys }

  function StaleMeshes(d: Diff): seq<Id> { d.meshes }

  function StaleTrees(d: Diff): seq<Id> { d.trees }

  lemma ListsAreEdited()
    ensures Edited(CreatedIds) && Edited(ModifiedIds) && Edited(DeletedIds) && Edited(StaleMeshes) && Edited(StaleTrees)
  {
    forall d, c | WellFormed(d) && NoRepeat(d.meshes) && NoRepeat(d.trees)
      ensures Edits(CreatedIds(d), CreatedIds(Taken(d, c))) && Edits(ModifiedIds(d), ModifiedIds(Taken(d, c)))
      ensures Edits(DeletedIds(d), DeletedIds(Taken(d, c)))
      ensures Edits(StaleMeshes(d), StaleMeshes(Taken(d, c))) && Edits(StaleTrees(d), StaleTrees(Taken(d, c)))
    {
      TakenEdits(d, c);
    }
  }

  lemma TakenEdits(d: Diff, c: Change)
    requires WellFormed(d) && NoRepeat(d.meshes) && NoRepeat(d.trees)
    ensures var e := Taken(d, c);
            && Edits(d.created.keys, e.created.keys) && Edits(d.modified.keys, e.modified.keys)
            && Edits(d.deleted.keys, e.deleted.keys) && Edits(d.meshes, e.meshes) && Edits(d.trees, e.trees)
  {
    hide Without, AddAspects;
  }

  /** So the ids of all five lists stand in the order in which they came into them. */
  lemma ListsAreInOrder(changes: seq<Change>, i: nat, j: nat)
    requires i < j
    ensures var d := Folded(changes);
            && (j < |d.created.keys| ==> CameFirst(changes, CreatedIds, d.created.keys[i], d.created.keys[j]))
            && (j < |d.modified.keys| ==> CameFirst(changes, ModifiedIds, d.modified.keys[i], d.modified.keys[j]))
            && (j < |d.deleted.keys| ==> CameFirst(changes, DeletedIds, d.deleted.keys[i], d.deleted.keys[j]))
            && (j < |d.meshes| ==> CameFirst(changes, StaleMeshes, d.meshes[i], d.meshes[j]))
            && (j < |d.trees| ==> CameFirst(changes, StaleTrees, d.trees[i], d.trees[j]))
  {
    ListsAreEdited();
    hide Folded, CameFirst, Edited;
    var d := Folded(changes);
    if j < |d.created.keys| { OldestFirst(changes, CreatedIds, i, j); }
    if j < |d.modified.keys| { OldestFirst(changes, ModifiedIds, i, j); }
    if j < |d.deleted.keys| { OldestFirst(changes, DeletedIds, i, j); }
    if j < |d.meshes| { OldestFirst(changes, StaleMeshes, i, j); }
    if j < |d.trees| { OldestFirst(changes, StaleTrees, i, j); }
  }
}
