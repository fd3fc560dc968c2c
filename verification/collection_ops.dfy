/** The collection handlers, which change the scene in place, link by link. */
module CollectionOps {
  import opened Collections

  class SceneData {
    const root: Coll
    var children: map<Coll, seq<Coll>>
    var members: map<Coll, set<Obj>>
    var objects: set<Obj>

    constructor (s: Scene)
      ensures Model() == s
    {
      root, children, members, objects := s.root, s.children, s.members, s.objects;
    }

    ghost function Model(): Scene
      reads this
    {
      Scene(root, children, members, objects)
    }

    /** The collection that contains this one, falling back to the root. */
    method FindParent(c: Coll) returns (p: Coll)
      requires OneParent(Model())
      ensures p == ParentOrRoot(Model(), c)
    {
      var left := children.Keys;
      while left != {}
        invariant left <= children.Keys
        invariant forall q | q in children && q !in left :: !ParentOf(Model(), q, c)
        decreases left
      {
        var q :| q in left;
        if c in children[q] {
          assert ParentOf(Model(), q, c);
          return q;
        }
        left := left - {q};
      }
      p := root;
    }

    /** `_descendants`: each child, then what is under it. */
    method CollectDescendants(c: Coll, ghost height: map<Coll, nat>) returns (found: seq<Coll>)
      requires Forest(Model(), height) && c in children
      ensures found == Descendants(Model(), height, c)
      decreases height[c]
    {
      hide Descendants, DescendantsOf, Forest;
      found := [];
      var list := children[c];
      ghost var s := Model();
      AllHaveHeight(s, height);
      ghost var bound := height[c];
      ChildrenDescend(s, height, c);
      assert list[0..] == list && [] + DescendantsOf(s, height, list, bound) == DescendantsOf(s, height, list, bound);
      for i := 0 to |list|
        invariant found + DescendantsOf(s, height, list[i..], bound) == Descendants(s, height, c)
      {
        var below := CollectDescendants(list[i], height);
        DescendantsStep(s, height, list, i, bound);
        ghost var rest := DescendantsOf(s, height, list[i + 1..], bound);
        assert found + ([list[i]] + below + rest) == found + [list[i]] + below + rest;
        found := found + [list[i]] + below;
      }
      assert list[|list|..] == [];
    }

    method UnlinkOne(t: Coll, parent: Coll, o: Obj)
      requires t in members && parent in members
      modifies this
      ensures Model() == old(Model()).(members := Unlinked(old(members), t, parent, o))
    {
      members := members[t := members[t] - {o}];
      var users := set k | k in members && o in members[k];
      if users == {} {
        assert forall k :: k in users <==> k in members && o in members[k];
        members := members[parent := members[parent] + {o}];
      } else {
        var k :| k in users;
      }
    }

    /** Unlinks every object of a target, linking to `parent` whichever is then in no collection. */
    method Relink(t: Coll, parent: Coll, ghost s: Scene, ghost done: set<Coll>)
      requires Valid(s) && t in s.members && parent in s.members && t != parent && parent !in done
      requires Model() == s.(members := Relinked(s, parent, done))
      modifies this
      ensures Model() == s.(members := Relinked(s, parent, done + {t}))
    {
      var left := members[t];
      RelinkStarts(s, parent, done, t);
      while left != {}
        invariant left <= s.members[t] && (t in done ==> left == {})
        invariant Model() == s.(members := HalfRelinked(s, parent, done, t, left))
        decreases left
      {
        var o :| o in left;
        RelinkStep(s, parent, done, t, left, o);
        UnlinkOne(t, parent, o);
        left := left - {o};
      }
      RelinkEnds(s, parent, done, t);
    }

    /** Removes every object still in a target from the file, and so from every collection. */
    method RemoveObjects(t: Coll, ghost s: Scene, ghost gone: set<Obj>)
      requires Valid(s) && t in s.members && Model() == Emptied(s, gone)
      modifies this
      ensures Model() == Emptied(s, gone + s.members[t])
    {
      var left := members[t];
      ghost var more := gone;
      while left != {}
        invariant Model() == Emptied(s, more) && gone <= more <= gone + s.members[t]
        invariant s.members[t] - more == left
        decreases left
      {
        var o :| o in left;
        left := left - {o};
        ghost var was := more;
        more := more + {o};
        members := map k | k in members :: members[k] - {o};
        objects := objects - {o};
        EmptiedStep(s, was, o);
      }
      assert forall o | o in s.members[t] :: o in more || o in s.members[t] - more;
      assert more == gone + s.members[t];
    }

    /** Removes one collection, and every link to it. */
    method RemoveCollection(t: Coll)
      modifies this
      ensures children == Pruned(old(children), {t}) && members == Dropped(old(members), {t})
      ensures objects == old(objects)
    {
      children := map k | k in children && k != t :: Without(children[k], {t});
      members := map k | k in members && k != t :: members[k];
    }

    /** `collection.delete`. */
    method Delete(c: Coll, deleteObjects: bool, recursive: bool, ghost height: map<Coll, nat>) returns (ok: bool)
      requires Forest(Model(), height) && c in children
      modifies this
      ensures ok == (c != root)
      ensures Model() == if ok then Deleted(old(Model()), c, deleteObjects, recursive) else old(Model())
    {
      if c == root {
        return false;
      }
      ghost var s := Model();
      var parent := FindParent(c);
      var targets := [c];
      if recursive {
        var below := CollectDescendants(c, height);
        targets := targets + below;
        SubtreeIsBeneath(s, height, c);
      }
      ghost var all := TargetSet(s, c, recursive);
      assert forall x :: x in targets <==> x in all by {
        if recursive {
          TargetsHangTogether(s, height, c, true);
          SubtreeEnclosed(s, height, c);
        }
      }
      TargetsHangTogether(s, height, c, recursive);
      ParentIsNoTarget(s, height, c, recursive);

      EmptyTargets(targets, parent, deleteObjects, s, all);

      if !recursive {
        // Every child is unlinked here and linked to the parent, in order.
        children := children[parent := children[parent] + children[c]][c := []];
      }
      RemoveTargets(targets, all);
      DeletedStepByStep(s, c, parent, deleteObjects, recursive, all, Model());
      ok := true;
    }

    method EmptyTargets(targets: seq<Coll>, parent: Coll, deleteObjects: bool, ghost s: Scene, ghost all: set<Coll>)
      requires Model() == s && Valid(s) && parent in s.members && parent !in all && all <= s.members.Keys
      requires forall x :: x in targets <==> x in all
      modifies this
      ensures children == s.children
      ensures deleteObjects ==> Model() == Emptied(s, Contents(s, all))
      ensures !deleteObjects ==> Model() == s.(members := Relinked(s, parent, all))
    {
      ghost var done: set<Coll> := {};
      NothingDone(s, parent);
      for i := 0 to |targets|
        invariant forall x :: x in done <==> x in targets[..i]
        invariant done <= all
        invariant deleteObjects ==> Model() == Emptied(s, Contents(s, done))
        invariant !deleteObjects ==> Model() == s.(members := Relinked(s, parent, done))
      {
        var t := targets[i];
        assert t in targets;
        if deleteObjects {
          RemoveObjects(t, s, Contents(s, done));
          ContentsGrow(s, done, t);
        } else {
          Relink(t, parent, s, done);
        }
        done := done + {t};
      }
      assert done == all;
    }

    /** Removes the targets, last first. */
    method RemoveTargets(targets: seq<Coll>, ghost all: set<Coll>)
      requires forall x :: x in targets <==> x in all
      modifies this
      ensures children == Pruned(old(children), all) && members == Dropped(old(members), all)
      ensures objects == old(objects)
    {
      ghost var gone: set<Coll> := {};
      ghost var was := children;
      NothingGone(children, members);
      var i := |targets|;
      while i > 0
        invariant 0 <= i <= |targets|
        invariant forall x :: x in gone <==> x in targets[i..]
        invariant children == Pruned(was, gone) && members == Dropped(old(members), gone)
        invariant objects == old(objects)
      {
        i := i - 1;
        var t := targets[i];
        RemoveCollection(t);
        RemoveStep(was, old(members), gone, t);
        gone := gone + {t};
      }
      assert gone == all;
    }
  }

  lemma AllHaveHeight(s: Scene, height: map<Coll, nat>)
    requires Forest(s, height)
    ensures height.Keys == s.children.Keys
  {
  }

  lemma ChildrenDescend(s: Scene, height: map<Coll, nat>, c: Coll)
    requires Forest(s, height) && c in s.children
    ensures forall k | 0 <= k < |s.children[c]| :: s.children[c][k] in s.children && height[s.children[c][k]] < height[c]
    ensures Descendants(s, height, c) == DescendantsOf(s, height, s.children[c], height[c])
    ensures DescendantsOf(s, height, [], height[c]) == []
  {
    assert forall k | 0 <= k < |s.children[c]| :: ParentOf(s, c, s.children[c][k]);
  }

  lemma DescendantsStep(s: Scene, height: map<Coll, nat>, list: seq<Coll>, i: nat, bound: nat)
    requires Forest(s, height) && forall k | 0 <= k < |list| :: list[k] in s.children && height[list[k]] < bound
    requires i < |list|
    ensures DescendantsOf(s, height, list[i..], bound) ==
              [list[i]] + Descendants(s, height, list[i]) + DescendantsOf(s, height, list[i + 1..], bound)
  {
    assert list[i..][1..] == list[i + 1..];
  }

  ghost function Pruned(children: map<Coll, seq<Coll>>, gone: set<Coll>): map<Coll, seq<Coll>>
  {
    map k | k in children && k !in gone :: Without(children[k], gone)
  }

  ghost function Dropped(members: map<Coll, set<Obj>>, gone: set<Coll>): map<Coll, set<Obj>>
  {
    map k | k in members && k !in gone :: members[k]
  }

  lemma NothingGone(was: map<Coll, seq<Coll>>, members: map<Coll, set<Obj>>)
    ensures was == Pruned(was, {}) && members == Dropped(members, {})
  {
    forall k | k in was ensures Without(was[k], {}) == was[k] { WithoutNone(was[k]); }
  }

  lemma {:induction false} WithoutNone(list: seq<Coll>)
    ensures Without(list, {}) == list
  {
    if list != [] { WithoutNone(list[1..]); }
  }

  lemma RemoveStep(was: map<Coll, seq<Coll>>, members: map<Coll, set<Obj>>, gone: set<Coll>, t: Coll)
    ensures Pruned(Pruned(was, gone), {t}) == Pruned(was, gone + {t})
    ensures Dropped(Dropped(members, gone), {t}) == Dropped(members, gone + {t})
  {
    PruneStep(was, gone, t);
    DropStep(members, gone, t);
  }

  lemma PruneStep(was: map<Coll, seq<Coll>>, gone: set<Coll>, t: Coll)
    ensures Pruned(Pruned(was, gone), {t}) == Pruned(was, gone + {t})
  {
    hide Without;
    var twice, once := Pruned(Pruned(was, gone), {t}), Pruned(was, gone + {t});
    forall k | k in once ensures twice[k] == once[k] { WithoutTwice(was[k], gone, {t}); }
  }

  lemma DropStep(members: map<Coll, set<Obj>>, gone: set<Coll>, t: Coll)
    ensures Dropped(Dropped(members, gone), {t}) == Dropped(members, gone + {t})
  {
  }

  lemma NothingDone(s: Scene, parent: Coll)
    ensures Relinked(s, parent, {}) == s.members && Emptied(s, Contents(s, {})) == s
  {
    assert Orphans(s, {}) == {};
    forall k | k in s.members ensures Relinked(s, parent, {})[k] == s.members[k] {}
    assert Contents(s, {}) == {};
    forall k | k in s.members ensures s.members[k] - {} == s.members[k] {}
    assert Emptied(s, {}).members == s.members;
  }

  lemma EmptiedStep(s: Scene, gone: set<Obj>, o: Obj)
    ensures var e := Emptied(s, gone);
            && (map k | k in e.members :: e.members[k] - {o}) == Emptied(s, gone + {o}).members
            && e.objects - {o} == Emptied(s, gone + {o}).objects
  {
    forall k | k in s.members ensures s.members[k] - gone - {o} == s.members[k] - (gone + {o}) {}
  }

  /** Memberships once every object of the collections in `done` was unlinked from them. */
  ghost function Relinked(s: Scene, parent: Coll, done: set<Coll>): map<Coll, set<Obj>>
  {
    map k | k in s.members ::
      if k in done then {} else if k == parent then s.members[k] + Orphans(s, done) else s.members[k]
  }

  /** In between: of collection `t` the objects in `left` are still to be unlinked. */
  ghost function HalfRelinked(s: Scene, parent: Coll, done: set<Coll>, t: Coll, left: set<Obj>): map<Coll, set<Obj>>
  {
    map k | k in s.members ::
      if k in done then {} else if k == t then left
      else if k == parent then s.members[k] + HalfOrphans(s, done, t, left) else s.members[k]
  }

  ghost function HalfOrphans(s: Scene, done: set<Coll>, t: Coll, left: set<Obj>): set<Obj>
  {
    set o | o in s.objects && if o in left then OnlyIn(s, done, o) else OnlyIn(s, done + {t}, o)
  }

  /** One object unlinked from `t`, and linked to `parent` if nothing else has it. */
  ghost function Unlinked(members: map<Coll, set<Obj>>, t: Coll, parent: Coll, o: Obj): map<Coll, set<Obj>>
    requires t in members && parent in members
  {
    var cut := members[t := members[t] - {o}];
    if forall k | k in cut :: o !in cut[k] then cut[parent := cut[parent] + {o}] else cut
  }

  /** In no collection once it is unlinked from `t`. */
  ghost predicate Homeless(members: map<Coll, set<Obj>>, t: Coll, o: Obj)
    requires t in members
  {
    var cut := members[t := members[t] - {o}];
    forall k | k in cut :: o !in cut[k]
  }

  lemma RelinkStep(s: Scene, parent: Coll, done: set<Coll>, t: Coll, left: set<Obj>, o: Obj)
    requires Valid(s) && t in s.members && parent in s.members && t != parent && t !in done && parent !in done
    requires o in left && left <= s.members[t]
    ensures Unlinked(HalfRelinked(s, parent, done, t, left), t, parent, o) == HalfRelinked(s, parent, done, t, left - {o})
  {
    var half := HalfRelinked(s, parent, done, t, left);
    var now, next := Unlinked(half, t, parent, o), HalfRelinked(s, parent, done, t, left - {o});
    forall k | k in s.members ensures now[k] == next[k] { RelinkAt(s, parent, done, t, left, o, k); }
  }

  lemma RelinkAt(s: Scene, parent: Coll, done: set<Coll>, t: Coll, left: set<Obj>, o: Obj, k: Coll)
    requires Valid(s) && t in s.members && parent in s.members && t != parent && t !in done && parent !in done
    requires o in left && left <= s.members[t] && k in s.members
    ensures Unlinked(HalfRelinked(s, parent, done, t, left), t, parent, o)[k]
         == HalfRelinked(s, parent, done, t, left - {o})[k]
  {
    OrphansGain(s, parent, done, t, left, o);
    hide HalfOrphans, Valid;
  }

  lemma OrphansGain(s: Scene, parent: Coll, done: set<Coll>, t: Coll, left: set<Obj>, o: Obj)
    requires Valid(s) && t in s.members && parent in s.members && t != parent && t !in done && parent !in done
    requires o in left && left <= s.members[t]
    ensures HalfOrphans(s, done, t, left - {o}) ==
              HalfOrphans(s, done, t, left) + if Homeless(HalfRelinked(s, parent, done, t, left), t, o) then {o} else {}
  {
    HomelessMeansOnly(s, parent, done, t, left, o);
    assert o in s.objects;
    hide OnlyIn, Valid, HalfRelinked, Homeless;
  }

  lemma HomelessMeansOnly(s: Scene, parent: Coll, done: set<Coll>, t: Coll, left: set<Obj>, o: Obj)
    requires Valid(s) && t in s.members && parent in s.members && t != parent && t !in done && parent !in done
    requires o in left && left <= s.members[t]
    ensures !OnlyIn(s, done, o) && (OnlyIn(s, done + {t}, o) <==> Homeless(HalfRelinked(s, parent, done, t, left), t, o))
  {
    var half := HalfRelinked(s, parent, done, t, left);
    var cut := half[t := half[t] - {o}];
    assert InCollection(s, t, o);
    if OnlyIn(s, done + {t}, o) {
      forall k | k in cut ensures o !in cut[k] { if o in s.members[k] { assert InCollection(s, k, o); } }
    }
    if forall k | k in cut :: o !in cut[k] {
      forall k | InCollection(s, k, o) ensures k in done + {t} { assert k in cut; }
      assert t in done + {t};
    }
  }

  lemma RelinkStarts(s: Scene, parent: Coll, done: set<Coll>, t: Coll)
    requires Valid(s) && t in s.members && t != parent
    ensures Relinked(s, parent, done) == HalfRelinked(s, parent, done, t, Relinked(s, parent, done)[t])
  {
    var left := Relinked(s, parent, done)[t];
    forall o ensures o in Orphans(s, done) <==> o in HalfOrphans(s, done, t, left) {
      if o !in left { SameOnly(s, done, t, o); }
    }
    assert Orphans(s, done) == HalfOrphans(s, done, t, left);
    var whole, half := Relinked(s, parent, done), HalfRelinked(s, parent, done, t, left);
    forall k | k in s.members ensures half[k] == whole[k] {}
  }

  /** An object outside `t`, or with `t` already done, does not tell `done` and `done + {t}` apart. */
  lemma SameOnly(s: Scene, done: set<Coll>, t: Coll, o: Obj)
    requires t in done || !InCollection(s, t, o)
    ensures OnlyIn(s, done, o) <==> OnlyIn(s, done + {t}, o)
  {
    if OnlyIn(s, done, o) { var d :| d in done && InCollection(s, d, o); assert d in done + {t}; }
    if OnlyIn(s, done + {t}, o) { var d :| d in done + {t} && InCollection(s, d, o); assert d in done; }
  }

  lemma RelinkEnds(s: Scene, parent: Coll, done: set<Coll>, t: Coll)
    requires t in s.members && t != parent
    ensures HalfRelinked(s, parent, done, t, {}) == Relinked(s, parent, done + {t})
  {
    assert HalfOrphans(s, done, t, {}) == Orphans(s, done + {t});
    var half, whole := HalfRelinked(s, parent, done, t, {}), Relinked(s, parent, done + {t});
    forall k | k in s.members ensures half[k] == whole[k] {}
  }

  /** The scene without some objects. */
  ghost function Emptied(s: Scene, gone: set<Obj>): Scene
  {
    s.(members := map k | k in s.members :: s.members[k] - gone, objects := s.objects - gone)
  }

  lemma ContentsGrow(s: Scene, done: set<Coll>, t: Coll)
    requires Valid(s) && t in s.members
    ensures Contents(s, done) + s.members[t] == Contents(s, done + {t})
  {
    forall o ensures o in Contents(s, done) + s.members[t] <==> o in Contents(s, done + {t}) {
      if o in s.members[t] { assert InCollection(s, t, o) && t in done + {t}; }
      if o in Contents(s, done) { var d :| d in done && InCollection(s, d, o); assert d in done + {t}; }
      if o in Contents(s, done + {t}) { var d :| d in done + {t} && InCollection(s, d, o); }
    }
  }

  /** The steps together are the operation. */
  lemma DeletedStepByStep(s: Scene, c: Coll, parent: Coll, deleteObjects: bool, recursive: bool, all: set<Coll>, z: Scene)
    requires Valid(s) && c in s.children && parent == ParentOrRoot(s, c) && all == TargetSet(s, c, recursive)
    requires parent in s.children && parent !in all && c in all && all <= s.children.Keys
    requires z.root == s.root
    requires z.objects == if deleteObjects then s.objects - Contents(s, all) else s.objects
    requires var now := if deleteObjects then Emptied(s, Contents(s, all)).members else Relinked(s, parent, all);
             z.members == Dropped(now, all)
    requires var lists := if recursive then s.children
                          else s.children[parent := s.children[parent] + s.children[c]][c := []];
             z.children == Pruned(lists, all)
    ensures z == Deleted(s, c, deleteObjects, recursive)
  {
    SameLists(s.children, c, parent, recursive, all);
    SameMembers(s, parent, all);
  }

  lemma SameLists(children: map<Coll, seq<Coll>>, c: Coll, parent: Coll, recursive: bool, all: set<Coll>)
    requires c in children && parent in children && parent !in all && c in all
    ensures var lists := if recursive then children else children[parent := children[parent] + children[c]][c := []];
            Pruned(lists, all) == ListsLeft(children, parent, if recursive then [] else children[c], all)
  {
    var lifted := if recursive then [] else children[c];
    var lists := if recursive then children else children[parent := children[parent] + children[c]][c := []];
    forall k | k in children && k !in all ensures lists[k] == children[k] + if k == parent then lifted else [] {
      assert children[k] + [] == children[k];
    }
    PrunedIsLeft(lists, children, parent, lifted, all);
  }

  lemma PrunedIsLeft(
    lists: map<Coll, seq<Coll>>, children: map<Coll, seq<Coll>>, parent: Coll, lifted: seq<Coll>, all: set<Coll>)
    requires lists.Keys == children.Keys
    requires forall k | k in children && k !in all :: lists[k] == children[k] + if k == parent then lifted else []
    ensures Pruned(lists, all) == ListsLeft(children, parent, lifted, all)
  {
    var now, whole := Pruned(lists, all), ListsLeft(children, parent, lifted, all);
    assert now.Keys == whole.Keys;
    forall k | k in now ensures now[k] == whole[k] {
      assert now[k] == Without(lists[k], all);
    }
  }

  lemma SameMembers(s: Scene, parent: Coll, all: set<Coll>)
    requires parent in s.members && parent !in all
    ensures Dropped(Emptied(s, Contents(s, all)).members, all) == MembersLeft(s.members, parent, all, Contents(s, all), {})
    ensures Dropped(Relinked(s, parent, all), all) == MembersLeft(s.members, parent, all, {}, Orphans(s, all))
  {
    var taken, given := Contents(s, all), Orphans(s, all);
    var emptied, without := Dropped(Emptied(s, taken).members, all), MembersLeft(s.members, parent, all, taken, {});
    forall k | k in emptied ensures emptied[k] == without[k] {}
    var relinked, with_ := Dropped(Relinked(s, parent, all), all), MembersLeft(s.members, parent, all, {}, given);
    forall k | k in relinked ensures relinked[k] == with_[k] {}
  }
}
