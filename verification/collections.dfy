/** Collections of a scene: a tree over which objects are linked, unlinked, moved and deleted. */
module Collections {
  import opened Wrappers

  type Coll = nat
  type Obj = nat

  /** `children` and `members` have an entry for the scene root and for every collection in the file. */
  datatype Scene = Scene(root: Coll, children: map<Coll, seq<Coll>>, members: map<Coll, set<Obj>>, objects: set<Obj>)

  ghost predicate Valid(s: Scene)
  {
    && s.root in s.children && s.members.Keys == s.children.Keys
    && (forall p | p in s.children :: Listed(s, s.children[p]))
    && (forall c | c in s.members :: s.members[c] <= s.objects)
  }

  ghost predicate Listed(s: Scene, list: seq<Coll>)
  {
    forall k | 0 <= k < |list| :: list[k] in s.children && list[k] != s.root
  }

  ghost predicate ParentOf(s: Scene, p: Coll, c: Coll)
  {
    p in s.children && c in s.children[p]
  }

  ghost predicate OneParent(s: Scene)
  {
    && (forall p, q, c | ParentOf(s, p, c) && ParentOf(s, q, c) :: p == q)
    && (forall p | p in s.children :: NoRepeat(s.children[p]))
  }

  /** No cycle: `height` falls from parent to child, and the root is highest. */
  ghost predicate Acyclic(s: Scene, height: map<Coll, nat>)
  {
    && height.Keys == s.children.Keys
    && (forall p, c | ParentOf(s, p, c) :: c in height && height[c] < height[p])
    && (forall c | c in height && c != s.root && s.root in height :: height[c] < height[s.root])
  }

  /** Every collection but the root hangs somewhere. */
  ghost predicate Rooted(s: Scene)
  {
    forall c | c in s.children && c != s.root :: exists p :: ParentOf(s, p, c)
  }

  ghost predicate Housed(s: Scene)
  {
    forall o | o in s.objects :: exists c :: InCollection(s, c, o)
  }

  ghost predicate InCollection(s: Scene, c: Coll, o: Obj)
  {
    c in s.members && o in s.members[c]
  }

  /** What every operation keeps. */
  ghost predicate Forest(s: Scene, height: map<Coll, nat>)
  {
    Valid(s) && OneParent(s) && Acyclic(s, height)
  }

  ghost predicate IsChain(s: Scene, chain: seq<Coll>, top: Coll, c: Coll)
  {
    && |chain| > 0 && chain[0] == top && chain[|chain| - 1] == c
    && forall k | 0 <= k < |chain| - 1 :: ParentOf(s, chain[k], chain[k + 1])
  }

  /** `c` is `top` or hangs somewhere under it. */
  ghost predicate Beneath(s: Scene, top: Coll, c: Coll)
  {
    exists chain :: IsChain(s, chain, top, c)
  }

  lemma BeneathChild(s: Scene, top: Coll, p: Coll, c: Coll)
    requires Beneath(s, top, p) && ParentOf(s, p, c)
    ensures Beneath(s, top, c)
  {
    var chain :| IsChain(s, chain, top, p);
    assert IsChain(s, chain + [c], top, c);
  }

  /** A rooted forest is a tree: every collection is reached from the root. */
  lemma {:induction false} RootedIsReachable(s: Scene, height: map<Coll, nat>, c: Coll, bound: nat)
    requires Forest(s, height) && Rooted(s) && c in s.children
    requires forall d | d in height :: height[d] <= bound
    ensures Beneath(s, s.root, c)
    decreases bound - height[c]
  {
    if c == s.root {
      assert IsChain(s, [c], c, c);
    } else {
      var p :| ParentOf(s, p, c);
      RootedIsReachable(s, height, p, bound);
      BeneathChild(s, s.root, p, c);
    }
  }

  // ---------------------------------------------------------------------------
  // Descendants
  // ---------------------------------------------------------------------------

  /** Depth first, each child before its own children. */
  ghost function Descendants(s: Scene, height: map<Coll, nat>, c: Coll): seq<Coll>
    requires Forest(s, height) && c in s.children
    decreases height[c], |s.children[c]| + 1
  {
    assert forall k | 0 <= k < |s.children[c]| :: ParentOf(s, c, s.children[c][k]);
    DescendantsOf(s, height, s.children[c], height[c])
  }

  ghost function DescendantsOf(s: Scene, height: map<Coll, nat>, list: seq<Coll>, bound: nat): seq<Coll>
    requires Forest(s, height) && forall k | 0 <= k < |list| :: list[k] in s.children && height[list[k]] < bound
    decreases bound, |list|
  {
    if list == [] then []
    else [list[0]] + Descendants(s, height, list[0]) + DescendantsOf(s, height, list[1..], bound)
  }

  ghost function Subtree(s: Scene, height: map<Coll, nat>, c: Coll): seq<Coll>
    requires Forest(s, height) && c in s.children
  {
    [c] + Descendants(s, height, c)
  }

  ghost predicate Enclosed(s: Scene, list: seq<Coll>, top: seq<Coll>)
  {
    && (forall x | x in list :: x in s.children && x != s.root)
    && (forall x, y | x in list && ParentOf(s, x, y) :: y in list)
    && (forall x | x in list && x !in top :: exists p :: p in list && ParentOf(s, p, x))
    && (forall x | x in top :: x in list)
  }

  /** The descendants are closed downwards, and upwards until the children they start from. */
  lemma {:induction false} DescendantsEnclosed(s: Scene, height: map<Coll, nat>, list: seq<Coll>, bound: nat)
    requires Forest(s, height) && Listed(s, list)
    requires forall k | 0 <= k < |list| :: list[k] in s.children && height[list[k]] < bound
    ensures Enclosed(s, DescendantsOf(s, height, list, bound), list)
    decreases bound, |list|
  {
    if list != [] {
      var first := list[0];
      assert forall k | 0 <= k < |s.children[first]| :: ParentOf(s, first, s.children[first][k]);
      DescendantsEnclosed(s, height, s.children[first], height[first]);
      DescendantsEnclosed(s, height, list[1..], bound);
      var below, rest := Descendants(s, height, first), DescendantsOf(s, height, list[1..], bound);
      var all := DescendantsOf(s, height, list, bound);
      assert all == [first] + below + rest;
      forall x | x in all && x !in list
        ensures exists p :: p in all && ParentOf(s, p, x)
      {
        if x in below {
          if x in s.children[first] { assert ParentOf(s, first, x); }
          else { var p :| p in below && ParentOf(s, p, x); assert p in all; }
        } else {
          assert x in rest && x !in list[1..];
          var p :| p in rest && ParentOf(s, p, x);
          assert p in all;
        }
      }
      forall x, y | x in all && ParentOf(s, x, y)
        ensures y in all
      {
        if x == first { assert y in s.children[first]; assert y in below; }
      }
    }
  }

  lemma SubtreeEnclosed(s: Scene, height: map<Coll, nat>, c: Coll)
    requires Forest(s, height) && c in s.children && c != s.root
    ensures Enclosed(s, Subtree(s, height, c), [c])
  {
    assert forall k | 0 <= k < |s.children[c]| :: ParentOf(s, c, s.children[c][k]);
    DescendantsEnclosed(s, height, s.children[c], height[c]);
    var all := Subtree(s, height, c);
    var below := Descendants(s, height, c);
    forall x | x in all && x !in [c]
      ensures exists p :: p in all && ParentOf(s, p, x)
    {
      if x in s.children[c] { assert c in all && ParentOf(s, c, x); }
      else { var p :| p in below && ParentOf(s, p, x); assert p in all; }
    }
    forall x, y | x in all && ParentOf(s, x, y)
      ensures y in all
    {
      if x == c { assert y in s.children[c]; assert y in below; }
    }
  }

  lemma {:induction false} EnclosedIsBeneath(s: Scene, height: map<Coll, nat>, list: seq<Coll>, c: Coll, x: Coll, bound: nat)
    requires Forest(s, height) && Enclosed(s, list, [c]) && x in list
    requires forall d | d in height :: height[d] <= bound
    ensures Beneath(s, c, x)
    decreases bound - height[x]
  {
    if x == c {
      assert IsChain(s, [c], c, c);
    } else {
      var p :| p in list && ParentOf(s, p, x);
      EnclosedIsBeneath(s, height, list, c, p, bound);
      BeneathChild(s, c, p, x);
    }
  }

  lemma {:induction false} ChainStaysEnclosed(s: Scene, list: seq<Coll>, top: seq<Coll>, chain: seq<Coll>, c: Coll, x: Coll)
    requires Enclosed(s, list, top) && IsChain(s, chain, c, x) && c in list
    ensures x in list
    decreases |chain|
  {
    if |chain| > 1 {
      assert ParentOf(s, chain[0], chain[1]);
      forall k | 0 <= k < |chain[1..]| - 1
        ensures ParentOf(s, chain[1..][k], chain[1..][k + 1])
      {
        assert ParentOf(s, chain[k + 1], chain[k + 2]);
      }
      ChainStaysEnclosed(s, list, top, chain[1..], chain[1], x);
    }
  }

  lemma HeightBound(height: map<Coll, nat>, keys: set<Coll>) returns (bound: nat)
    requires keys <= height.Keys
    ensures forall d | d in keys :: height[d] <= bound
    decreases keys
  {
    if keys == {} {
      bound := 0;
    } else {
      var d :| d in keys;
      bound := HeightBound(height, keys - {d});
      if bound < height[d] { bound := height[d]; }
    }
  }

  /** The recursive list holds exactly what hangs under `c`. */
  lemma SubtreeIsBeneath(s: Scene, height: map<Coll, nat>, c: Coll)
    requires Forest(s, height) && c in s.children && c != s.root
    ensures forall x :: x in Subtree(s, height, c) <==> Beneath(s, c, x)
  {
    SubtreeEnclosed(s, height, c);
    var all := Subtree(s, height, c);
    var bound := HeightBound(height, height.Keys);
    forall x ensures x in all <==> Beneath(s, c, x) {
      if x in all { EnclosedIsBeneath(s, height, all, c, x, bound); }
      if Beneath(s, c, x) {
        var chain :| IsChain(s, chain, c, x);
        ChainStaysEnclosed(s, all, [c], chain, c, x);
      }
    }
  }

  // ---------------------------------------------------------------------------
  // Deleting a collection
  // ---------------------------------------------------------------------------

  function Without(list: seq<Coll>, gone: set<Coll>): (r: seq<Coll>)
    ensures forall x :: x in r <==> x in list && x !in gone
  {
    if list == [] then [] else (if list[0] in gone then [] else [list[0]]) + Without(list[1..], gone)
  }

  lemma {:induction false} WithoutStaysNoRepeat(list: seq<Coll>, gone: set<Coll>)
    requires NoRepeat(list)
    ensures NoRepeat(Without(list, gone))
  {
    if list != [] { WithoutStaysNoRepeat(list[1..], gone); }
  }

  lemma {:induction false} WithoutTwice(list: seq<Coll>, gone: set<Coll>, more: set<Coll>)
    ensures Without(Without(list, gone), more) == Without(list, gone + more)
  {
    hide Without;
    if list == [] {
      WithoutNothing(gone);
      WithoutNothing(more);
      WithoutNothing(gone + more);
    } else {
      var first, others := list[0], list[1..];
      var rest := Without(others, gone);
      assert list == [first] + others;
      WithoutTwice(others, gone, more);
      WithoutFirst(first, others, gone);
      WithoutFirst(first, others, gone + more);
      if first in gone {
        assert [] + rest == rest && [] + Without(rest, more) == Without(rest, more);
      } else {
        WithoutFirst(first, rest, more);
      }
    }
  }

  lemma WithoutNothing(gone: set<Coll>)
    ensures Without([], gone) == []
  {
  }

  lemma WithoutFirst(first: Coll, others: seq<Coll>, gone: set<Coll>)
    ensures Without([first] + others, gone) == (if first in gone then [] else [first]) + Without(others, gone)
  {
    assert ([first] + others)[1..] == others;
  }

  /** The collection that contains this one, or the root when none does. */
  ghost function ParentOrRoot(s: Scene, c: Coll): Coll
  {
    if exists p: Coll :: ParentOf(s, p, c) then var p: Coll :| ParentOf(s, p, c); p else s.root
  }

  ghost function TargetSet(s: Scene, c: Coll, recursive: bool): set<Coll>
  {
    if recursive then set x | x in s.children && Beneath(s, c, x) else {c}
  }

  /** In some target, and in nothing but targets. */
  ghost predicate OnlyIn(s: Scene, targets: set<Coll>, o: Obj)
  {
    && (exists t :: t in targets && InCollection(s, t, o))
    && (forall c | InCollection(s, c, o) :: c in targets)
  }

  ghost function Orphans(s: Scene, targets: set<Coll>): set<Obj>
  {
    set o | o in s.objects && OnlyIn(s, targets, o)
  }

  ghost function Contents(s: Scene, targets: set<Coll>): set<Obj>
  {
    set o | o in s.objects && exists t :: t in targets && InCollection(s, t, o)
  }

  /** The child lists after a deletion; `lifted` are the children that move up to `parent`. */
  ghost function ListsLeft(children: map<Coll, seq<Coll>>, parent: Coll, lifted: seq<Coll>, targets: set<Coll>)
    : map<Coll, seq<Coll>>
  {
    map k | k in children && k !in targets :: Without(children[k] + if k == parent then lifted else [], targets)
  }

  ghost function MembersLeft(
    members: map<Coll, set<Obj>>, parent: Coll, targets: set<Coll>, taken: set<Obj>, given: set<Obj>): map<Coll, set<Obj>>
  {
    map k | k in members && k !in targets :: if k == parent then members[k] - taken + given else members[k] - taken
  }

  /** The scene after `collection.delete`. */
  ghost function Deleted(s: Scene, c: Coll, deleteObjects: bool, recursive: bool): Scene
    requires Valid(s) && c in s.children
  {
    var parent, targets := ParentOrRoot(s, c), TargetSet(s, c, recursive);
    var taken := if deleteObjects then Contents(s, targets) else {};
    var given := if deleteObjects then {} else Orphans(s, targets);
    Scene(
      s.root,
      ListsLeft(s.children, parent, if recursive then [] else s.children[c], targets),
      MembersLeft(s.members, parent, targets, taken, given),
      s.objects - taken)
  }

  lemma ParentIsNoTarget(s: Scene, height: map<Coll, nat>, c: Coll, recursive: bool)
    requires Forest(s, height) && c in s.children && c != s.root
    ensures ParentOrRoot(s, c) in s.children && ParentOrRoot(s, c) !in TargetSet(s, c, recursive)
    ensures forall p | ParentOf(s, p, c) :: p == ParentOrRoot(s, c)
  {
    var parent := ParentOrRoot(s, c);
    if recursive && parent in TargetSet(s, c, true) {
      SubtreeIsBeneath(s, height, c);
      SubtreeEnclosed(s, height, c);
      var chain :| IsChain(s, chain, c, parent);
      if exists p :: ParentOf(s, p, c) {
        HeightFallsAlong(s, height, chain, c, parent);
      }
    }
  }

  lemma {:induction false} HeightFallsAlong(s: Scene, height: map<Coll, nat>, chain: seq<Coll>, c: Coll, x: Coll)
    requires Forest(s, height) && IsChain(s, chain, c, x) && c in s.children
    ensures x in height && height[x] <= height[c]
    decreases |chain|
  {
    if |chain| > 1 {
      assert ParentOf(s, chain[0], chain[1]);
      forall k | 0 <= k < |chain[1..]| - 1
        ensures ParentOf(s, chain[1..][k], chain[1..][k + 1])
      {
        assert ParentOf(s, chain[k + 1], chain[k + 2]);
      }
      HeightFallsAlong(s, height, chain[1..], chain[1], x);
    }
  }

  /** Below the targets hang only targets; above them only the parent. */
  lemma TargetsHangTogether(s: Scene, height: map<Coll, nat>, c: Coll, recursive: bool)
    requires Forest(s, height) && c in s.children && c != s.root
    ensures var targets := TargetSet(s, c, recursive);
            && c in targets && s.root !in targets && targets <= s.children.Keys
            && (forall p, x | ParentOf(s, p, x) && x in targets && p !in targets :: x == c && p == ParentOrRoot(s, c))
            && (recursive ==> forall p, x | ParentOf(s, p, x) && p in targets :: x in targets)
  {
    ParentIsNoTarget(s, height, c, recursive);
    if recursive {
      SubtreeIsBeneath(s, height, c);
      SubtreeEnclosed(s, height, c);
      assert c in Subtree(s, height, c);
    }
  }

  ghost function Kept(height: map<Coll, nat>, gone: set<Coll>): map<Coll, nat>
  {
    map c | c in height && c !in gone :: height[c]
  }

  /** Who is whose parent afterwards: the deleted collection's children move up to its parent, nobody else moves. */
  lemma DeletedParents(s: Scene, height: map<Coll, nat>, c: Coll, deleteObjects: bool, recursive: bool, p: Coll, x: Coll)
    requires Forest(s, height) && c in s.children && c != s.root
    ensures ParentOf(Deleted(s, c, deleteObjects, recursive), p, x) <==>
              && p !in TargetSet(s, c, recursive) && x !in TargetSet(s, c, recursive)
              && (ParentOf(s, p, x) || (!recursive && p == ParentOrRoot(s, c) && ParentOf(s, c, x)))
  {
    ParentIsNoTarget(s, height, c, recursive);
  }

  lemma DeletedOneParent(s: Scene, height: map<Coll, nat>, c: Coll, deleteObjects: bool, recursive: bool)
    requires Forest(s, height) && c in s.children && c != s.root
    ensures OneParent(Deleted(s, c, deleteObjects, recursive))
  {
    var z := Deleted(s, c, deleteObjects, recursive);
    var parent, targets := ParentOrRoot(s, c), TargetSet(s, c, recursive);
    TargetsHangTogether(s, height, c, recursive);
    ParentIsNoTarget(s, height, c, recursive);
    forall p, q, x | ParentOf(z, p, x) && ParentOf(z, q, x)
      ensures p == q
    {
      DeletedParents(s, height, c, deleteObjects, recursive, p, x);
      DeletedParents(s, height, c, deleteObjects, recursive, q, x);
    }
    forall p | p in z.children
      ensures NoRepeat(z.children[p])
    {
      var list := s.children[p] + if p == parent && !recursive then s.children[c] else [];
      forall i, j | 0 <= i < j < |list|
        ensures list[i] != list[j]
      {
        if i < |s.children[p]| <= j {
          assert ParentOf(s, p, list[i]) && ParentOf(s, c, s.children[c][j - |s.children[p]|]);
        }
      }
      WithoutStaysNoRepeat(list, targets);
    }
  }

  lemma DeletedValid(s: Scene, height: map<Coll, nat>, c: Coll, deleteObjects: bool, recursive: bool)
    requires Forest(s, height) && c in s.children && c != s.root
    ensures Valid(Deleted(s, c, deleteObjects, recursive))
  {
    hide Deleted, TargetSet, Acyclic, OneParent;
    DeletedKeepsRoot(s, height, c, deleteObjects, recursive);
    var z := Deleted(s, c, deleteObjects, recursive);
    forall p | p in z.children
      ensures Listed(z, z.children[p])
    {
      forall k | 0 <= k < |z.children[p]|
        ensures z.children[p][k] in z.children && z.children[p][k] != s.root
      {
        DeletedListed(s, height, c, deleteObjects, recursive, p, k);
      }
    }
  }

  lemma DeletedKeepsRoot(s: Scene, height: map<Coll, nat>, c: Coll, deleteObjects: bool, recursive: bool)
    requires Forest(s, height) && c in s.children && c != s.root
    ensures var z := Deleted(s, c, deleteObjects, recursive);
            && z.root == s.root && z.root in z.children && z.members.Keys == z.children.Keys
            && (forall p | p in z.members :: z.members[p] <= z.objects)
  {
    hide Acyclic, OneParent, Listed;
    TargetsHangTogether(s, height, c, recursive);
    hide TargetSet;
  }

  lemma DeletedListed(s: Scene, height: map<Coll, nat>, c: Coll, deleteObjects: bool, recursive: bool, p: Coll, k: nat)
    requires Forest(s, height) && c in s.children && c != s.root
    requires var z := Deleted(s, c, deleteObjects, recursive); p in z.children && k < |z.children[p]|
    ensures var z := Deleted(s, c, deleteObjects, recursive);
            z.children[p][k] in z.children && z.children[p][k] != s.root
  {
    var z := Deleted(s, c, deleteObjects, recursive);
    DeletedParents(s, height, c, deleteObjects, recursive, p, z.children[p][k]);
    assert ParentOf(z, p, z.children[p][k]);
    hide TargetSet;
  }

  lemma DeletedAcyclic(s: Scene, height: map<Coll, nat>, c: Coll, deleteObjects: bool, recursive: bool)
    requires Forest(s, height) && c in s.children && c != s.root
    ensures Acyclic(Deleted(s, c, deleteObjects, recursive), Kept(height, TargetSet(s, c, recursive)))
  {
    var z := Deleted(s, c, deleteObjects, recursive);
    TargetsHangTogether(s, height, c, recursive);
    ParentIsNoTarget(s, height, c, recursive);
    forall p, x | ParentOf(z, p, x)
      ensures x in height && height[x] < height[p]
    {
      DeletedParents(s, height, c, deleteObjects, recursive, p, x);
      if !ParentOf(s, p, x) && ParentOf(s, p, c) { assert height[x] < height[c] < height[p]; }
    }
  }

  /** Deleting keeps a forest, and a tree a tree: what remains is still reached from the root. */
  lemma DeletedIsForest(s: Scene, height: map<Coll, nat>, c: Coll, deleteObjects: bool, recursive: bool)
    requires Forest(s, height) && c in s.children && c != s.root
    ensures Forest(Deleted(s, c, deleteObjects, recursive), Kept(height, TargetSet(s, c, recursive)))
    ensures Rooted(s) ==> Rooted(Deleted(s, c, deleteObjects, recursive))
  {
    DeletedValid(s, height, c, deleteObjects, recursive);
    DeletedOneParent(s, height, c, deleteObjects, recursive);
    DeletedAcyclic(s, height, c, deleteObjects, recursive);
    if Rooted(s) { DeletedIsRooted(s, height, c, deleteObjects, recursive); }
  }

  lemma DeletedIsRooted(s: Scene, height: map<Coll, nat>, c: Coll, deleteObjects: bool, recursive: bool)
    requires Forest(s, height) && Rooted(s) && c in s.children && c != s.root
    ensures Rooted(Deleted(s, c, deleteObjects, recursive))
  {
    var z := Deleted(s, c, deleteObjects, recursive);
    TargetsHangTogether(s, height, c, recursive);
    ParentIsNoTarget(s, height, c, recursive);
    forall x | x in z.children && x != z.root
      ensures exists p :: ParentOf(z, p, x)
    {
      var p :| ParentOf(s, p, x);
      var q := if p == c then ParentOrRoot(s, c) else p;
      DeletedParents(s, height, c, deleteObjects, recursive, q, x);
      assert ParentOf(z, q, x);
    }
  }

  /** Nothing but the deleted collection itself is lost without `recursive`: every other one is still reached from the root. */
  lemma DeleteKeepsOthersReachable(s: Scene, height: map<Coll, nat>, c: Coll, deleteObjects: bool, x: Coll)
    requires Forest(s, height) && Rooted(s) && c in s.children && c != s.root && x in s.children && x != c
    ensures x in Deleted(s, c, deleteObjects, false).children
    ensures Beneath(Deleted(s, c, deleteObjects, false), s.root, x)
  {
    DeletedIsForest(s, height, c, deleteObjects, false);
    var kept := Kept(height, TargetSet(s, c, false));
    var bound := HeightBound(kept, kept.Keys);
    RootedIsReachable(Deleted(s, c, deleteObjects, false), kept, x, bound);
  }

  /** Without `delete_objects` every object stays, and stays somewhere: it is in the parent afterwards exactly when it
      was there already or was in nothing but deleted collections. */
  lemma DeleteKeepsObjects(s: Scene, height: map<Coll, nat>, c: Coll, recursive: bool)
    requires Forest(s, height) && Housed(s) && c in s.children && c != s.root
    ensures var z := Deleted(s, c, false, recursive);
            && z.objects == s.objects && Housed(z)
            && (forall o | o in s.objects ::
                  InCollection(z, ParentOrRoot(s, c), o) <==>
                    InCollection(s, ParentOrRoot(s, c), o)
                    || (forall k | InCollection(s, k, o) :: k in TargetSet(s, c, recursive)))
            && (forall k, o | k in z.members && k != ParentOrRoot(s, c) :: InCollection(z, k, o) <==> InCollection(s, k, o))
  {
    var z := Deleted(s, c, false, recursive);
    ParentIsNoTarget(s, height, c, recursive);
    forall o | o in s.objects
      ensures exists k :: InCollection(z, k, o)
      ensures InCollection(z, ParentOrRoot(s, c), o) <==>
                InCollection(s, ParentOrRoot(s, c), o) || (forall k | InCollection(s, k, o) :: k in TargetSet(s, c, recursive))
    {
      DeletedHouses(s, height, c, recursive, o);
    }
    hide TargetSet, ParentOrRoot;
  }

  lemma DeletedHouses(s: Scene, height: map<Coll, nat>, c: Coll, recursive: bool, o: Obj)
    requires Forest(s, height) && Housed(s) && c in s.children && c != s.root && o in s.objects
    ensures var z := Deleted(s, c, false, recursive);
            && (exists k :: InCollection(z, k, o))
            && (InCollection(z, ParentOrRoot(s, c), o) <==>
                  InCollection(s, ParentOrRoot(s, c), o) || (forall k | InCollection(s, k, o) :: k in TargetSet(s, c, recursive)))
  {
    ParentIsNoTarget(s, height, c, recursive);
    hide TargetSet, ParentOrRoot, Acyclic, OneParent, Listed, ListsLeft;
    var z, parent, targets := Deleted(s, c, false, recursive), ParentOrRoot(s, c), TargetSet(s, c, recursive);
    var k :| InCollection(s, k, o);
    assert parent in z.members && z.members[parent] == s.members[parent] + Orphans(s, targets);
    assert OnlyIn(s, targets, o) <==> forall d | InCollection(s, d, o) :: d in targets;
    assert InCollection(z, parent, o) <==> InCollection(s, parent, o) || OnlyIn(s, targets, o);
    if !OnlyIn(s, targets, o) {
      var d :| InCollection(s, d, o) && d !in targets;
      assert InCollection(z, d, o);
    }
  }

  /** With `delete_objects` exactly the objects of the deleted collections go; the rest stay where they are. */
  lemma DeleteTakesContents(s: Scene, height: map<Coll, nat>, c: Coll, recursive: bool)
    requires Forest(s, height) && Housed(s) && c in s.children && c != s.root
    ensures var z := Deleted(s, c, true, recursive);
            && Housed(z)
            && (forall o :: o in z.objects <==>
                  o in s.objects && forall k | InCollection(s, k, o) :: k !in TargetSet(s, c, recursive))
            && (forall k, o | o in z.objects :: InCollection(z, k, o) <==> InCollection(s, k, o))
  {
    var z := Deleted(s, c, true, recursive);
    forall o | o in z.objects
      ensures exists k :: InCollection(z, k, o)
    {
      var k :| InCollection(s, k, o);
      assert InCollection(z, k, o);
    }
  }

  // ---------------------------------------------------------------------------
  // The other operations
  // ---------------------------------------------------------------------------

  function Users(s: Scene, o: Obj): set<Coll>
  {
    set c | c in s.members && o in s.members[c]
  }

  /** `_move_object`. */
  function Moved(s: Scene, o: Obj, c: Coll, exclusive: bool): Scene
    requires c in s.members
  {
    s.(members := map k | k in s.members ::
         if k == c then s.members[k] + {o} else if exclusive then s.members[k] - {o} else s.members[k])
  }

  function MovedAll(s: Scene, objs: seq<Obj>, c: Coll, exclusive: bool): (z: Scene)
    requires c in s.members
    ensures z.members.Keys == s.members.Keys
    decreases |objs|
  {
    if objs == [] then s else MovedAll(Moved(s, objs[0], c, exclusive), objs[1..], c, exclusive)
  }

  /** `collection.unlink_object`: stops at the first object this is the only collection of; what came before stays done. */
  function UnlinkedAll(s: Scene, objs: seq<Obj>, c: Coll): (Scene, bool)
    requires c in s.members
    decreases |objs|
  {
    if objs == [] then (s, true)
    else if objs[0] !in s.members[c] then UnlinkedAll(s, objs[1..], c)
    else if |Users(s, objs[0])| == 1 then (s, false)
    else UnlinkedAll(s.(members := s.members[c := s.members[c] - {objs[0]}]), objs[1..], c)
  }

  datatype Tag = NoTag | Named(name: string)

  const COLOR_TAGS: seq<string> :=
    ["NONE", "COLOR_01", "COLOR_02", "COLOR_03", "COLOR_04", "COLOR_05", "COLOR_06", "COLOR_07", "COLOR_08"]

  /** No colour tag was given, or one of those Blender knows. */
  predicate Accepted(tag: Tag)
  {
    tag.Named? ==> tag.name in COLOR_TAGS
  }

  /** `collection.create`. A colour tag that is refused leaves the new collection behind, linked to nothing. */
  function Created(s: Scene, fresh_: Coll, parent: Coll, tag: Tag, objs: seq<Obj>): (Scene, bool)
    requires parent in s.children && parent in s.members && fresh_ !in s.children
  {
    var made := s.(children := s.children[fresh_ := []], members := s.members[fresh_ := {}]);
    if !Accepted(tag) then (made, false)
    else
      (MovedAll(made.(children := made.children[parent := made.children[parent] + [fresh_]]), objs, fresh_, true), true)
  }

  lemma UnlinkKeepsHousing(s: Scene, c: Coll, o: Obj)
    requires Valid(s) && Housed(s) && InCollection(s, c, o) && |Users(s, o)| != 1
    ensures Housed(s.(members := s.members[c := s.members[c] - {o}]))
  {
    var z := s.(members := s.members[c := s.members[c] - {o}]);
    assert c in Users(s, o);
    assert |{c}| == 1 && Users(s, o) != {c};
    var d :| d in Users(s, o) && d != c;
    assert InCollection(z, d, o);
    forall q | q in z.objects && q != o
      ensures exists k :: InCollection(z, k, q)
    {
      var k :| InCollection(s, k, q);
      assert InCollection(z, k, q);
    }
  }

  /** The collection tree is untouched; only memberships change. */
  ghost predicate SameTree(s: Scene, z: Scene)
  {
    z.root == s.root && z.children == s.children && z.objects == s.objects && z.members.Keys == s.members.Keys
  }

  lemma {:induction false} UnlinkAllKeepsHousing(s: Scene, objs: seq<Obj>, c: Coll)
    requires Valid(s) && Housed(s) && c in s.members
    ensures var z := UnlinkedAll(s, objs, c).0; Valid(z) && Housed(z) && SameTree(s, z)
    decreases |objs|
  {
    if objs != [] {
      if objs[0] !in s.members[c] {
        UnlinkAllKeepsHousing(s, objs[1..], c);
      } else if |Users(s, objs[0])| != 1 {
        UnlinkKeepsHousing(s, c, objs[0]);
        UnlinkAllKeepsHousing(s.(members := s.members[c := s.members[c] - {objs[0]}]), objs[1..], c);
      }
    }
  }

  /** Unlinking succeeds exactly when it leaves no object without a collection; it takes out those objects from that
      collection and changes nothing else. */
  lemma {:induction false} UnlinkAllDoesJustThat(s: Scene, objs: seq<Obj>, c: Coll)
    requires Valid(s) && c in s.members
    ensures var (z, ok) := UnlinkedAll(s, objs, c);
            && (ok ==> z.members == s.members[c := s.members[c] - (set o | o in objs)])
            && (ok <==> forall o | o in objs && o in s.members[c] :: Users(s, o) != {c})
    decreases |objs|
  {
    if objs == [] {
      assert s.members[c] - (set o | o in objs) == s.members[c];
    } else {
      var o, rest := objs[0], objs[1..];
      assert (set x | x in objs) == {o} + set x | x in rest;
      if o !in s.members[c] {
        UnlinkAllDoesJustThat(s, rest, c);
        assert s.members[c] - (set x | x in objs) == s.members[c] - set x | x in rest;
        assert forall x :: x in objs && x in s.members[c] <==> x in rest && x in s.members[c];
      } else if |Users(s, o)| == 1 {
        assert c in Users(s, o);
        OnlyOne(Users(s, o), c);
      } else {
        assert |{c}| == 1 && Users(s, o) != {c};
        var t := s.(members := s.members[c := s.members[c] - {o}]);
        UnlinkAllDoesJustThat(t, rest, c);
        assert t.members[c] - (set x | x in rest) == s.members[c] - set x | x in objs;
        forall x | x != o ensures Users(t, x) == Users(s, x) {}
        assert forall x :: x in objs && x in s.members[c] && x != o <==> x in rest && x in t.members[c];
      }
    }
  }

  /** When it fails, the objects before the first refused one are out, and nothing else has changed. */
  lemma {:induction false} UnlinkStopsAtTheRefused(s: Scene, objs: seq<Obj>, c: Coll) returns (k: nat)
    requires Valid(s) && c in s.members && !UnlinkedAll(s, objs, c).1
    ensures k < |objs| && objs[k] in s.members[c] && Users(s, objs[k]) == {c} && objs[k] !in objs[..k]
    ensures UnlinkedAll(s, objs[..k], c).1 && UnlinkedAll(s, objs, c).0 == UnlinkedAll(s, objs[..k], c).0
    ensures forall i | 0 <= i < k :: !(objs[i] in s.members[c] && Users(s, objs[i]) == {c})
    decreases |objs|
  {
    var o, rest := objs[0], objs[1..];
    if o in s.members[c] && |Users(s, o)| == 1 {
      assert c in Users(s, o);
      OnlyOne(Users(s, o), c);
      k := 0;
    } else {
      var t := if o in s.members[c] then s.(members := s.members[c := s.members[c] - {o}]) else s;
      k := UnlinkStopsAtTheRefused(t, rest, c);
      k := k + 1;
      assert objs[..k][0] == o && objs[..k][1..] == rest[..k - 1];
      assert o in s.members[c] ==> |{c}| == 1 && Users(s, o) != {c};
      forall x | x != o ensures Users(t, x) == Users(s, x) {}
    }
  }

  lemma OnlyOne(u: set<Coll>, c: Coll)
    requires c in u && |u| == 1
    ensures u == {c}
  {
    assert |u - {c}| == 0;
  }

  lemma MoveKeepsHousing(s: Scene, o: Obj, c: Coll, exclusive: bool)
    requires Valid(s) && Housed(s) && c in s.members && o in s.objects
    ensures var z := Moved(s, o, c, exclusive);
            && Valid(z) && Housed(z) && SameTree(s, z)
            && (exclusive ==> Users(z, o) == {c}) && (!exclusive ==> Users(z, o) == Users(s, o) + {c})
            && (forall q | q != o :: Users(z, q) == Users(s, q))
  {
    MovedHoused(s, o, c, exclusive);
    hide Housed, InCollection, Listed;
  }

  lemma MovedHoused(s: Scene, o: Obj, c: Coll, exclusive: bool)
    requires Housed(s) && c in s.members
    ensures Housed(Moved(s, o, c, exclusive))
  {
    var z := Moved(s, o, c, exclusive);
    assert InCollection(z, c, o);
    forall q | q in z.objects && q != o
      ensures exists k :: InCollection(z, k, q)
    {
      var k :| InCollection(s, k, q);
      assert InCollection(z, k, q);
    }
  }

  /** Moving many gives each of them the memberships asked for, and touches no other object. */
  lemma {:induction false} MoveAllKeepsHousing(s: Scene, objs: seq<Obj>, c: Coll, exclusive: bool)
    requires Valid(s) && Housed(s) && c in s.members && forall o | o in objs :: o in s.objects
    ensures var z := MovedAll(s, objs, c, exclusive); Valid(z) && Housed(z) && SameTree(s, z)
    ensures forall o ::
              Users(MovedAll(s, objs, c, exclusive), o)
                == if o !in objs then Users(s, o) else if exclusive then {c} else Users(s, o) + {c}
    decreases |objs|
  {
    hide Users, Valid, Housed;
    if objs != [] {
      MoveKeepsHousing(s, objs[0], c, exclusive);
      MoveAllKeepsHousing(Moved(s, objs[0], c, exclusive), objs[1..], c, exclusive);
      assert forall o :: o in objs <==> o == objs[0] || o in objs[1..];
    }
  }

  ghost function Raised(s: Scene, height: map<Coll, nat>, fresh_: Coll): map<Coll, nat>
  {
    map c | c in height.Keys + {fresh_} :: if c == fresh_ then 0 else if c in height then height[c] + 1 else 0
  }

  lemma LinkedParents(s: Scene, made: Scene, fresh_: Coll, parent: Coll)
    requires Valid(s) && parent in s.children && fresh_ !in s.children
    requires made.children == s.children[fresh_ := []][parent := s.children[parent] + [fresh_]]
    ensures forall p, c :: ParentOf(made, p, c) <==> ParentOf(s, p, c) || (p == parent && c == fresh_)
    ensures forall p, c | ParentOf(s, p, c) :: c != fresh_
  {
    forall p, c | ParentOf(s, p, c) ensures c != fresh_ {
      var k :| 0 <= k < |s.children[p]| && s.children[p][k] == c;
    }
  }

  lemma CreateLinks(s: Scene, height: map<Coll, nat>, fresh_: Coll, parent: Coll)
    requires Forest(s, height) && Housed(s) && parent in s.children && fresh_ !in s.children
    ensures var made := s.(children := s.children[fresh_ := []][parent := s.children[parent] + [fresh_]],
                           members := s.members[fresh_ := {}]);
            && Forest(made, Raised(s, height, fresh_)) && Housed(made)
            && (forall p, c :: ParentOf(made, p, c) <==> ParentOf(s, p, c) || (p == parent && c == fresh_))
  {
    var made := s.(children := s.children[fresh_ := []][parent := s.children[parent] + [fresh_]],
                   members := s.members[fresh_ := {}]);
    hide ParentOf, NoRepeat, Acyclic, Housed, Raised, Listed, OneParent;
    LinkedParents(s, made, fresh_, parent);
    LinkedListed(s, made, fresh_, parent);
    LinkedOnce(s, made, fresh_, parent);
    NewMemberHoused(s, made, fresh_);
    LinkedAcyclic(s, made, height, fresh_, parent);
  }

  lemma LinkedAcyclic(s: Scene, made: Scene, height: map<Coll, nat>, fresh_: Coll, parent: Coll)
    requires Acyclic(s, height) && parent in s.children && fresh_ !in s.children && made.root == s.root && s.root in s.children
    requires made.children.Keys == s.children.Keys + {fresh_}
    requires forall p, c :: ParentOf(made, p, c) <==> ParentOf(s, p, c) || (p == parent && c == fresh_)
    ensures Acyclic(made, Raised(s, height, fresh_))
  {
    assert forall p, c | ParentOf(s, p, c) :: p in s.children;
    hide ParentOf;
  }

  lemma LinkedListed(s: Scene, made: Scene, fresh_: Coll, parent: Coll)
    requires Valid(s) && parent in s.children && fresh_ !in s.children
    requires made == s.(children := s.children[fresh_ := []][parent := s.children[parent] + [fresh_]],
                        members := s.members[fresh_ := {}])
    ensures Valid(made)
  {
  }

  lemma LinkedOnce(s: Scene, made: Scene, fresh_: Coll, parent: Coll)
    requires Valid(s) && OneParent(s) && parent in s.children && fresh_ !in s.children
    requires made.children == s.children[fresh_ := []][parent := s.children[parent] + [fresh_]]
    requires forall p, c :: ParentOf(made, p, c) <==> ParentOf(s, p, c) || (p == parent && c == fresh_)
    requires forall p, c | ParentOf(s, p, c) :: c != fresh_
    ensures OneParent(made)
  {
    forall p | p in made.children ensures NoRepeat(made.children[p]) {
      if p == parent { forall k | 0 <= k < |s.children[p]| ensures s.children[p][k] != fresh_ {} }
    }
    hide ParentOf;
  }

  lemma NewMemberHoused(s: Scene, made: Scene, fresh_: Coll)
    requires Housed(s) && fresh_ !in s.members && made.members == s.members[fresh_ := {}] && made.objects == s.objects
    ensures Housed(made)
  {
    forall o | o in made.objects ensures exists c :: InCollection(made, c, o) {
      var c :| InCollection(s, c, o);
      assert InCollection(made, c, o);
    }
  }

  lemma CreateUnlinked(s: Scene, height: map<Coll, nat>, fresh_: Coll)
    requires Forest(s, height) && Housed(s) && fresh_ !in s.children
    ensures var made := s.(children := s.children[fresh_ := []], members := s.members[fresh_ := {}]);
            && Forest(made, Raised(s, height, fresh_)) && Housed(made)
            && (forall p, c :: ParentOf(made, p, c) <==> ParentOf(s, p, c))
            && (forall p :: !ParentOf(made, p, fresh_))
  {
    hide ParentOf, NoRepeat, Acyclic, Housed, Raised, Listed, OneParent;
    var made := s.(children := s.children[fresh_ := []], members := s.members[fresh_ := {}]);
    UnlinkedParents(s, made, fresh_);
    UnlinkedValid(s, made, fresh_);
    NewMemberHoused(s, made, fresh_);
  }

  lemma UnlinkedParents(s: Scene, made: Scene, fresh_: Coll)
    requires Valid(s) && fresh_ !in s.children && made.children == s.children[fresh_ := []]
    ensures forall p, c :: ParentOf(made, p, c) <==> ParentOf(s, p, c)
    ensures forall p :: !ParentOf(made, p, fresh_)
  {
    forall p, c ensures ParentOf(made, p, c) <==> ParentOf(s, p, c) {}
    forall p, c | ParentOf(s, p, c) ensures c != fresh_ {
      var k :| 0 <= k < |s.children[p]| && s.children[p][k] == c;
    }
  }

  lemma UnlinkedValid(s: Scene, made: Scene, fresh_: Coll)
    requires Valid(s) && fresh_ !in s.children
    requires made == s.(children := s.children[fresh_ := []], members := s.members[fresh_ := {}])
    requires forall p, c :: ParentOf(made, p, c) <==> ParentOf(s, p, c)
    ensures Valid(made)
    ensures OneParent(s) ==> OneParent(made)
    ensures forall height | Acyclic(s, height) :: Acyclic(made, Raised(s, height, fresh_))
  {
    assert forall p, c | ParentOf(s, p, c) :: p in s.children;
    hide ParentOf;
  }

  /** Creating keeps a forest and every object housed; it keeps a tree exactly when the colour tag is accepted. */
  lemma CreateKeepsTreeExactlyWhenTagAccepted(
    s: Scene, height: map<Coll, nat>, fresh_: Coll, parent: Coll, tag: Tag, objs: seq<Obj>)
    requires Forest(s, height) && Housed(s) && Rooted(s) && parent in s.children && fresh_ !in s.children
    requires forall o | o in objs :: o in s.objects
    ensures var z := Created(s, fresh_, parent, tag, objs).0;
            Forest(z, Raised(s, height, fresh_)) && Housed(z) && (Rooted(z) <==> Accepted(tag))
  {
    if Accepted(tag) {
      CreatedTree(s, height, fresh_, parent, tag, objs);
    } else {
      CreatedLoose(s, height, fresh_, parent, tag, objs);
    }
  }

  /** A colour tag is accepted exactly when none is given, or `NONE`, or one of the eight numbered ones. */
  lemma TagIsAcceptedExactlyWhen(tag: Tag)
    ensures Accepted(tag) <==>
              tag.NoTag? || tag.name == "NONE" || exists d :: '1' <= d <= '8' && tag.name == "COLOR_0" + [d]
  {
    assert forall k | 1 <= k <= 8 :: COLOR_TAGS[k] == "COLOR_0" + [("012345678"[k])];
    if tag.Named? && Accepted(tag) && tag.name != "NONE" {
      var k :| 0 <= k < |COLOR_TAGS| && COLOR_TAGS[k] == tag.name;
      assert tag.name == "COLOR_0" + ["012345678"[k]];
    }
    if tag.Named? && exists d :: '1' <= d <= '8' && tag.name == "COLOR_0" + [d] {
      var d :| '1' <= d <= '8' && tag.name == "COLOR_0" + [d];
      var k := d as int - '0' as int;
      assert "012345678"[k] == d && COLOR_TAGS[k] == tag.name;
    }
  }

  /** Accepted, the new collection hangs last under its parent and has exactly the objects given, which leave all others;
      refused, it is there, empty and linked to nothing. Nothing else changes. */
  lemma CreateDoesJustThat(s: Scene, fresh_: Coll, parent: Coll, tag: Tag, objs: seq<Obj>)
    requires Valid(s) && Housed(s) && parent in s.children && fresh_ !in s.children && forall o | o in objs :: o in s.objects
    ensures var (z, ok) := Created(s, fresh_, parent, tag, objs);
            && ok == Accepted(tag) && z.root == s.root && z.objects == s.objects && z.children.Keys == s.children.Keys + {fresh_}
            && z.children[fresh_] == []
            && (forall p | p in s.children ::
                  z.children[p] == s.children[p] + if ok && p == parent then [fresh_] else [])
            && (forall o :: Users(z, o) == if ok && o in objs then {fresh_} else Users(s, o))
  {
    var loose := s.(children := s.children[fresh_ := []], members := s.members[fresh_ := {}]);
    assert forall o :: Users(loose, o) == Users(s, o);
    if Accepted(tag) {
      var made := loose.(children := loose.children[parent := loose.children[parent] + [fresh_]]);
      LinkedListed(s, made, fresh_, parent);
      NewMemberHoused(s, made, fresh_);
      assert forall o :: Users(made, o) == Users(s, o);
      MoveAllKeepsHousing(made, objs, fresh_, true);
    }
    hide Users, Valid, Housed, Accepted;
  }

  lemma CreatedLoose(s: Scene, height: map<Coll, nat>, fresh_: Coll, parent: Coll, tag: Tag, objs: seq<Obj>)
    requires !Accepted(tag) && Forest(s, height) && Housed(s) && parent in s.children && fresh_ !in s.children
    ensures var z := Created(s, fresh_, parent, tag, objs).0;
            Forest(z, Raised(s, height, fresh_)) && Housed(z) && !Rooted(z)
  {
    CreateUnlinked(s, height, fresh_);
    var z := s.(children := s.children[fresh_ := []], members := s.members[fresh_ := {}]);
    LooseIsNotRooted(z, fresh_);
  }

  lemma LooseIsNotRooted(z: Scene, c: Coll)
    requires c in z.children && c != z.root && forall p :: !ParentOf(z, p, c)
    ensures !Rooted(z)
  {
  }

  lemma CreatedTree(s: Scene, height: map<Coll, nat>, fresh_: Coll, parent: Coll, tag: Tag, objs: seq<Obj>)
    requires Forest(s, height) && Housed(s) && Rooted(s) && parent in s.children && fresh_ !in s.children
    requires Accepted(tag) && forall o | o in objs :: o in s.objects
    ensures var z := Created(s, fresh_, parent, tag, objs).0;
            Forest(z, Raised(s, height, fresh_)) && Housed(z) && Rooted(z)
  {
    CreateLinks(s, height, fresh_, parent);
    var made := s.(children := s.children[fresh_ := []][parent := s.children[parent] + [fresh_]],
                   members := s.members[fresh_ := {}]);
    TreeIsRooted(s, made, parent, fresh_);
    MoveAllKeepsHousing(made, objs, fresh_, true);
    assert Created(s, fresh_, parent, tag, objs).0 == MovedAll(made, objs, fresh_, true);
    SameTreeSameForest(made, MovedAll(made, objs, fresh_, true), Raised(s, height, fresh_));
  }

  lemma TreeIsRooted(s: Scene, made: Scene, parent: Coll, fresh_: Coll)
    requires Rooted(s) && made.root == s.root && made.children.Keys == s.children.Keys + {fresh_}
    requires forall p, c :: ParentOf(made, p, c) <==> ParentOf(s, p, c) || (p == parent && c == fresh_)
    ensures Rooted(made)
  {
    forall c | c in made.children && c != made.root ensures exists p :: ParentOf(made, p, c) {
      if c == fresh_ { assert ParentOf(made, parent, c); }
      else { var p :| ParentOf(s, p, c); assert ParentOf(made, p, c); }
    }
  }

  lemma SameTreeSameForest(s: Scene, z: Scene, height: map<Coll, nat>)
    requires Forest(s, height) && Rooted(s) && SameTree(s, z) && Valid(z)
    ensures Forest(z, height) && Rooted(z)
  {
    assert forall p, c :: ParentOf(z, p, c) <==> ParentOf(s, p, c);
    forall c | c in z.children && c != z.root ensures exists p :: ParentOf(z, p, c) {
      var p :| ParentOf(s, p, c);
      assert ParentOf(z, p, c);
    }
  }

  // ---------------------------------------------------------------------------
  // Any sequence of operations
  // ---------------------------------------------------------------------------

  datatype Operation =
    | Create(fresh_: Coll, parent: Coll, tag: Tag, objs: seq<Obj>)
    | Delete(c: Coll, deleteObjects: bool, recursive: bool)
    | Move(objs: seq<Obj>, c: Coll, exclusive: bool)
    | Unlink(objs: seq<Obj>, c: Coll)

  /** The references resolve; whether the operation then succeeds is its own affair. Linking is moving, not exclusively. */
  predicate Resolves(s: Scene, a: Operation)
  {
    match a
    case Create(n, p, _, objs) => n !in s.children && p in s.children && forall o | o in objs :: o in s.objects
    case Delete(c, _, _) => c in s.children
    case Move(objs, c, _) => c in s.children && forall o | o in objs :: o in s.objects
    case Unlink(_, c) => c in s.children
  }

  ghost function Apply(s: Scene, a: Operation): Scene
    requires Valid(s) && Resolves(s, a)
  {
    match a
    case Create(n, p, tag, objs) => Created(s, n, p, tag, objs).0
    case Delete(c, deleteObjects, recursive) => if c == s.root then s else Deleted(s, c, deleteObjects, recursive)
    case Move(objs, c, exclusive) => MovedAll(s, objs, c, exclusive)
    case Unlink(objs, c) => UnlinkedAll(s, objs, c).0
  }

  ghost predicate Tidy(s: Scene)
  {
    (exists height :: Forest(s, height)) && Rooted(s) && Housed(s)
  }

  ghost predicate Performed(s: Scene, ops: seq<Operation>, end: Scene)
    decreases |ops|
  {
    if ops == [] then end == s
    else Valid(s) && Resolves(s, ops[0]) && Performed(Apply(s, ops[0]), ops[1..], end)
  }

  predicate RefusedTag(a: Operation)
  {
    a.Create? && !Accepted(a.tag)
  }

  lemma StepKeepsTidy(s: Scene, a: Operation)
    requires Tidy(s) && Valid(s) && Resolves(s, a) && !RefusedTag(a)
    ensures Tidy(Apply(s, a))
  {
    var height :| Forest(s, height);
    var z := Apply(s, a);
    match a
    case Create(n, p, tag, objs) =>
      CreateKeepsTreeExactlyWhenTagAccepted(s, height, n, p, tag, objs);
      assert Forest(z, Raised(s, height, n));
    case Delete(c, deleteObjects, recursive) =>
      if c != s.root {
        DeletedIsForest(s, height, c, deleteObjects, recursive);
        assert Forest(z, Kept(height, TargetSet(s, c, recursive)));
        if deleteObjects { DeleteTakesContents(s, height, c, recursive); }
        else { DeleteKeepsObjects(s, height, c, recursive); }
      }
    case Move(objs, c, exclusive) =>
      MoveAllKeepsHousing(s, objs, c, exclusive);
      SameTreeSameForest(s, z, height);
    case Unlink(objs, c) =>
      UnlinkAllKeepsHousing(s, objs, c);
      SameTreeSameForest(s, z, height);
  }

  /** Whatever is done, in whatever order, short of a refused colour tag: every collection stays reachable from the root
      in one way only, and every object in at least one collection. */
  lemma {:induction false} SceneStaysTidy(s: Scene, ops: seq<Operation>, end: Scene)
    requires Tidy(s) && Performed(s, ops, end) && forall k | 0 <= k < |ops| :: !RefusedTag(ops[k])
    ensures Tidy(end)
    decreases |ops|
  {
    if ops != [] {
      StepKeepsTidy(s, ops[0]);
      SceneStaysTidy(Apply(s, ops[0]), ops[1..], end);
    }
  }
}
