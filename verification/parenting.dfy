/** Parent links of objects and bones, and the guards that keep them free of cycles. */
module Parenting {
  import opened Wrappers

  type Node = nat

  /** Who hangs on whom; a node without an entry hangs on nothing. */
  type Links = map<Node, Node>

  /** `rank` rises along every link downwards, so no walk upwards comes back. */
  ghost predicate Ranked(links: Links, rank: Node -> nat)
  {
    forall n | n in links :: rank(links[n]) < rank(n)
  }

  ghost predicate Acyclic(links: Links)
  {
    exists rank: Node -> nat :: Ranked(links, rank)
  }

  /** A walk upwards, from `n` to `top`, over at least one link. */
  ghost predicate IsWalk(links: Links, walk: seq<Node>, n: Node, top: Node)
  {
    && |walk| >= 2 && walk[0] == n && walk[|walk| - 1] == top
    && forall k | 0 <= k < |walk| - 1 :: walk[k] in links && links[walk[k]] == walk[k + 1]
  }

  ghost predicate Above(links: Links, top: Node, n: Node)
  {
    exists walk :: IsWalk(links, walk, n, top)
  }

  lemma AboveMeans(links: Links, top: Node, n: Node)
    ensures Above(links, top, n) <==> n in links && (links[n] == top || Above(links, top, links[n]))
  {
    if Above(links, top, n) {
      var walk :| IsWalk(links, walk, n, top);
      assert walk[0] in links && links[walk[0]] == walk[1];
      if |walk| > 2 {
        var rest := walk[1..];
        forall k | 0 <= k < |rest| - 1 ensures rest[k] in links && links[rest[k]] == rest[k + 1] {
          assert walk[k + 1] in links && links[walk[k + 1]] == walk[k + 2];
        }
        assert IsWalk(links, rest, links[n], top);
      }
    }
    if n in links && links[n] == top { assert IsWalk(links, [n, top], n, top); }
    if n in links && Above(links, top, links[n]) {
      var walk :| IsWalk(links, walk, links[n], top);
      var whole := [n] + walk;
      forall k | 0 <= k < |whole| - 1 ensures whole[k] in links && links[whole[k]] == whole[k + 1] {
        if k > 0 { assert whole[k] == walk[k - 1] && whole[k + 1] == walk[k]; }
      }
      assert IsWalk(links, whole, n, top);
    }
  }

  lemma {:induction false} WalkFalls(links: Links, rank: Node -> nat, walk: seq<Node>, n: Node, top: Node)
    requires Ranked(links, rank) && IsWalk(links, walk, n, top)
    ensures rank(top) < rank(n)
    decreases |walk|
  {
    assert walk[0] in links && links[walk[0]] == walk[1];
    if |walk| > 2 {
      var rest := walk[1..];
      forall k | 0 <= k < |rest| - 1 ensures rest[k] in links && links[rest[k]] == rest[k + 1] {
        assert walk[k + 1] in links && links[walk[k + 1]] == walk[k + 2];
      }
      WalkFalls(links, rank, rest, walk[1], top);
    }
  }

  /** The ranks once everything hanging on `child` moves below `parent`. */
  ghost function Moved(links: Links, rank: Node -> nat, child: Node, parent: Node): Node -> nat
  {
    n => if n == child || Above(links, child, n) then rank(n) + rank(parent) + 1 else rank(n)
  }

  /** A new link closes no cycle exactly when the parent is neither the child nor hangs on it. */
  lemma LinkIsSafeExactlyWhen(links: Links, child: Node, parent: Node)
    requires Acyclic(links)
    ensures Acyclic(links[child := parent]) <==> parent != child && !Above(links, child, parent)
  {
    var rank :| Ranked(links, rank);
    var now := links[child := parent];
    if parent != child && !Above(links, child, parent) {
      var moved := Moved(links, rank, child, parent);
      forall n | n in now ensures moved(now[n]) < moved(n) {
        if n != child { AboveMeans(links, child, n); }
      }
      assert Ranked(now, moved);
    }
    if Acyclic(now) {
      var next :| Ranked(now, next);
      assert next(now[child]) < next(child);
      if Above(links, child, parent) {
        var walk :| IsWalk(links, walk, parent, child);
        StillBelow(links, now, next, walk, child, parent);
      }
    }
  }

  /** A walk up to the child takes no link of the child's on the way, so it is a walk in the new links too. */
  lemma {:induction false} StillBelow(links: Links, now: Links, next: Node -> nat, walk: seq<Node>, child: Node, n: Node)
    requires IsWalk(links, walk, n, child) && child in now && now == links[child := now[child]] && Ranked(now, next)
    ensures n == child || next(child) < next(n)
    decreases |walk|
  {
    assert walk[0] in links && links[walk[0]] == walk[1];
    if n != child && |walk| > 2 {
      var rest := walk[1..];
      forall k | 0 <= k < |rest| - 1 ensures rest[k] in links && links[rest[k]] == rest[k + 1] {
        assert walk[k + 1] in links && links[walk[k + 1]] == walk[k + 2];
      }
      StillBelow(links, now, next, rest, child, walk[1]);
      assert n in now && now[n] == walk[1];
    } else if n != child {
      assert n in now && now[n] == child;
    }
  }

  lemma ClearIsSafe(links: Links, n: Node)
    requires Acyclic(links)
    ensures Acyclic(links - {n})
  {
    var rank :| Ranked(links, rank);
    assert Ranked(links - {n}, rank);
  }

  // ---------------------------------------------------------------------------
  // Objects
  // ---------------------------------------------------------------------------

  datatype ParentType = OBJECT | BONE | ARMATURE | VERTEX

  datatype Outcome = Done | OwnParent | WouldCycle | BoneRequired | BoneNotFound

  /** How an object hangs on its parent; the bone is the host's "" until one is set. */
  datatype Tie = Tie(kind: ParentType, bone: Option<string>)

  function SetOutcome(links: Links, bones: set<string>, child: Node, parent: Node, kind: ParentType, bone: Option<string>,
                      above: bool): Outcome
  {
    if child == parent then OwnParent
    else if above then WouldCycle
    else if kind == BONE && bone.None? then BoneRequired
    else if kind == BONE && bone.value !in bones then BoneNotFound
    else Done
  }

  class Outliner {
    var links: Links
    var ties: map<Node, Tie>
    /** Bones of the armature objects; other objects have none. */
    const bones: map<Node, set<string>>

    constructor (bones: map<Node, set<string>>)
      ensures links == map[] && ties == map[] && this.bones == bones && Acyclic(links)
    {
      links, ties, this.bones := map[], map[], bones;
      new;
      var zero: Node -> nat := n => 0;
      assert Ranked(links, zero);
    }

    /** `_is_ancestor`: walks up from the object's parent. The walk ends because the links have no cycle. */
    method IsAncestor(candidate: Node, obj: Node) returns (r: bool)
      requires Acyclic(links)
      ensures r <==> Above(links, candidate, obj)
    {
      ghost var rank: Node -> nat :| Ranked(links, rank);
      var current := if obj in links then Some(links[obj]) else None;
      AboveMeans(links, candidate, obj);
      while current.Some?
        invariant Above(links, candidate, obj) <==>
                    current.Some? && (current.value == candidate || Above(links, candidate, current.value))
        decreases if current.Some? then rank(current.value) + 1 else 0
      {
        if current.value == candidate {
          return true;
        }
        AboveMeans(links, candidate, current.value);
        current := if current.value in links then Some(links[current.value]) else None;
      }
      r := false;
    }

    function BonesOf(n: Node): set<string>
    {
      if n in bones then bones[n] else {}
    }

    /** `object.set_parent`. The link is made before the bone is looked at, and stays when the call then fails. */
    method SetParent(child: Node, parent: Node, kind: ParentType, bone: Option<string>) returns (r: Outcome)
      requires Acyclic(links)
      modifies this
      ensures r == SetOutcome(old(links), BonesOf(parent), child, parent, kind, bone, Above(old(links), child, parent))
      ensures r.OwnParent? <==> child == parent
      ensures r.WouldCycle? <==> child != parent && Above(old(links), child, parent)
      ensures r.BoneRequired? <==> child != parent && !Above(old(links), child, parent) && kind == BONE && bone.None?
      ensures r.BoneNotFound? <==>
                && child != parent && !Above(old(links), child, parent) && kind == BONE && bone.Some?
                && (parent !in bones || bone.value !in bones[parent])
      ensures Acyclic(links)
      ensures links == After(old(links), Set(child, parent, kind, bone, BonesOf(parent)))
      ensures links == if r.OwnParent? || r.WouldCycle? then old(links) else old(links)[child := parent]
      ensures ties == if r.OwnParent? || r.WouldCycle? then old(ties)
                      else old(ties)[child := Tie(kind, if r.Done? && kind == BONE then bone
                                                        else if child in old(ties) then old(ties)[child].bone else None)]
    {
      if child == parent {
        return OwnParent;
      }
      var cycle := IsAncestor(child, parent);
      if cycle {
        return WouldCycle;
      }
      LinkIsSafeExactlyWhen(links, child, parent);
      links := links[child := parent];
      ties := ties[child := Tie(kind, if child in ties then ties[child].bone else None)];
      if kind == BONE {
        if bone.None? {
          return BoneRequired;
        }
        if bone.value !in BonesOf(parent) {
          return BoneNotFound;
        }
        ties := ties[child := Tie(kind, bone)];
      }
      r := Done;
    }

    /** `object.clear_parent`. */
    method ClearParent(objects: seq<Node>)
      requires Acyclic(links)
      modifies this`links
      ensures Acyclic(links) && links == After(old(links), Clear(objects)) == old(links) - (set n | n in objects)
    {
      assert links == links - Listed(objects[..0]);
      for i := 0 to |objects|
        invariant Acyclic(links) && links == old(links) - Listed(objects[..i])
      {
        ClearIsSafe(links, objects[i]);
        assert Listed(objects[..i + 1]) == Listed(objects[..i]) + {objects[i]};
        links := links - {objects[i]};
      }
      assert objects[..|objects|] == objects;
    }
  }

  function Listed(objects: seq<Node>): set<Node>
  {
    set n | n in objects
  }

  // ---------------------------------------------------------------------------
  // Any run
  // ---------------------------------------------------------------------------

  datatype Act =
    | Set(child: Node, parent: Node, kind: ParentType, bone: Option<string>, bones: set<string>)
    | Clear(objects: seq<Node>)

  ghost function OutcomeOf(links: Links, a: Act): Outcome
  {
    match a
    case Set(child, parent, kind, bone, bones) =>
      SetOutcome(links, bones, child, parent, kind, bone, Above(links, child, parent))
    case Clear(_) => Done
  }

  ghost function After(links: Links, a: Act): Links
  {
    match a
    case Set(child, parent, _, _, _) =>
      var r := OutcomeOf(links, a);
      if r.OwnParent? || r.WouldCycle? then links else links[child := parent]
    case Clear(objects) => links - Listed(objects)
  }

  ghost function AfterAll(links: Links, acts: seq<Act>): Links
    decreases |acts|
  {
    if acts == [] then links else AfterAll(After(links, acts[0]), acts[1..])
  }

  /** A run goes on from where it stands, and each call in it does this: a link is made unless it would close a cycle, even when the
      call then fails for want of the bone. */
  lemma RunGoesOn(links: Links, acts: seq<Act>, a: Act)
    ensures AfterAll(links, []) == links
    ensures var now, next := AfterAll(links, acts), AfterAll(links, acts + [a]);
            && (a.Clear? ==> forall n :: (n in next <==> n in now && n !in a.objects) && (n in next ==> next[n] == now[n]))
            && (a.Set? && (a.child == a.parent || Above(now, a.child, a.parent)) ==> next == now)
            && (a.Set? && a.child != a.parent && !Above(now, a.child, a.parent) ==> next == now[a.child := a.parent])
  {
    assert AfterAll(links, []) == links;
    OneMoreAct(links, acts, a);
    hide AfterAll, Above, Acyclic;
    var now := AfterAll(links, acts);
    assert a.Clear? ==> After(now, a) == now - Listed(a.objects);
  }

  lemma {:induction false} OneMoreAct(links: Links, acts: seq<Act>, a: Act)
    ensures AfterAll(links, acts + [a]) == After(AfterAll(links, acts), a)
    decreases |acts|
  {
    hide After;
    if acts == [] {
      assert [] + [a] == [a] && [a][1..] == [];
    } else {
      OneMoreAct(After(links, acts[0]), acts[1..], a);
      assert (acts + [a])[1..] == acts[1..] + [a];
    }
  }

  /** Each way a call can end, exactly when it does. */
  lemma OutcomeExactlyWhen(links: Links, a: Act)
    requires a.Set?
    ensures var r := OutcomeOf(links, a);
            var safe := a.child != a.parent && !Above(links, a.child, a.parent);
            && (r.OwnParent? <==> a.child == a.parent)
            && (r.WouldCycle? <==> a.child != a.parent && Above(links, a.child, a.parent))
            && (r.BoneRequired? <==> safe && a.kind == BONE && a.bone.None?)
            && (r.BoneNotFound? <==> safe && a.kind == BONE && a.bone.Some? && a.bone.value !in a.bones)
            && (r.Done? <==> safe && (a.kind == BONE ==> a.bone.Some? && a.bone.value in a.bones))
  {
  }

  /** No sequence of set-parent and clear-parent calls, failing ones included, ever closes a cycle. */
  lemma {:induction false} LinksStayAcyclic(links: Links, acts: seq<Act>)
    requires Acyclic(links)
    ensures Acyclic(AfterAll(links, acts))
    decreases |acts|
  {
    if acts != [] {
      match acts[0] {
        case Set(child, parent, _, _, _) => LinkIsSafeExactlyWhen(links, child, parent);
        case Clear(objects) =>
          var rank :| Ranked(links, rank);
          assert Ranked(links - Listed(objects), rank);
      }
      LinksStayAcyclic(After(links, acts[0]), acts[1..]);
    }
  }

  /** A failing call leaves the links alone exactly when the guards caught it, or it asked for the link there was. */
  lemma FailureLeavesLinksExactlyWhen(links: Links, a: Act)
    requires a.Set? && OutcomeOf(links, a) != Done
    ensures After(links, a) == links <==>
              || a.child == a.parent || Above(links, a.child, a.parent)
              || (a.child in links && links[a.child] == a.parent)
  {
    assert a.child in links[a.child := a.parent];
  }

  // ---------------------------------------------------------------------------
  // Bones
  // ---------------------------------------------------------------------------

  datatype BoneOutcome = Parented | Unparented | OwnBone | BoneCycle

  class Armature {
    var links: Links
    var connected: set<Node>

    constructor ()
      ensures links == map[] && connected == {} && Acyclic(links)
    {
      links, connected := map[], {};
      new;
      var zero: Node -> nat := n => 0;
      assert Ranked(links, zero);
    }

    /** `_would_cycle`: walks up from the candidate itself. */
    method WouldCloseCycle(candidate: Node, child: Node) returns (r: bool)
      requires Acyclic(links)
      ensures r <==> !Acyclic(links[child := candidate])
    {
      ghost var rank: Node -> nat :| Ranked(links, rank);
      LinkIsSafeExactlyWhen(links, child, candidate);
      var current := Some(candidate);
      while current.Some?
        invariant !Acyclic(links[child := candidate]) <==>
                    current.Some? && (current.value == child || Above(links, child, current.value))
        decreases if current.Some? then rank(current.value) + 1 else 0
      {
        if current.value == child {
          return true;
        }
        AboveMeans(links, child, current.value);
        current := if current.value in links then Some(links[current.value]) else None;
      }
      r := false;
    }

    /** `rig.bone.parent`: refused exactly when the link would close a cycle, and then nothing changes. */
    method ParentBone(child: Node, parent: Option<Node>, connect: bool) returns (r: BoneOutcome)
      requires Acyclic(links)
      modifies this
      ensures Acyclic(links)
      ensures parent.None? ==> r == Unparented && links == old(links) - {child} && connected == old(connected) - {child}
      ensures parent.Some? ==> (r == Parented <==> Acyclic(old(links)[child := parent.value]))
      ensures parent.Some? ==> (r == OwnBone <==> parent.value == child)
      ensures parent.Some? && r == Parented ==>
                && links == old(links)[child := parent.value]
                && connected == if connect then old(connected) + {child} else old(connected) - {child}
      ensures parent.Some? && r != Parented ==> r != Unparented && links == old(links) && connected == old(connected)
    {
      if parent.None? {
        ClearIsSafe(links, child);
        links, connected := links - {child}, connected - {child};
        return Unparented;
      }
      if parent.value == child {
        LinkIsSafeExactlyWhen(links, child, child);
        return OwnBone;
      }
      var cycle := WouldCloseCycle(parent.value, child);
      if cycle {
        return BoneCycle;
      }
      links := links[child := parent.value];
      connected := if connect then connected + {child} else connected - {child};
      r := Parented;
    }
  }
}
