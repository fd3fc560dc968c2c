/** Clearing out empty collections: repeat until nothing is empty, since emptying a child can empty its parent. */
module EmptyCollections {
  import opened Wrappers

  type Coll = nat
  type Obj = nat

  /** A collection may hang under several others. */
  datatype Node = Node(objects: set<Obj>, children: set<Coll>)

  type Hierarchy = map<Coll, Node>

  ghost predicate Closed(h: Hierarchy)
  {
    forall c | c in h :: h[c].children <= h.Keys
  }

  ghost predicate Acyclic(h: Hierarchy, height: map<Coll, nat>)
  {
    && height.Keys == h.Keys
    && forall c, d | c in h && d in h[c].children && d in h :: height[d] < height[c]
  }

  ghost predicate IsPath(h: Hierarchy, path: seq<Coll>, top: Coll, c: Coll)
  {
    && |path| > 0 && path[0] == top && path[|path| - 1] == c
    && (forall k | 0 <= k < |path| :: path[k] in h)
    && (forall k | 0 <= k < |path| - 1 :: path[k + 1] in h[path[k]].children)
  }

  /** No object in the collection or anywhere under it. */
  ghost predicate Barren(h: Hierarchy, c: Coll)
  {
    c in h && forall path, x | IsPath(h, path, c, x) :: h[x].objects == {}
  }

  /** What a single pass sees as empty. */
  predicate Bare(h: Hierarchy, c: Coll)
  {
    c in h && h[c].objects == {} && h[c].children == {}
  }

  lemma BarrenMeans(h: Hierarchy, c: Coll)
    requires Closed(h) && c in h
    ensures Barren(h, c) <==> h[c].objects == {} && forall d | d in h[c].children :: Barren(h, d)
  {
    if Barren(h, c) {
      assert IsPath(h, [c], c, c);
      forall d | d in h[c].children ensures Barren(h, d) {
        forall path, x | IsPath(h, path, d, x) ensures h[x].objects == {} {
          assert IsPath(h, [c] + path, c, x);
        }
      }
    }
    if h[c].objects == {} && forall d | d in h[c].children :: Barren(h, d) {
      forall path, x | IsPath(h, path, c, x) ensures h[x].objects == {} {
        if |path| > 1 {
          assert path[1] in h[path[0]].children;
          var rest := path[1..];
          forall k | 0 <= k < |rest| - 1 ensures rest[k + 1] in h[rest[k]].children {
            assert rest[k] == path[k + 1] && path[k + 2] in h[path[k + 1]].children;
          }
          assert IsPath(h, rest, path[1], x);
        }
      }
    }
  }

  /** The hierarchy with some collections removed, and every link to them. */
  function Cut(h: Hierarchy, gone: set<Coll>): Hierarchy
  {
    map c | c in h && c !in gone :: h[c].(children := h[c].children - gone)
  }

  lemma CutTwice(h: Hierarchy, gone: set<Coll>, more: set<Coll>)
    ensures Cut(Cut(h, gone), more) == Cut(h, gone + more)
  {
    var twice, once := Cut(Cut(h, gone), more), Cut(h, gone + more);
    forall c | c in once ensures twice[c] == once[c] {
      assert h[c].children - gone - more == h[c].children - (gone + more);
    }
  }

  lemma CutNothing(h: Hierarchy)
    ensures Cut(h, {}) == h
  {
    forall c | c in h ensures Cut(h, {})[c] == h[c] { assert h[c].children - {} == h[c].children; }
  }

  function AsSet(s: seq<Coll>): (r: set<Coll>)
    ensures forall c :: c in r <==> c in s
  {
    set c | c in s
  }

  /** Each collection comes after everything that hung under it. */
  ghost predicate BottomUp(h: Hierarchy, s: seq<Coll>)
  {
    forall i | 0 <= i < |s| :: s[i] in h && h[s[i]].children <= AsSet(s[..i])
  }

  function BareAmong(h: Hierarchy, order: seq<Coll>): (r: seq<Coll>)
    ensures forall c :: c in r <==> c in order && Bare(h, c)
  {
    if order == [] then [] else (if Bare(h, order[0]) then [order[0]] else []) + BareAmong(h, order[1..])
  }

  function Kept(order: seq<Coll>, gone: set<Coll>): (r: seq<Coll>)
    ensures forall c :: c in r <==> c in order && c !in gone
  {
    if order == [] then [] else (if order[0] in gone then [] else [order[0]]) + Kept(order[1..], gone)
  }

  lemma {:induction false} BareNoRepeat(h: Hierarchy, order: seq<Coll>)
    requires NoRepeat(order)
    ensures NoRepeat(BareAmong(h, order))
  {
    if order != [] { BareNoRepeat(h, order[1..]); }
  }

  lemma {:induction false} KeptNoRepeat(order: seq<Coll>, gone: set<Coll>)
    requires NoRepeat(order)
    ensures NoRepeat(Kept(order, gone))
  {
    if order != [] { KeptNoRepeat(order[1..], gone); }
  }

  lemma {:induction false} KeptTwice(order: seq<Coll>, gone: set<Coll>, more: set<Coll>)
    ensures Kept(Kept(order, gone), more) == Kept(order, gone + more)
  {
    hide Kept;
    if order == [] {
      KeptNothing(gone);
      KeptNothing(more);
      KeptNothing(gone + more);
    } else {
      var first, others := order[0], order[1..];
      var rest := Kept(others, gone);
      assert order == [first] + others;
      KeptTwice(others, gone, more);
      KeptFirst(first, others, gone);
      KeptFirst(first, others, gone + more);
      if first in gone {
        assert [] + rest == rest && [] + Kept(rest, more) == Kept(rest, more);
      } else {
        KeptFirst(first, rest, more);
      }
    }
  }

  lemma KeptNothing(gone: set<Coll>)
    ensures Kept([], gone) == []
  {
  }

  lemma KeptFirst(first: Coll, others: seq<Coll>, gone: set<Coll>)
    ensures Kept([first] + others, gone) == (if first in gone then [] else [first]) + Kept(others, gone)
  {
    assert ([first] + others)[1..] == others;
  }

  lemma {:induction false} KeptAll(order: seq<Coll>)
    ensures Kept(order, {}) == order
  {
    if order != [] { KeptAll(order[1..]); }
  }

  /** Nothing bare is left only when nothing barren is. */
  lemma {:induction false} NoneLeft(h: Hierarchy, height: map<Coll, nat>, gone: set<Coll>, c: Coll)
    requires Closed(h) && Acyclic(h, height) && Barren(h, c)
    requires forall d :: !Bare(Cut(h, gone), d)
    ensures c in gone
    decreases height[c]
  {
    BarrenMeans(h, c);
    if c !in gone {
      var left := Cut(h, gone);
      assert c in left && !Bare(left, c);
      var d :| d in h[c].children && d !in gone;
      NoneLeft(h, height, gone, d);
    }
  }

  /** What is bare once some barren collections are gone is barren itself. */
  lemma BareIsBarren(h: Hierarchy, gone: set<Coll>, c: Coll)
    requires Closed(h) && Bare(Cut(h, gone), c) && forall d | d in gone :: Barren(h, d)
    ensures Barren(h, c) && c !in gone && h[c].children <= gone
  {
    assert forall d | d in h[c].children :: d in gone || d in Cut(h, gone)[c].children;
    BarrenMeans(h, c);
  }

  class CollectionList {
    var nodes: Hierarchy
    var order: seq<Coll>

    constructor (nodes: Hierarchy, order: seq<Coll>)
      ensures this.nodes == nodes && this.order == order
    {
      this.nodes, this.order := nodes, order;
    }

    ghost predicate Valid()
      reads this
    {
      Closed(nodes) && NoRepeat(order) && AsSet(order) == nodes.Keys
    }

    /** Removes exactly the collections with no object anywhere under them, each once, those below first. A dry run
        reports what the first pass would remove and changes nothing. */
    method RemoveEmpty(dryRun: bool, ghost height: map<Coll, nat>) returns (removed: seq<Coll>)
      requires Valid() && Acyclic(nodes, height)
      modifies this
      ensures dryRun ==> nodes == old(nodes) && order == old(order) && removed == BareAmong(nodes, order)
      ensures !dryRun ==> forall c :: c in removed <==> Barren(old(nodes), c)
      ensures !dryRun ==> nodes == Cut(old(nodes), AsSet(removed)) && order == Kept(old(order), AsSet(removed))
      ensures Valid() && NoRepeat(removed) && BottomUp(old(nodes), removed)
    {
      removed := [];
      ghost var all, listed := nodes, order;
      CutNothing(all);
      KeptAll(listed);
      assert AsSet(removed) == {} && NoRepeat(removed) && BottomUp(all, removed);
      hide Cut, Kept, BareAmong, Bare, Barren, NoRepeat, BottomUp;
      while true
        invariant nodes == Cut(all, AsSet(removed)) && order == Kept(listed, AsSet(removed))
        invariant forall c | c in removed :: Barren(all, c)
        invariant NoRepeat(removed) && BottomUp(all, removed)
        invariant dryRun ==> removed == []
        decreases nodes.Keys
      {
        ghost var before := removed;
        KeptNoRepeat(listed, AsSet(before));
        BareNoRepeat(nodes, order);
        var candidates := BareAmong(nodes, order);
        if candidates == [] {
          break;
        }
        if dryRun {
          removed := candidates;
          BareInOrder(all, listed);
          return;
        }
        removed := RemoveLayer(candidates, removed, all, listed);
        assert candidates[0] in removed && candidates[0] in candidates;
      }
      if !dryRun {
        Emptied(all, listed, height, removed);
      }
      ValidAfter(all, listed, AsSet(removed));
    }

    /** One pass over the candidates it was given. */
    method RemoveLayer(candidates: seq<Coll>, found: seq<Coll>, ghost all: Hierarchy, ghost listed: seq<Coll>)
      returns (removed: seq<Coll>)
      requires Closed(all) && nodes == Cut(all, AsSet(found)) && order == Kept(listed, AsSet(found))
      requires NoRepeat(candidates) && forall c | c in candidates :: Bare(nodes, c)
      requires NoRepeat(found) && BottomUp(all, found) && forall c | c in found :: Barren(all, c)
      modifies this
      ensures removed == found + candidates
      ensures nodes == Cut(all, AsSet(removed)) && order == Kept(listed, AsSet(removed))
      ensures NoRepeat(removed) && BottomUp(all, removed) && forall c | c in removed :: Barren(all, c)
    {
      removed := found;
      forall c | c in candidates ensures Barren(all, c) && c !in found && all[c].children <= AsSet(found) {
        BareIsBarren(all, AsSet(found), c);
      }
      for i := 0 to |candidates|
        invariant removed == found + candidates[..i]
        invariant nodes == Cut(all, AsSet(removed)) && order == Kept(listed, AsSet(removed))
      {
        var c := candidates[i];
        CutTwice(all, AsSet(removed), {c});
        KeptTwice(listed, AsSet(removed), {c});
        assert AsSet(removed + [c]) == AsSet(removed) + {c};
        removed := removed + [c];
        nodes := Cut(nodes, {c});
        order := Kept(order, {c});
      }
      LayerInOrder(all, found, candidates);
    }
  }

  lemma BareInOrder(all: Hierarchy, listed: seq<Coll>)
    ensures BottomUp(all, BareAmong(all, listed))
  {
    var r := BareAmong(all, listed);
    forall i | 0 <= i < |r| ensures r[i] in all && all[r[i]].children <= AsSet(r[..i]) { assert r[i] in r; }
  }

  lemma LayerInOrder(all: Hierarchy, found: seq<Coll>, candidates: seq<Coll>)
    requires NoRepeat(found) && BottomUp(all, found) && NoRepeat(candidates)
    requires forall c | c in candidates :: c in all && c !in found && all[c].children <= AsSet(found)
    ensures NoRepeat(found + candidates) && BottomUp(all, found + candidates)
  {
    var s := found + candidates;
    forall i | 0 <= i < |s| ensures s[i] in all && all[s[i]].children <= AsSet(s[..i]) {
      if i < |found| {
        assert s[..i] == found[..i];
      } else {
        assert s[i] in candidates && s[..i] == found + candidates[..i - |found|];
      }
    }
  }

  lemma Emptied(all: Hierarchy, listed: seq<Coll>, height: map<Coll, nat>, removed: seq<Coll>)
    requires Closed(all) && Acyclic(all, height) && AsSet(listed) == all.Keys
    requires BareAmong(Cut(all, AsSet(removed)), Kept(listed, AsSet(removed))) == []
    requires forall c | c in removed :: Barren(all, c)
    ensures forall c :: c in removed <==> Barren(all, c)
  {
    var left, order := Cut(all, AsSet(removed)), Kept(listed, AsSet(removed));
    forall d ensures !Bare(left, d) {
      assert d in left ==> d in AsSet(listed) && d in order;
      assert d !in BareAmong(left, order);
    }
    forall c | Barren(all, c) ensures c in removed { NoneLeft(all, height, AsSet(removed), c); }
  }

  lemma ValidAfter(all: Hierarchy, listed: seq<Coll>, gone: set<Coll>)
    requires Closed(all) && NoRepeat(listed) && AsSet(listed) == all.Keys
    ensures Closed(Cut(all, gone)) && NoRepeat(Kept(listed, gone)) && AsSet(Kept(listed, gone)) == Cut(all, gone).Keys
  {
    KeptNoRepeat(listed, gone);
    forall c ensures c in AsSet(Kept(listed, gone)) <==> c in Cut(all, gone) {
      assert c in AsSet(listed) <==> c in all;
    }
  }

  /** A collection with no object of its own, and with children that are all bare: the second pass would take it. */
  ghost predicate HidesBehindBare(h: Hierarchy, c: Coll)
  {
    c in h && h[c].objects == {} && h[c].children != {} && forall d | d in h[c].children :: Bare(h, d)
  }

  /** The dry run reports what the real run removes exactly when no collection is empty but for bare children. */
  lemma DryRunIsCompleteExactlyWhenFlat(h: Hierarchy, order: seq<Coll>, height: map<Coll, nat>)
    requires Closed(h) && Acyclic(h, height) && AsSet(order) == h.Keys
    ensures (forall c :: c in BareAmong(h, order) <==> Barren(h, c)) <==> (forall c :: !HidesBehindBare(h, c))
  {
    forall c ensures c in BareAmong(h, order) <==> Bare(h, c) { assert c in AsSet(order) <==> c in h; }
    forall c | Bare(h, c) ensures Barren(h, c) { BarrenMeans(h, c); }
    forall c | HidesBehindBare(h, c) ensures Barren(h, c) && !Bare(h, c) { BarrenMeans(h, c); }
    if forall c :: !HidesBehindBare(h, c) {
      forall c | Barren(h, c) ensures Bare(h, c) { FlatBarrenIsBare(h, height, c); }
    }
  }

  lemma {:induction false} FlatBarrenIsBare(h: Hierarchy, height: map<Coll, nat>, c: Coll)
    requires Closed(h) && Acyclic(h, height) && Barren(h, c) && forall d :: !HidesBehindBare(h, d)
    ensures Bare(h, c)
    decreases height[c]
  {
    BarrenMeans(h, c);
    forall d | d in h[c].children ensures Bare(h, d) { FlatBarrenIsBare(h, height, d); }
    assert !HidesBehindBare(h, c);
  }
}
