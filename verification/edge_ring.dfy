/** The edge-ring walk behind a loop cut. */
module EdgeRing {
  import opened Wrappers

  /** `faces[f]` lists the edges of face `f` in order; `links[e]` lists the faces on edge `e`. */
  datatype Mesh = Mesh(faces: seq<seq<nat>>, links: seq<seq<nat>>)

  /** What a mesh data structure keeps: indices in range, the edges of a face and the faces of an edge
      listed once each, and the two tables inverse to each other. */
  ghost predicate Valid(m: Mesh)
  {
    && (forall f, k | 0 <= f < |m.faces| && 0 <= k < |m.faces[f]| :: m.faces[f][k] < |m.links|)
    && (forall e, k | 0 <= e < |m.links| && 0 <= k < |m.links[e]| :: m.links[e][k] < |m.faces|)
    && (forall f | 0 <= f < |m.faces| :: NoRepeat(m.faces[f]))
    && (forall e | 0 <= e < |m.links| :: NoRepeat(m.links[e]))
    && (forall f, e | 0 <= f < |m.faces| && 0 <= e < |m.links| :: e in m.faces[f] <==> f in m.links[e])
  }

  ghost predicate Manifold(m: Mesh)
  {
    forall e | 0 <= e < |m.links| :: |m.links[e]| <= 2
  }

  predicate IsQuad(m: Mesh, f: nat)
  {
    f < |m.faces| && |m.faces[f]| == 4
  }

  function IndexOf(s: seq<nat>, x: nat): (i: nat)
    requires x in s
    ensures i < |s| && s[i] == x
  {
    if s[0] == x then 0 else 1 + IndexOf(s[1..], x)
  }

  /** The edge on the far side of a quad. */
  function OppositeEdge(m: Mesh, f: nat, e: nat): (o: nat)
    requires IsQuad(m, f) && e in m.faces[f]
    ensures o in m.faces[f]
  {
    m.faces[f][(IndexOf(m.faces[f], e) + 2) % 4]
  }

  lemma IndexUnique(s: seq<nat>, k: nat)
    requires NoRepeat(s) && k < |s|
    ensures IndexOf(s, s[k]) == k
  {
  }

  /** Crossing a quad twice comes back. */
  lemma OppositeInvolution(m: Mesh, f: nat, e: nat)
    requires Valid(m) && IsQuad(m, f) && e in m.faces[f]
    ensures OppositeEdge(m, f, e) != e
    ensures OppositeEdge(m, f, OppositeEdge(m, f, e)) == e
  {
    var i := IndexOf(m.faces[f], e);
    IndexUnique(m.faces[f], (i + 2) % 4);
  }

  /** `b` lies across some quad from `a`. */
  ghost predicate Across(m: Mesh, a: nat, b: nat)
  {
    exists f :: AcrossVia(m, f, a, b)
  }

  ghost predicate AcrossVia(m: Mesh, f: nat, a: nat, b: nat)
  {
    IsQuad(m, f) && a in m.faces[f] && b == OppositeEdge(m, f, a)
  }

  ghost predicate IsWalk(m: Mesh, path: seq<nat>, a: nat, b: nat)
  {
    && |path| > 0 && path[0] == a && path[|path| - 1] == b
    && forall k | 0 <= k < |path| - 1 :: Across(m, path[k], path[k + 1])
  }

  /** Reachable by crossing any number of quads. */
  ghost predicate Parallel(m: Mesh, a: nat, b: nat)
  {
    exists path :: IsWalk(m, path, a, b)
  }

  lemma ParallelExtend(m: Mesh, a: nat, b: nat, c: nat)
    requires Parallel(m, a, b) && Across(m, b, c)
    ensures Parallel(m, a, c)
  {
    var p :| IsWalk(m, p, a, b);
    assert IsWalk(m, p + [c], a, c);
  }

  /** Every added edge lies across a quad from an edge already there: the one before it, or the start. */
  ghost predicate Chained(m: Mesh, ring: seq<nat>)
  {
    forall k | 0 < k < |ring| :: Across(m, ring[k - 1], ring[k]) || Across(m, ring[0], ring[k])
  }

  /** Edge `e` owes the ring nothing across face `f`. */
  ghost predicate Settled(m: Mesh, ring: seq<nat>, e: nat, f: nat)
  {
    IsQuad(m, f) && e in m.faces[f] ==> OppositeEdge(m, f, e) in ring
  }

  ghost predicate Closed(m: Mesh, ring: seq<nat>)
  {
    forall e, f: nat | e in ring :: Settled(m, ring, e, f)
  }

  ghost predicate InRange(m: Mesh, ring: seq<nat>)
  {
    forall k | 0 <= k < |ring| :: ring[k] < |m.links|
  }

  ghost function Below(n: nat): (s: set<nat>)
    ensures forall x: nat :: x in s <==> x < n
  {
    if n == 0 then {} else Below(n - 1) + {n - 1}
  }

  /** The faces on an edge other than the one just crossed. */
  function Others(faces: seq<nat>, current: nat): (r: seq<nat>)
    ensures forall g :: g in r <==> g in faces && g != current
  {
    if faces == [] then []
    else (if faces[0] != current then [faces[0]] else []) + Others(faces[1..], current)
  }

  /** Reaching `e` through `crossed`, the walk does not look at `f`: it goes on through the first of the other faces. */
  predicate PassedOver(m: Mesh, e: nat, crossed: nat, f: nat)
  {
    e < |m.links| && f in Others(m.links[e], crossed) && f != Others(m.links[e], crossed)[0]
  }

  /** Face `f` was passed over at the ring edge `e`; `via[k - 1]` is the face crossed to reach `ring[k]`. */
  ghost predicate PassedBy(m: Mesh, ring: seq<nat>, via: seq<nat>, e: nat, f: nat)
    requires |via| + 1 == |ring|
  {
    exists k :: 0 < k < |ring| && ring[k] == e && PassedOver(m, e, via[k - 1], f)
  }

  ghost predicate CrossedInto(m: Mesh, ring: seq<nat>, via: seq<nat>)
  {
    && |via| + 1 == |ring|
    && forall k | 0 <= k < |via| :: IsQuad(m, via[k]) && ring[k + 1] in m.faces[via[k]]
  }

  /** What holds between steps: everything is settled but the pending faces and those passed over. */
  ghost predicate Progress(m: Mesh, edge: nat, ring: seq<nat>, via: seq<nat>, pending: set<(nat, nat)>)
  {
    && |ring| > 0 && ring[0] == edge && NoRepeat(ring) && InRange(m, ring) && Chained(m, ring) && CrossedInto(m, ring, via)
    && (forall e | e in ring :: Parallel(m, edge, e))
    && (forall e, f: nat | e in ring && (e, f) !in pending && !PassedBy(m, ring, via, e, f) :: Settled(m, ring, e, f))
  }

  /** Faces of the start edge whose walk has not begun. */
  ghost function Later(m: Mesh, edge: nat, k: nat): set<(nat, nat)>
    requires edge < |m.links| && k <= |m.links[edge]|
  {
    set j: nat | k <= j < |m.links[edge]| :: (edge, m.links[edge][j])
  }

  lemma AppendKeepsProgress(m: Mesh, edge: nat, ring: seq<nat>, via: seq<nat>, pending: set<(nat, nat)>,
                            from: nat, f: nat, o: nat, next: set<(nat, nat)>)
    requires Valid(m) && Progress(m, edge, ring, via, pending + {(from, f)})
    requires IsQuad(m, f) && from in m.faces[f] && o == OppositeEdge(m, f, from) && o !in ring
    requires from == ring[|ring| - 1] || from == edge
    requires from in ring
    requires o < |m.links| && forall g | g in m.links[o] && g != f && !PassedOver(m, o, f, g) :: (o, g) in next
    ensures Progress(m, edge, ring + [o], via + [f], pending + next)
  {
    var ring' := ring + [o];
    assert AcrossVia(m, f, from, o);
    forall k | 0 < k < |ring'|
      ensures Across(m, ring'[k - 1], ring'[k]) || Across(m, ring'[0], ring'[k])
    {
      if k < |ring| { assert ring'[k] == ring[k] && ring'[k - 1] == ring[k - 1]; }
    }
    ParallelExtend(m, edge, from, o);
    OppositeInvolution(m, f, from);
    CrossedIntoGrows(m, ring, via, o, f);
    AppendSettles(m, edge, ring, via, pending, from, f, o, next);
  }

  lemma CrossedIntoGrows(m: Mesh, ring: seq<nat>, via: seq<nat>, o: nat, f: nat)
    requires CrossedInto(m, ring, via) && IsQuad(m, f) && o in m.faces[f]
    ensures CrossedInto(m, ring + [o], via + [f])
  {
    forall k | 0 <= k < |via + [f]|
      ensures IsQuad(m, (via + [f])[k]) && (ring + [o])[k + 1] in m.faces[(via + [f])[k]]
    {
      if k < |via| { assert (ring + [o])[k + 1] == ring[k + 1] && (via + [f])[k] == via[k]; }
    }
  }

  lemma AppendSettles(m: Mesh, edge: nat, ring: seq<nat>, via: seq<nat>, pending: set<(nat, nat)>,
                      from: nat, f: nat, o: nat, next: set<(nat, nat)>)
    requires Valid(m) && |via| + 1 == |ring| && from in ring && o < |m.links| && IsQuad(m, f) && from in m.faces[f]
    requires o == OppositeEdge(m, f, from) && OppositeEdge(m, f, o) == from
    requires forall e, g: nat | e in ring && (e, g) !in pending + {(from, f)} && !PassedBy(m, ring, via, e, g) ::
               Settled(m, ring, e, g)
    requires forall g | g in m.links[o] && g != f && !PassedOver(m, o, f, g) :: (o, g) in next
    ensures forall e, g: nat | e in ring + [o] && (e, g) !in pending + next && !PassedBy(m, ring + [o], via + [f], e, g) ::
              Settled(m, ring + [o], e, g)
  {
    var ring', via' := ring + [o], via + [f];
    forall e, g: nat | e in ring' && (e, g) !in pending + next && !PassedBy(m, ring', via', e, g)
      ensures Settled(m, ring', e, g)
    {
      if e == o {
        if IsQuad(m, g) && e in m.faces[g] && g != f {
          assert g in m.links[o];
          PassedByAtLast(m, ring, via, o, f, g);
        }
      } else if (e, g) != (from, f) {
        PassedByStays(m, ring, via, o, f, e, g);
        assert Settled(m, ring, e, g);
      }
    }
  }

  lemma PassedByStays(m: Mesh, ring: seq<nat>, via: seq<nat>, o: nat, f: nat, e: nat, g: nat)
    requires |via| + 1 == |ring|
    ensures PassedBy(m, ring, via, e, g) ==> PassedBy(m, ring + [o], via + [f], e, g)
  {
    if PassedBy(m, ring, via, e, g) {
      var k :| 0 < k < |ring| && ring[k] == e && PassedOver(m, e, via[k - 1], g);
      assert (ring + [o])[k] == e && (via + [f])[k - 1] == via[k - 1];
    }
  }

  lemma PassedByAtLast(m: Mesh, ring: seq<nat>, via: seq<nat>, o: nat, f: nat, g: nat)
    requires |via| + 1 == |ring|
    ensures PassedOver(m, o, f, g) ==> PassedBy(m, ring + [o], via + [f], o, g)
  {
    assert (ring + [o])[|ring|] == o && (via + [f])[|ring| - 1] == f;
  }

  lemma OnlyOneOther(faces: seq<nat>, current: nat)
    requires current in faces && |faces| <= 2
    ensures |Others(faces, current)| <= 1
  {
    var rest := faces[1..];
    assert |rest| <= 1 && (forall x | x in faces :: x == faces[0] || x in rest);
    if rest != [] {
      assert Others(rest[1..], current) == [];
      assert Others(rest, current) == if rest[0] != current then [rest[0]] else [];
    }
  }

  /** A walk that stops owes nothing more: the face is no quad, or its far edge is in the ring. */
  lemma StopKeepsProgress(m: Mesh, edge: nat, ring: seq<nat>, via: seq<nat>, later: set<(nat, nat)>, e: nat, f: nat)
    requires Progress(m, edge, ring, via, later + {(e, f)}) && Settled(m, ring, e, f)
    ensures Progress(m, edge, ring, via, later)
  {
    forall d, g: nat | d in ring && (d, g) !in later && !PassedBy(m, ring, via, d, g)
      ensures Settled(m, ring, d, g)
    {
      assert (d, g) == (e, f) || (d, g) !in later + {(e, f)};
    }
  }

  // ---------------------------------------------------------------------------
  // The walk as a function of the mesh
  // ---------------------------------------------------------------------------

  ghost function EdgesOf(ring: seq<nat>): set<nat>
  {
    set e | e in ring
  }

  /** One direction of the walk: cross faces until a non-quad, an edge already in the ring, or the border. */
  ghost function WalkFrom(m: Mesh, ring: seq<nat>, e: nat, f: nat): seq<nat>
    requires Valid(m) && f < |m.faces| && e in m.faces[f]
    decreases Below(|m.links|) - EdgesOf(ring)
  {
    if |m.faces[f]| != 4 then ring
    else
      var o := OppositeEdge(m, f, e);
      if o in ring then ring
      else
        OtherFacesInRange(m, o, f);
        var others := Others(m.links[o], f);
        assert o in EdgesOf(ring + [o]);
        assert others == [] || others[0] in others;
        if others == [] then ring + [o] else WalkFrom(m, ring + [o], o, others[0])
  }

  /** The walks through the faces of `edge` from the `k`-th on. */
  ghost function RingFrom(m: Mesh, edge: nat, ring: seq<nat>, k: nat): seq<nat>
    requires Valid(m) && edge < |m.links| && k <= |m.links[edge]|
    decreases |m.links[edge]| - k
  {
    if k == |m.links[edge]| then ring
    else RingFrom(m, edge, WalkFrom(m, ring, edge, m.links[edge][k]), k + 1)
  }

  /** The faces those walks cross, one for each edge they add. */
  ghost function WalkVia(m: Mesh, ring: seq<nat>, e: nat, f: nat): seq<nat>
    requires Valid(m) && f < |m.faces| && e in m.faces[f]
    decreases Below(|m.links|) - EdgesOf(ring)
  {
    if |m.faces[f]| != 4 then []
    else
      var o := OppositeEdge(m, f, e);
      if o in ring then []
      else
        OtherFacesInRange(m, o, f);
        var others := Others(m.links[o], f);
        assert o in EdgesOf(ring + [o]);
        assert others == [] || others[0] in others;
        [f] + if others == [] then [] else WalkVia(m, ring + [o], o, others[0])
  }

  ghost function ViaFrom(m: Mesh, edge: nat, ring: seq<nat>, k: nat): seq<nat>
    requires Valid(m) && edge < |m.links| && k <= |m.links[edge]|
    decreases |m.links[edge]| - k
  {
    if k == |m.links[edge]| then []
    else WalkVia(m, ring, edge, m.links[edge][k]) + ViaFrom(m, edge, WalkFrom(m, ring, edge, m.links[edge][k]), k + 1)
  }

  /** The face crossed to reach each edge of the ring after the start. */
  ghost function CrossedBy(m: Mesh, edge: nat): seq<nat>
    requires Valid(m) && edge < |m.links|
  {
    ViaFrom(m, edge, [edge], 0)
  }

  ghost function RingOf(m: Mesh, edge: nat): seq<nat>
    requires Valid(m) && edge < |m.links|
  {
    RingFrom(m, edge, [edge], 0)
  }

  lemma OtherFacesInRange(m: Mesh, o: nat, f: nat)
    requires Valid(m) && o < |m.links|
    ensures forall g | g in Others(m.links[o], f) :: g < |m.faces| && o in m.faces[g]
  {
    forall g | g in Others(m.links[o], f)
      ensures g < |m.faces| && o in m.faces[g]
    {
      var k :| 0 <= k < |m.links[o]| && m.links[o][k] == g;
    }
  }

  lemma {:induction false} WalkMakesProgress(m: Mesh, edge: nat, ring: seq<nat>, via: seq<nat>, e: nat, f: nat,
                                             later: set<(nat, nat)>)
    requires Valid(m) && f < |m.faces| && e in m.faces[f] && e in ring
    requires e == edge || e == ring[|ring| - 1]
    requires Progress(m, edge, ring, via, later + {(e, f)})
    ensures Progress(m, edge, WalkFrom(m, ring, e, f), via + WalkVia(m, ring, e, f), later)
    decreases Below(|m.links|) - EdgesOf(ring)
  {
    hide *;
    assert f < |m.faces|;
    if !IsQuad(m, f) || OppositeEdge(m, f, e) in ring {
      WalkStops(m, ring, e, f);
      StopKeepsProgress(m, edge, ring, via, later, e, f);
      assert via + [] == via;
    } else {
      var o := OppositeEdge(m, f, e);
      WalkGoesOn(m, ring, e, f, o);
      var others := Others(m.links[o], f);
      var next: set<(nat, nat)> := if others == [] then {} else {(o, others[0])};
      AppendKeepsProgress(m, edge, ring, via, later, e, f, o, next);
      if others == [] {
        assert later + next == later;
      } else {
        var more := WalkVia(m, ring + [o], o, others[0]);
        LastIs(ring, o);
        WalkMakesProgress(m, edge, ring + [o], via + [f], o, others[0], later);
        assert via + [f] + more == via + ([f] + more);
      }
    }
  }

  lemma LastIs(ring: seq<nat>, o: nat)
    ensures o in ring + [o] && (ring + [o])[|ring|] == o
  {
    assert (ring + [o])[|ring|] == o;
  }

  lemma {:induction false} RingMakesProgress(m: Mesh, edge: nat, ring: seq<nat>, via: seq<nat>, k: nat)
    requires Valid(m) && edge < |m.links| && k <= |m.links[edge]|
    requires Progress(m, edge, ring, via, Later(m, edge, k))
    ensures Progress(m, edge, RingFrom(m, edge, ring, k), via + ViaFrom(m, edge, ring, k), {})
    decreases |m.links[edge]| - k
  {
    hide *;
    if k == |m.links[edge]| {
      RingIsDone(m, edge, ring);
      NothingLater(m, edge);
      assert via + [] == via;
    } else {
      RingUnfolds(m, edge, ring, k);
      var f := m.links[edge][k];
      var walked, crossed := WalkFrom(m, ring, edge, f), WalkVia(m, ring, edge, f);
      FaceBegins(m, edge, ring, via, k);
      WalkMakesProgress(m, edge, ring, via, edge, f, Later(m, edge, k + 1));
      RingMakesProgress(m, edge, walked, via + crossed, k + 1);
      assert via + crossed + ViaFrom(m, edge, walked, k + 1) == via + (crossed + ViaFrom(m, edge, walked, k + 1));
    }
  }

  lemma RingUnfolds(m: Mesh, edge: nat, ring: seq<nat>, k: nat)
    requires Valid(m) && edge < |m.links| && k < |m.links[edge]|
    ensures var f := m.links[edge][k];
            && f < |m.faces| && edge in m.faces[f]
            && RingFrom(m, edge, ring, k) == RingFrom(m, edge, WalkFrom(m, ring, edge, f), k + 1)
            && ViaFrom(m, edge, ring, k) == WalkVia(m, ring, edge, f) + ViaFrom(m, edge, WalkFrom(m, ring, edge, f), k + 1)
  {
    hide WalkFrom, WalkVia;
  }

  lemma RingIsDone(m: Mesh, edge: nat, ring: seq<nat>)
    requires Valid(m) && edge < |m.links|
    ensures RingFrom(m, edge, ring, |m.links[edge]|) == ring && ViaFrom(m, edge, ring, |m.links[edge]|) == []
  {
  }

  lemma WalkStops(m: Mesh, ring: seq<nat>, e: nat, f: nat)
    requires Valid(m) && f < |m.faces| && e in m.faces[f] && (!IsQuad(m, f) || OppositeEdge(m, f, e) in ring)
    ensures WalkFrom(m, ring, e, f) == ring && WalkVia(m, ring, e, f) == [] && (e in ring ==> Settled(m, ring, e, f))
  {
  }

  /** Where the walk goes on, if it does, after crossing face `f` to the far edge `o`. */
  lemma WalkGoesOn(m: Mesh, ring: seq<nat>, e: nat, f: nat, o: nat)
    requires Valid(m) && IsQuad(m, f) && e in m.faces[f] && o == OppositeEdge(m, f, e) && o !in ring
    ensures o < |m.links| && Below(|m.links|) - EdgesOf(ring + [o]) < Below(|m.links|) - EdgesOf(ring)
    ensures var others := Others(m.links[o], f);
            && (others == [] ==> WalkFrom(m, ring, e, f) == ring + [o] && WalkVia(m, ring, e, f) == [f])
            && (others != [] ==>
                  && others[0] < |m.faces| && o in m.faces[others[0]]
                  && WalkFrom(m, ring, e, f) == WalkFrom(m, ring + [o], o, others[0])
                  && WalkVia(m, ring, e, f) == [f] + WalkVia(m, ring + [o], o, others[0]))
            && (forall g | g in m.links[o] && g != f && !PassedOver(m, o, f, g) :: others != [] && g == others[0])
  {
    OtherFacesInRange(m, o, f);
    var others := Others(m.links[o], f);
    assert others != [] ==> others[0] in others;
    assert o in EdgesOf(ring + [o]) && o !in EdgesOf(ring) && o in Below(|m.links|);
  }

  lemma NothingLater(m: Mesh, edge: nat)
    requires edge < |m.links|
    ensures Later(m, edge, |m.links[edge]|) == {}
  {
  }

  lemma FaceBegins(m: Mesh, edge: nat, ring: seq<nat>, via: seq<nat>, k: nat)
    requires edge < |m.links| && k < |m.links[edge]| && Progress(m, edge, ring, via, Later(m, edge, k))
    ensures edge in ring && Progress(m, edge, ring, via, Later(m, edge, k + 1) + {(edge, m.links[edge][k])})
  {
    assert Later(m, edge, k) == Later(m, edge, k + 1) + {(edge, m.links[edge][k])};
  }

  lemma RingStarts(m: Mesh, edge: nat)
    requires Valid(m) && edge < |m.links|
    ensures Progress(m, edge, [edge], [], Later(m, edge, 0))
  {
    assert IsWalk(m, [edge], edge, edge);
    forall f: nat | f < |m.faces| && edge in m.faces[f]
      ensures (edge, f) in Later(m, edge, 0)
    {
      assert f in m.links[edge];
      var k: nat :| k < |m.links[edge]| && m.links[edge][k] == f;
    }
  }

  lemma RingEnds(m: Mesh, edge: nat)
    requires Valid(m) && edge < |m.links|
    ensures Progress(m, edge, RingOf(m, edge), CrossedBy(m, edge), {})
  {
    RingStarts(m, edge);
    RingMakesProgress(m, edge, [edge], [], 0);
    assert [] + CrossedBy(m, edge) == CrossedBy(m, edge);
  }

  /** On every mesh: no edge twice, each added edge opposite its predecessor (or the start) in a quad, and
      nothing but edges reachable by crossing quads. */
  lemma RingIsSound(m: Mesh, edge: nat)
    requires Valid(m) && edge < |m.links|
    ensures var ring := RingOf(m, edge);
            && |ring| > 0 && ring[0] == edge && NoRepeat(ring) && InRange(m, ring) && Chained(m, ring)
            && forall e | e in ring :: Parallel(m, edge, e)
  {
    RingEnds(m, edge);
  }

  lemma {:induction false} ClosedContainsWalks(m: Mesh, ring: seq<nat>, path: seq<nat>, a: nat, b: nat)
    requires Closed(m, ring) && IsWalk(m, path, a, b) && a in ring
    ensures b in ring
    decreases |path|
  {
    if |path| > 1 {
      var f :| AcrossVia(m, f, path[0], path[1]);
      assert Settled(m, ring, a, f);
      forall k | 0 <= k < |path[1..]| - 1
        ensures Across(m, path[1..][k], path[1..][k + 1])
      {
        assert Across(m, path[k + 1], path[k + 2]);
      }
      ClosedContainsWalks(m, ring, path[1..], path[1], b);
    }
  }

  lemma ClosedIsComplete(m: Mesh, edge: nat)
    requires Valid(m) && edge < |m.links| && Closed(m, RingOf(m, edge))
    ensures forall e :: e in RingOf(m, edge) <==> Parallel(m, edge, e)
  {
    RingIsSound(m, edge);
    forall e | Parallel(m, edge, e)
      ensures e in RingOf(m, edge)
    {
      var path :| IsWalk(m, path, edge, e);
      ClosedContainsWalks(m, RingOf(m, edge), path, edge, e);
    }
  }

  /** The exact condition, on every mesh: the ring is closed, so that it holds every edge reachable by crossing quads, if
      and only if each quad the walk passed over has its far edge in the ring anyway. */
  lemma RingIsClosedExactlyWhen(m: Mesh, edge: nat)
    requires Valid(m) && edge < |m.links|
    ensures |CrossedBy(m, edge)| + 1 == |RingOf(m, edge)|
    ensures Closed(m, RingOf(m, edge)) <==>
              forall k, f: nat | 0 < k < |RingOf(m, edge)| && PassedOver(m, RingOf(m, edge)[k], CrossedBy(m, edge)[k - 1], f) ::
                Settled(m, RingOf(m, edge), RingOf(m, edge)[k], f)
    ensures Closed(m, RingOf(m, edge)) <==> forall e | Parallel(m, edge, e) :: e in RingOf(m, edge)
  {
    RingEnds(m, edge);
    var ring, via := RingOf(m, edge), CrossedBy(m, edge);
    if Closed(m, ring) {
      ClosedIsComplete(m, edge);
    }
    if forall e | Parallel(m, edge, e) :: e in ring {
      CompleteIsClosed(m, edge, ring);
    }
  }

  lemma CompleteIsClosed(m: Mesh, edge: nat, ring: seq<nat>)
    requires Valid(m) && (forall e | e in ring :: Parallel(m, edge, e)) && forall e | Parallel(m, edge, e) :: e in ring
    ensures Closed(m, ring)
  {
    forall e, f: nat | e in ring && IsQuad(m, f) && e in m.faces[f] ensures OppositeEdge(m, f, e) in ring {
      assert AcrossVia(m, f, e, OppositeEdge(m, f, e));
      ParallelExtend(m, edge, e, OppositeEdge(m, f, e));
    }
  }

  /** No edge beside the start that the ring could reach and that carries two quads carries a third face. */
  ghost predicate TwoSided(m: Mesh, edge: nat)
    requires Valid(m)
  {
    forall e: nat, f: nat, g: nat | Parallel(m, edge, e) && e != edge && f != g && IsQuad(m, f) && IsQuad(m, g)
      && e in m.faces[f] && e in m.faces[g] && e < |m.links| :: |m.links[e]| <= 2
  }

  /** Then the ring is closed, for open strips and closed loops alike: it holds exactly the edges reachable from the start
      by crossing quads. */
  lemma RingIsComplete(m: Mesh, edge: nat)
    requires Valid(m) && edge < |m.links| && TwoSided(m, edge)
    ensures Closed(m, RingOf(m, edge))
    ensures forall e :: e in RingOf(m, edge) <==> Parallel(m, edge, e)
  {
    RingEnds(m, edge);
    RingIsClosedExactlyWhen(m, edge);
    var ring, via := RingOf(m, edge), CrossedBy(m, edge);
    forall k, f: nat | 0 < k < |ring| && PassedOver(m, ring[k], via[k - 1], f)
      ensures Settled(m, ring, ring[k], f)
    {
      PassedOverIsNoQuad(m, edge, ring, via, k, f);
    }
    RingIsSound(m, edge);
    ClosedIsComplete(m, edge);
  }

  lemma PassedOverIsNoQuad(m: Mesh, edge: nat, ring: seq<nat>, via: seq<nat>, k: nat, f: nat)
    requires Valid(m) && TwoSided(m, edge) && Progress(m, edge, ring, via, {})
    requires 0 < k < |ring| && PassedOver(m, ring[k], via[k - 1], f)
    ensures !IsQuad(m, f)
  {
    var e, g := ring[k], via[k - 1];
    assert f in m.links[e] && f != g && IsQuad(m, g) && e in m.faces[g] && g in m.links[e];
    assert e != edge && Parallel(m, edge, e);
    if IsQuad(m, f) {
      assert e in m.faces[f] && |m.links[e]| <= 2;
      OnlyOneOther(m.links[e], g);
      assert false;
    }
  }

  lemma ManifoldIsTwoSided(m: Mesh, edge: nat)
    requires Valid(m) && Manifold(m)
    ensures TwoSided(m, edge)
  {
  }

  /** On a manifold mesh every ring is complete, and all of its edges have the same ring, up to order. */
  lemma ManifoldRingIsComplete(m: Mesh, edge: nat, other: nat)
    requires Valid(m) && Manifold(m) && edge < |m.links| && other in RingOf(m, edge)
    ensures Closed(m, RingOf(m, edge)) && other < |m.links|
    ensures forall e :: e in RingOf(m, edge) <==> e in RingOf(m, other)
  {
    ManifoldIsTwoSided(m, edge);
    RingIsComplete(m, edge);
    RingIsSound(m, edge);
    ManifoldIsTwoSided(m, other);
    RingIsComplete(m, other);
    forall e ensures Parallel(m, edge, e) <==> Parallel(m, other, e) {
      if Parallel(m, edge, e) {
        ParallelBack(m, edge, other);
        ParallelJoins(m, other, edge, e);
      }
      if Parallel(m, other, e) { ParallelJoins(m, edge, other, e); }
    }
  }

  lemma ParallelJoins(m: Mesh, a: nat, b: nat, c: nat)
    requires Parallel(m, a, b) && Parallel(m, b, c)
    ensures Parallel(m, a, c)
  {
    var p :| IsWalk(m, p, a, b);
    var q :| IsWalk(m, q, b, c);
    var r := p + q[1..];
    forall k | 0 <= k < |r| - 1 ensures Across(m, r[k], r[k + 1]) {
      if k >= |p| - 1 {
        assert r[k] == q[k - (|p| - 1)] && r[k + 1] == q[k + 1 - (|p| - 1)];
      }
    }
    assert IsWalk(m, r, a, c);
  }

  lemma ParallelBack(m: Mesh, a: nat, b: nat)
    requires Valid(m) && Parallel(m, a, b)
    ensures Parallel(m, b, a)
  {
    var p :| IsWalk(m, p, a, b);
    var r := seq(|p|, k requires 0 <= k < |p| => p[|p| - 1 - k]);
    forall k | 0 <= k < |r| - 1 ensures Across(m, r[k], r[k + 1]) {
      var i := |p| - 2 - k;
      AcrossBack(m, p[i], p[i + 1]);
    }
    assert IsWalk(m, r, b, a);
  }

  lemma AcrossBack(m: Mesh, a: nat, b: nat)
    requires Valid(m) && Across(m, a, b)
    ensures Across(m, b, a)
  {
    var f :| AcrossVia(m, f, a, b);
    OppositeInvolution(m, f, a);
    assert AcrossVia(m, f, b, a);
  }

  /** The loop computes that function. */
  method Ring(m: Mesh, edge: nat) returns (ring: seq<nat>)
    requires Valid(m) && edge < |m.links|
    ensures ring == RingOf(m, edge)
  {
    ring := [edge];
    var seen := {edge};
    var faces := m.links[edge];
    for k := 0 to |faces|
      invariant RingFrom(m, edge, ring, k) == RingOf(m, edge)
      invariant forall e :: e in seen <==> e in ring
    {
      var currentEdge: nat, currentFace: nat := edge, faces[k];
      ghost var end := WalkFrom(m, ring, edge, faces[k]);
      while true
        invariant currentFace < |m.faces| && currentEdge in m.faces[currentFace]
        invariant forall e :: e in seen <==> e in ring
        invariant WalkFrom(m, ring, currentEdge, currentFace) == end
        decreases Below(|m.links|) - seen
      {
        if |m.faces[currentFace]| != 4 {
          break;
        }
        var opposite := OppositeEdge(m, currentFace, currentEdge);
        if opposite in seen {
          break;
        }
        var others := Others(m.links[opposite], currentFace);
        OtherFacesInRange(m, opposite, currentFace);
        ring := ring + [opposite];
        seen := seen + {opposite};
        if others == [] {
          break;
        }
        currentEdge, currentFace := opposite, others[0];
      }
      assert ring == end;
    }
  }

  function ThreeQuadsOnOneEdge(): Mesh
  {
    Mesh([[1, 2, 0, 3], [0, 4, 5, 6], [0, 7, 8, 9]],
         [[0, 1, 2], [0], [0], [0], [1], [1], [1], [2], [2], [2]])
  }

  lemma ThreeQuadsTables(m: Mesh, f: nat, e: nat)
    requires m == ThreeQuadsOnOneEdge() && f < 3 && e < 10
    ensures e in m.faces[f] <==> f in m.links[e]
  {
    assert m.faces[f] == if f == 0 then [1, 2, 0, 3] else if f == 1 then [0, 4, 5, 6] else [0, 7, 8, 9];
    assert m.links[e] == if e == 0 then [0, 1, 2] else if e <= 3 then [0] else if e <= 6 then [1] else [2];
  }

  lemma ThreeQuadsValid()
    ensures Valid(ThreeQuadsOnOneEdge())
  {
    var m := ThreeQuadsOnOneEdge();
    forall f | 0 <= f < 3
      ensures NoRepeat(m.faces[f]) && forall k | 0 <= k < |m.faces[f]| :: m.faces[f][k] < 10
    {
      assert m.faces[f] == if f == 0 then [1, 2, 0, 3] else if f == 1 then [0, 4, 5, 6] else [0, 7, 8, 9];
    }
    forall e | 0 <= e < 10
      ensures NoRepeat(m.links[e]) && forall k | 0 <= k < |m.links[e]| :: m.links[e][k] < 3
    {
      assert m.links[e] == if e == 0 then [0, 1, 2] else if e <= 3 then [0] else if e <= 6 then [1] else [2];
    }
    forall f, e | 0 <= f < 3 && 0 <= e < 10
      ensures e in m.faces[f] <==> f in m.links[e]
    {
      ThreeQuadsTables(m, f, e);
    }
  }

  lemma ThreeQuadsSteps()
    ensures var m := ThreeQuadsOnOneEdge();
            && |m.faces| == 3 && |m.links| == 10
            && OppositeEdge(m, 0, 1) == 0 && OppositeEdge(m, 1, 0) == 5
            && Others(m.links[0], 0) == [1, 2] && Others(m.links[5], 1) == [] && m.links[1] == [0]
  {
  }

  lemma ThreeQuadsWalk()
    requires Valid(ThreeQuadsOnOneEdge())
    ensures RingOf(ThreeQuadsOnOneEdge(), 1) == [1, 0, 5]
  {
    var m := ThreeQuadsOnOneEdge();
    ThreeQuadsSteps();
    hide OppositeEdge, Others;
    assert WalkFrom(m, [1] + [0], 0, 1) == [1, 0] + [5];
    assert WalkFrom(m, [1], 1, 0) == [1, 0, 5];
    assert RingFrom(m, 1, [1, 0, 5], 1) == [1, 0, 5];
  }

  lemma ThreeQuadsParallel()
    ensures Parallel(ThreeQuadsOnOneEdge(), 1, 8)
  {
    var m := ThreeQuadsOnOneEdge();
    assert OppositeEdge(m, 0, 1) == 0 && OppositeEdge(m, 2, 0) == 8;
    assert AcrossVia(m, 0, 1, 0) && AcrossVia(m, 2, 0, 8);
    assert IsWalk(m, [1, 0, 8], 1, 8);
  }

  lemma ThreeQuadsUnsettled()
    ensures !Settled(ThreeQuadsOnOneEdge(), [1, 0, 5], 0, 2)
  {
    assert OppositeEdge(ThreeQuadsOnOneEdge(), 2, 0) == 8;
  }

  lemma UnsettledIsOpen(m: Mesh, ring: seq<nat>, e: nat, f: nat)
    requires e in ring && !Settled(m, ring, e, f)
    ensures !Closed(m, ring)
  {
  }

  /** Three quads on one edge: the walk takes only the first of the two ways on, so the ring is not closed. */
  lemma ThreeFacesLeaveRingOpen()
    ensures Valid(ThreeQuadsOnOneEdge()) && Parallel(ThreeQuadsOnOneEdge(), 1, 8)
    ensures RingOf(ThreeQuadsOnOneEdge(), 1) == [1, 0, 5] && !Closed(ThreeQuadsOnOneEdge(), [1, 0, 5])
  {
    ThreeQuadsValid();
    ThreeQuadsWalk();
    ThreeQuadsParallel();
    ThreeQuadsUnsettled();
    UnsettledIsOpen(ThreeQuadsOnOneEdge(), [1, 0, 5], 0, 2);
  }
}
