/** Faces that come from points: what the grouping does on meshes of real triangles. */
module RegionMeshes {
  import opened Regions

  function Cross(a: Vec, b: Vec): Vec
  {
    Vec(a.y * b.z - a.z * b.y, a.z * b.x - a.x * b.z, a.x * b.y - a.y * b.x)
  }

  /** Newell's sum over a triangle's corners: its length is twice the area, its direction the normal. */
  function Newell(a: Vec, b: Vec, c: Vec): Vec
  {
    Cross(a, b).Plus(Cross(b, c)).Plus(Cross(c, a))
  }

  function Key(u: nat, v: nat): EdgeKey
  {
    if u < v then (u, v) else (v, u)
  }

  /** A triangle by its corners' indices. */
  datatype Corners = Corners(a: nat, b: nat, c: nat)
  {
    predicate Within(points: seq<Vec>) { a < |points| && b < |points| && c < |points| }
    function Edges(): seq<EdgeKey> { [Key(a, b), Key(b, c), Key(c, a)] }
  }

  /** The face has the edges, centre, area and unit normal of the triangle on these corners. */
  ghost predicate IsTriangle(a: Vec, b: Vec, c: Vec, f: Face)
  {
    && f.centre.Scale(3.0) == a.Plus(b).Plus(c)
    && f.normal.Dot(f.normal) == 1.0 && f.area > 0.0 && f.normal.Scale(2.0 * f.area) == Newell(a, b, c)
  }

  ghost predicate Realises(points: seq<Vec>, t: Corners, f: Face)
    requires t.Within(points)
  {
    f.edges == t.Edges() && IsTriangle(points[t.a], points[t.b], points[t.c], f)
  }

  ghost predicate RealisedBy(points: seq<Vec>, corners: seq<Corners>, faces: seq<Face>)
  {
    && |corners| == |faces|
    && forall i | 0 <= i < |faces| :: corners[i].Within(points) && Realises(points, corners[i], faces[i])
  }

  // ---------------------------------------------------------------------------
  // Two neighbours in one plane, kept apart
  // ---------------------------------------------------------------------------

  const ORIGIN: Vec := Vec(0.0, 0.0, 0.0)
  const ALONG: Vec := Vec(3.0, 0.0, 0.0)
  const ABOVE: Vec := Vec(0.0, 0.0, 3.0)
  const ASIDE: Vec := Vec(0.0, 3.0, 0.0)
  const BEYOND: Vec := Vec(0.0, -3.0, 0.0)

  const DOWN: Vec := Vec(0.0, -1.0, 0.0)
  const UP: Vec := Vec(0.0, 0.0, 1.0)

  /** Three triangles on the edge between points 0 and 1: the first stands upright, the other two lie in the ground. */
  const POINTS: seq<Vec> := [ORIGIN, ALONG, ABOVE, ASIDE, BEYOND]
  const CORNERS: seq<Corners> := [Corners(0, 1, 2), Corners(0, 1, 3), Corners(0, 4, 1)]

  const UPRIGHT: Face := Face(DOWN, Vec(1.0, 0.0, 1.0), 4.5, [(0, 1), (1, 2), (0, 2)])
  const FLAT: Face := Face(UP, Vec(1.0, 1.0, 0.0), 4.5, [(0, 1), (1, 3), (0, 3)])
  const FLAT_TOO: Face := Face(UP, Vec(1.0, -1.0, 0.0), 4.5, [(0, 4), (1, 4), (0, 1)])

  lemma CrossWithOrigin(b: Vec)
    ensures Cross(ORIGIN, b) == ORIGIN && Cross(b, ORIGIN) == ORIGIN
  {
  }

  lemma NewellSums(b: Vec, c: Vec, r: Vec)
    requires Cross(b, c) == r
    ensures Newell(ORIGIN, b, c) == r
  {
    CrossWithOrigin(b);
    CrossWithOrigin(c);
    hide Cross;
  }

  lemma CrossUpright()
    ensures Cross(ALONG, ABOVE) == Vec(0.0, -9.0, 0.0)
  {
  }

  lemma CrossFlat()
    ensures Cross(ALONG, ASIDE) == Vec(0.0, 0.0, 9.0)
  {
  }

  lemma CrossFlatToo()
    ensures Cross(BEYOND, ALONG) == Vec(0.0, 0.0, 9.0)
  {
  }

  lemma UnitDown()
    ensures DOWN.Dot(DOWN) == 1.0 && DOWN.Scale(9.0) == Vec(0.0, -9.0, 0.0)
  {
  }

  lemma UnitUp()
    ensures UP.Dot(UP) == 1.0 && UP.Scale(9.0) == Vec(0.0, 0.0, 9.0)
  {
  }

  lemma CentreUpright()
    ensures Vec(1.0, 0.0, 1.0).Scale(3.0) == ORIGIN.Plus(ALONG).Plus(ABOVE)
  {
  }

  lemma CentreFlat()
    ensures Vec(1.0, 1.0, 0.0).Scale(3.0) == ORIGIN.Plus(ALONG).Plus(ASIDE)
  {
  }

  lemma CentreFlatToo()
    ensures Vec(1.0, -1.0, 0.0).Scale(3.0) == ORIGIN.Plus(BEYOND).Plus(ALONG)
  {
  }

  lemma IsTriangleBy(b: Vec, c: Vec, n: Vec, centre: Vec, edges: seq<EdgeKey>, r: Vec)
    requires Newell(ORIGIN, b, c) == r && n.Dot(n) == 1.0 && n.Scale(9.0) == r && centre.Scale(3.0) == ORIGIN.Plus(b).Plus(c)
    ensures IsTriangle(ORIGIN, b, c, Face(n, centre, 4.5, edges))
  {
    hide Newell, Vec.Dot, Vec.Scale, Vec.Plus;
  }

  lemma UprightIsReal()
    ensures IsTriangle(ORIGIN, ALONG, ABOVE, UPRIGHT)
  {
    hide Newell, Cross, IsTriangle, Vec.Dot, Vec.Scale, Vec.Plus;
    CrossUpright();
    NewellSums(ALONG, ABOVE, Vec(0.0, -9.0, 0.0));
    UnitDown();
    CentreUpright();
    IsTriangleBy(ALONG, ABOVE, DOWN, UPRIGHT.centre, UPRIGHT.edges, Vec(0.0, -9.0, 0.0));
  }

  lemma FlatIsReal()
    ensures IsTriangle(ORIGIN, ALONG, ASIDE, FLAT)
  {
    hide Newell, Cross, IsTriangle, Vec.Dot, Vec.Scale, Vec.Plus;
    CrossFlat();
    NewellSums(ALONG, ASIDE, Vec(0.0, 0.0, 9.0));
    UnitUp();
    CentreFlat();
    IsTriangleBy(ALONG, ASIDE, UP, FLAT.centre, FLAT.edges, Vec(0.0, 0.0, 9.0));
  }

  lemma FlatTooIsReal()
    ensures IsTriangle(ORIGIN, BEYOND, ALONG, FLAT_TOO)
  {
    hide Newell, Cross, IsTriangle, Vec.Dot, Vec.Scale, Vec.Plus;
    CrossFlatToo();
    NewellSums(BEYOND, ALONG, Vec(0.0, 0.0, 9.0));
    UnitUp();
    CentreFlatToo();
    IsTriangleBy(BEYOND, ALONG, UP, FLAT_TOO.centre, FLAT_TOO.edges, Vec(0.0, 0.0, 9.0));
  }

  lemma UprightDisagrees(tol: Tolerance)
    requires 0.0 < tol.cosine
    ensures !Agree(FLAT, UPRIGHT, tol)
  {
    assert FLAT.normal.Dot(UPRIGHT.normal) == 0.0;
  }

  lemma FlatOffset()
    ensures FLAT.Offset() == 0.0
  {
  }

  lemma FlatTooOffset()
    ensures FLAT_TOO.Offset() == 0.0
  {
  }

  lemma FlatsAgree(tol: Tolerance)
    requires tol.cosine <= 1.0 && tol.plane >= 0.0
    ensures Agree(FLAT, FLAT_TOO, tol)
  {
    FlatOffset();
    FlatTooOffset();
    UnitUp();
    hide Face.Offset, Vec.Dot, Vec.Scale;
  }

  lemma FlatTooDisagrees(tol: Tolerance)
    requires 0.0 < tol.cosine
    ensures !Agree(FLAT_TOO, UPRIGHT, tol)
  {
    assert FLAT_TOO.normal.Dot(UPRIGHT.normal) == 0.0;
  }

  lemma UprightLinksNothing(faces: seq<Face>, tol: Tolerance, p: nat, q: nat, e: EdgeKey)
    requires |faces| == 3 && !Agree(faces[1], faces[0], tol) && !Agree(faces[2], faces[0], tol)
    requires (0, 1) in faces[0].edges && faces[1].edges == [(0, 1), (1, 3), (0, 3)] && faces[2].edges == [(0, 4), (1, 4), (0, 1)]
    ensures !LinkVia(faces, tol, p, q, e)
  {
    hide Agree;
    if q == 1 && p == 2 {
      OnlyEdgeOfBoth(faces[1].edges, faces[2].edges, e);
    }
  }

  lemma OnlyEdgeOfBoth(one: seq<EdgeKey>, two: seq<EdgeKey>, e: EdgeKey)
    requires one == [(0, 1), (1, 3), (0, 3)] && two == [(0, 4), (1, 4), (0, 1)]
    ensures e in one && e in two ==> e == (0, 1)
  {
  }

  lemma NeighboursSplit(faces: seq<Face>, tol: Tolerance)
    requires |faces| == 3 && !Agree(faces[1], faces[0], tol) && !Agree(faces[2], faces[0], tol)
    requires Agree(faces[1], faces[2], tol)
    requires (0, 1) in faces[0].edges && faces[1].edges == [(0, 1), (1, 3), (0, 3)] && faces[2].edges == [(0, 4), (1, 4), (0, 1)]
    ensures Neighbours(faces, tol, 1, 2) && !Connected(Examined(faces, tol), 1, 2)
  {
    hide Agree;
    assert (0, 1) in faces[1].edges && (0, 1) in faces[2].edges;
    forall p: nat, q: nat, e ensures !LinkVia(faces, tol, p, q, e) {
      UprightLinksNothing(faces, tol, p, q, e);
    }
    assert Examined(faces, tol) == {};
    NoLinksNoPath(1, 2);
  }

  /** A mesh of real triangles on which two neighbours in one plane fall into different groups, at every tolerance below a
      right angle: the face first seen on their edge agrees with neither. */
  lemma RealNeighboursSplit(tol: Tolerance)
    requires 0.0 < tol.cosine <= 1.0 && tol.plane >= 0.0
    ensures var faces := [UPRIGHT, FLAT, FLAT_TOO];
            && RealisedBy(POINTS, CORNERS, faces) && Neighbours(faces, tol, 1, 2)
            && !Connected(Examined(faces, tol), 1, 2)
  {
    hide RealisedBy, Agree, Face.Offset, Vec.Dot, Vec.Scale, Vec.Plus, Newell, Cross, IsTriangle;
    ItIsReal();
    UprightDisagrees(tol);
    FlatTooDisagrees(tol);
    FlatsAgree(tol);
    assert UPRIGHT.edges[0] == (0, 1);
    NeighboursSplit([UPRIGHT, FLAT, FLAT_TOO], tol);
  }

  lemma ItIsReal()
    ensures RealisedBy(POINTS, CORNERS, [UPRIGHT, FLAT, FLAT_TOO])
  {
    UprightIsReal();
    FlatIsReal();
    FlatTooIsReal();
    hide IsTriangle, Newell, Cross, Vec.Dot, Vec.Scale, Vec.Plus;
    assert UPRIGHT.edges == CORNERS[0].Edges() && FLAT.edges == CORNERS[1].Edges() && FLAT_TOO.edges == CORNERS[2].Edges();
  }

  // ---------------------------------------------------------------------------
  // Copies of one triangle
  // ---------------------------------------------------------------------------

  /** Three times the same triangle. */
  const SAME: seq<Corners> := [Corners(0, 1, 2), Corners(0, 1, 2), Corners(0, 1, 2)]

  lemma SameNormal(n: Vec, m: Vec, k: real, l: real)
    requires n.Dot(n) == 1.0 && m.Dot(m) == 1.0 && k > 0.0 && l > 0.0 && n.Scale(k) == m.Scale(l)
    ensures n == m
  {
    var whole := n.Scale(k);
    ScaledSquare(n, k);
    ScaledSquare(m, l);
    if k < l { SquaresApart(k, l); } else if l < k { SquaresApart(l, k); }
    Cancel(n.x, m.x, k);
    Cancel(n.y, m.y, k);
    Cancel(n.z, m.z, k);
  }

  lemma ScaledSquare(n: Vec, k: real)
    requires n.Dot(n) == 1.0
    ensures n.Scale(k).Dot(n.Scale(k)) == k * k
  {
    assert n.Scale(k).Dot(n.Scale(k)) == k * k * n.Dot(n);
  }

  lemma SquaresApart(k: real, l: real)
    requires 0.0 < k < l
    ensures k * k < l * l
  {
  }

  lemma Cancel(a: real, b: real, k: real)
    requires k > 0.0 && a * k == b * k
    ensures a == b
  {
  }

  /** Over real triangles the condition is not necessary: three copies of one triangle are not covered, and yet grouped as
      intended wherever their points are. */
  lemma UncoveredCanGroupAsIntended(points: seq<Vec>, faces: seq<Face>, tol: Tolerance)
    requires tol.cosine <= 1.0 && tol.plane >= 0.0 && RealisedBy(points, SAME, faces)
    ensures !Covered(faces)
    ensures forall a: nat, b: nat :: Connected(Examined(faces, tol), a, b) <==> Connected(Intended(faces, tol), a, b)
  {
    SameFaces(points, faces);
    assert (0, 1) in faces[0].edges && (0, 1) in faces[1].edges && (0, 1) in faces[2].edges;
    assert !Covered(faces) by {
      assert forall d :: IsFirstOn(faces, 1, d) ==> d !in faces[0].edges;
    }
    var examined, intended := Examined(faces, tol), Intended(faces, tol);
    forall u: nat, v: nat | u < 3 && v < 3 ensures Connected(examined, u, v) {
      CopiesConnect(faces, tol, u);
      CopiesConnect(faces, tol, v);
      ConnectedSym(examined, 0, u);
      ConnectedTrans(examined, u, 0, v);
    }
    forall a: nat, b: nat ensures Connected(examined, a, b) <==> Connected(intended, a, b) {
      if Connected(examined, a, b) {
        assert forall i: nat, o: nat | (i, o) in examined :: Neighbours(faces, tol, i, o);
        ConnectedGrows(examined, intended, a, b);
      }
      if Connected(intended, a, b) {
        var path :| IsPath(intended, path, a, b);
        PathSimulated(intended, examined, path, a, b);
      }
    }
  }

  lemma SameFaces(points: seq<Vec>, faces: seq<Face>)
    requires RealisedBy(points, SAME, faces)
    ensures |faces| == 3
    ensures forall i | 0 <= i < 3 ::
              && faces[i].edges == [(0, 1), (1, 2), (0, 2)]
              && faces[i].normal == faces[0].normal && faces[i].centre == faces[0].centre
              && faces[i].normal.Dot(faces[i].normal) == 1.0
  {
    forall i | 0 <= i < 3
      ensures faces[i].edges == [(0, 1), (1, 2), (0, 2)] && faces[i].normal.Dot(faces[i].normal) == 1.0
      ensures faces[i].normal == faces[0].normal && faces[i].centre == faces[0].centre
    {
      assert Realises(points, SAME[i], faces[i]) && Realises(points, SAME[0], faces[0]);
      SameNormal(faces[i].normal, faces[0].normal, 2.0 * faces[i].area, 2.0 * faces[0].area);
    }
  }

  lemma CopiesConnect(faces: seq<Face>, tol: Tolerance, u: nat)
    requires tol.cosine <= 1.0 && tol.plane >= 0.0 && |faces| == 3 && u < 3
    requires forall i | 0 <= i < 3 ::
               && faces[i].edges == [(0, 1), (1, 2), (0, 2)]
               && faces[i].normal == faces[0].normal && faces[i].centre == faces[0].centre
               && faces[i].normal.Dot(faces[i].normal) == 1.0
    ensures Connected(Examined(faces, tol), 0, u)
  {
    if u == 0 {
      ConnectedRefl(Examined(faces, tol), 0);
    } else {
      assert IsFirstOn(faces, 0, (0, 1));
      assert LinkVia(faces, tol, u, 0, (0, 1));
      ConnectedStep(Examined(faces, tol), 0, u);
    }
  }
}
