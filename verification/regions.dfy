/** Grouping an object's faces into planar regions.
    Faces are joined by a union-find with path halving; this module proves what partition results. */
module Regions {

  const MAX_FACES: nat := 60_000

  datatype Vec = Vec(x: real, y: real, z: real)
  {
    function Dot(other: Vec): real { x * other.x + y * other.y + z * other.z }
    function Plus(other: Vec): Vec { Vec(x + other.x, y + other.y, z + other.z) }
    function Scale(k: real): Vec { Vec(x * k, y * k, z * k) }
  }

  /** An edge is named by its two vertex indices. */
  type EdgeKey = (nat, nat)

  /** One face after the object's transform. */
  datatype Face = Face(normal: Vec, centre: Vec, area: real, edges: seq<EdgeKey>)
  {
    function Offset(): real { normal.Dot(centre) }
  }

  datatype Tolerance = Tolerance(cosine: real, plane: real)

  predicate Agree(f: Face, g: Face, tol: Tolerance)
  {
    && f.normal.Dot(g.normal) >= tol.cosine
    && -tol.plane <= f.Offset() - g.Offset() <= tol.plane
  }

  // ---------------------------------------------------------------------------
  // What is examined, and what it connects
  // ---------------------------------------------------------------------------

  ghost predicate IsFirstOn(faces: seq<Face>, o: nat, e: EdgeKey)
  {
    && o < |faces| && e in faces[o].edges
    && forall j | 0 <= j < o :: e !in faces[j].edges
  }

  /** Face `i` is compared with `o` over edge `e`: `o` is the first face carrying that edge. */
  ghost predicate LinkVia(faces: seq<Face>, tol: Tolerance, i: nat, o: nat, e: EdgeKey)
  {
    o < i < |faces| && e in faces[i].edges && IsFirstOn(faces, o, e) && Agree(faces[i], faces[o], tol)
  }

  ghost predicate Link(faces: seq<Face>, tol: Tolerance, i: nat, o: nat)
  {
    exists e :: LinkVia(faces, tol, i, o, e)
  }

  /** The links the source means: two faces share an edge and agree on their plane. */
  ghost predicate Neighbours(faces: seq<Face>, tol: Tolerance, i: nat, j: nat)
  {
    && i < |faces| && j < |faces| && Agree(faces[i], faces[j], tol)
    && exists e :: e in faces[i].edges && e in faces[j].edges
  }

  type Links = set<(nat, nat)>

  ghost predicate Adjacent(links: Links, a: nat, b: nat)
  {
    (a, b) in links || (b, a) in links
  }

  ghost predicate IsPath(links: Links, path: seq<nat>, a: nat, b: nat)
  {
    && |path| > 0 && path[0] == a && path[|path| - 1] == b
    && forall k | 0 <= k < |path| - 1 :: Adjacent(links, path[k], path[k + 1])
  }

  /** The reflexive, symmetric and transitive closure of a set of links. */
  ghost predicate Connected(links: Links, a: nat, b: nat)
  {
    exists path :: IsPath(links, path, a, b)
  }

  ghost function Examined(faces: seq<Face>, tol: Tolerance): Links
  {
    set i: nat, o: nat | i < |faces| && o < |faces| && Link(faces, tol, i, o) :: (i, o)
  }

  ghost function Intended(faces: seq<Face>, tol: Tolerance): Links
  {
    set i: nat, j: nat | i < |faces| && j < |faces| && Neighbours(faces, tol, i, j) :: (i, j)
  }

  lemma ConnectedRefl(links: Links, a: nat)
    ensures Connected(links, a, a)
  {
    assert IsPath(links, [a], a, a);
  }

  lemma ConnectedStep(links: Links, a: nat, b: nat)
    requires Adjacent(links, a, b)
    ensures Connected(links, a, b)
  {
    assert IsPath(links, [a, b], a, b);
  }

  lemma ConnectedTrans(links: Links, a: nat, b: nat, c: nat)
    requires Connected(links, a, b) && Connected(links, b, c)
    ensures Connected(links, a, c)
  {
    var p :| IsPath(links, p, a, b);
    var q :| IsPath(links, q, b, c);
    var r := p + q[1..];
    forall k | 0 <= k < |r| - 1
      ensures Adjacent(links, r[k], r[k + 1])
    {
      if k >= |p| - 1 {
        assert r[k] == q[k - (|p| - 1)] && r[k + 1] == q[k + 1 - (|p| - 1)];
      }
    }
    assert IsPath(links, r, a, c);
  }

  lemma ConnectedSym(links: Links, a: nat, b: nat)
    requires Connected(links, a, b)
    ensures Connected(links, b, a)
  {
    var p :| IsPath(links, p, a, b);
    var r := seq(|p|, k requires 0 <= k < |p| => p[|p| - 1 - k]);
    forall k | 0 <= k < |r| - 1
      ensures Adjacent(links, r[k], r[k + 1])
    {
      var m := |p| - 2 - k;
      assert Adjacent(links, p[m], p[m + 1]);
    }
    assert IsPath(links, r, b, a);
  }

  /** A labelling that every link respects is constant along every path. */
  lemma {:induction false} PathKeepsLabel(links: Links, path: seq<nat>, a: nat, b: nat, mark: seq<nat>)
    requires IsPath(links, path, a, b)
    requires forall u: nat, v: nat | (u, v) in links :: u < |mark| && v < |mark| && mark[u] == mark[v]
    requires a < |mark|
    ensures b < |mark| && mark[a] == mark[b]
    decreases |path|
  {
    if |path| > 1 {
      assert Adjacent(links, path[0], path[1]);
      var rest := path[1..];
      forall k | 0 <= k < |rest| - 1
        ensures Adjacent(links, rest[k], rest[k + 1])
      {
        assert Adjacent(links, path[k + 1], path[k + 2]);
      }
      PathKeepsLabel(links, rest, path[1], b, mark);
    }
  }

  /** Links that are each joined by other links add nothing to the closure. */
  lemma {:induction false} PathSimulated(links: Links, other: Links, path: seq<nat>, a: nat, b: nat)
    requires IsPath(links, path, a, b)
    requires forall u: nat, v: nat | (u, v) in links :: Connected(other, u, v)
    ensures Connected(other, a, b)
    decreases |path|
  {
    if |path| == 1 {
      ConnectedRefl(other, a);
    } else {
      var c := path[1];
      assert Adjacent(links, path[0], path[1]);
      if (a, c) !in links {
        ConnectedSym(other, c, a);
      }
      var rest := path[1..];
      forall k | 0 <= k < |rest| - 1
        ensures Adjacent(links, rest[k], rest[k + 1])
      {
        assert Adjacent(links, path[k + 1], path[k + 2]);
      }
      PathSimulated(links, other, rest, c, b);
      ConnectedTrans(other, a, c, b);
    }
  }

  // ---------------------------------------------------------------------------
  // The union-find forest
  // ---------------------------------------------------------------------------

  /** `root` labels every node with the end of its parent chain; `depth` falls along the chain. */
  ghost predicate Forest(parent: seq<nat>, root: seq<nat>, depth: seq<nat>)
  {
    && |root| == |parent| && |depth| == |parent|
    && (forall i {:trigger parent[i]} | 0 <= i < |parent| :: parent[i] < |parent|)
    && (forall i {:trigger root[i]} | 0 <= i < |parent| :: root[i] < |parent| && parent[root[i]] == root[i])
    && (forall i {:trigger parent[i]} | 0 <= i < |parent| :: root[parent[i]] == root[i])
    && (forall i {:trigger parent[i]} | 0 <= i < |parent| && parent[i] == i :: root[i] == i)
    && (forall i {:trigger parent[i]} | 0 <= i < |parent| && parent[i] != i :: depth[parent[i]] < depth[i])
  }

  /** The labelling is not a choice: the parent links alone decide every root. */
  lemma {:induction false} RootDetermined(parent: seq<nat>, root: seq<nat>, depth: seq<nat>,
                                          root': seq<nat>, depth': seq<nat>, i: nat)
    requires Forest(parent, root, depth) && Forest(parent, root', depth') && i < |parent|
    ensures root[i] == root'[i]
    decreases depth[i]
  {
    if parent[i] != i {
      RootDetermined(parent, root, depth, root', depth', parent[i]);
    }
  }

  lemma HalvingKeepsForest(parent: seq<nat>, root: seq<nat>, depth: seq<nat>, r: nat)
    requires Forest(parent, root, depth) && r < |parent| && parent[r] != r
    ensures parent[parent[r]] < |parent| && Forest(parent[r := parent[parent[r]]], root, depth)
    ensures root[parent[parent[r]]] == root[r] && depth[parent[parent[r]]] < depth[r]
  {
  }

  lemma GraftKeepsForest(parent: seq<nat>, root: seq<nat>, depth: seq<nat>, rb: nat, ra: nat)
    requires Forest(parent, root, depth) && ra < |parent| && rb < |parent| && ra != rb
    requires root[ra] == ra && root[rb] == rb
    ensures Forest(parent[rb := ra], Merged(root, rb, ra), Sunk(root, depth, rb, depth[ra]))
  {
  }

  /** Path halving: every root survives, whatever the halving rewires. */
  method Find(parent: array<nat>, index: nat, ghost root: seq<nat>, ghost depth: seq<nat>) returns (r: nat)
    requires index < parent.Length && Forest(parent[..], root, depth)
    modifies parent
    ensures Forest(parent[..], root, depth)
    ensures r == root[index]
  {
    r := index;
    while parent[r] != r
      invariant r < parent.Length && Forest(parent[..], root, depth)
      invariant root[r] == root[index]
      decreases depth[r]
    {
      HalvingKeepsForest(parent[..], root, depth, r);
      ghost var before := parent[..];
      parent[r] := parent[parent[r]];
      assert parent[..] == before[r := before[before[r]]];
      r := parent[r];
    }
    assert parent[..][r] == r;
  }

  ghost function Merged(root: seq<nat>, from: nat, into: nat): seq<nat>
  {
    seq(|root|, k requires 0 <= k < |root| => if root[k] == from then into else root[k])
  }

  ghost function Sunk(root: seq<nat>, depth: seq<nat>, from: nat, amount: nat): seq<nat>
    requires |root| == |depth|
  {
    seq(|root|, k requires 0 <= k < |root| => if root[k] == from then depth[k] + amount + 1 else depth[k])
  }

  method Union(parent: array<nat>, a: nat, b: nat, ghost root: seq<nat>, ghost depth: seq<nat>)
    returns (ghost root': seq<nat>, ghost depth': seq<nat>)
    requires a < parent.Length && b < parent.Length && Forest(parent[..], root, depth)
    modifies parent
    ensures Forest(parent[..], root', depth')
    ensures root' == Merged(root, root[b], root[a])
  {
    var ra := Find(parent, a, root, depth);
    var rb := Find(parent, b, root, depth);
    if ra != rb {
      ghost var before := parent[..];
      parent[rb] := ra;
      root', depth' := Merged(root, rb, ra), Sunk(root, depth, rb, depth[ra]);
      assert parent[..] == before[rb := ra];
      GraftKeepsForest(before, root, depth, rb, ra);
    } else {
      root', depth' := root, depth;
      assert root == Merged(root, rb, ra);
    }
  }

  /** The forest's labels are exactly the closure of the links processed so far. */
  ghost predicate Represents(root: seq<nat>, links: Links)
  {
    && (forall u: nat, v: nat | (u, v) in links :: u < |root| && v < |root| && root[u] == root[v])
    && (forall i | 0 <= i < |root| :: Connected(links, i, root[i]))
  }

  lemma RepresentsMeans(root: seq<nat>, links: Links, a: nat, b: nat)
    requires Represents(root, links) && a < |root| && b < |root|
    ensures root[a] == root[b] <==> Connected(links, a, b)
  {
    if root[a] == root[b] {
      ConnectedSym(links, b, root[b]);
      ConnectedTrans(links, a, root[a], b);
    }
    if Connected(links, a, b) {
      var path :| IsPath(links, path, a, b);
      PathKeepsLabel(links, path, a, b, root);
    }
  }

  lemma ConnectedGrows(links: Links, more: Links, a: nat, b: nat)
    requires links <= more && Connected(links, a, b)
    ensures Connected(more, a, b)
  {
    var p :| IsPath(links, p, a, b);
    assert forall k | 0 <= k < |p| - 1 :: Adjacent(links, p[k], p[k + 1]) ==> Adjacent(more, p[k], p[k + 1]);
    assert IsPath(more, p, a, b);
  }

  lemma MergeRepresents(root: seq<nat>, links: Links, a: nat, b: nat)
    requires Represents(root, links) && a < |root| && b < |root|
    ensures Represents(Merged(root, root[b], root[a]), links + {(a, b)})
  {
    var more := links + {(a, b)};
    var merged := Merged(root, root[b], root[a]);
    forall i | 0 <= i < |root|
      ensures Connected(more, i, merged[i])
    {
      ConnectedGrows(links, more, i, root[i]);
      if root[i] == root[b] {
        ConnectedGrows(links, more, b, root[b]);
        ConnectedSym(more, b, root[b]);
        ConnectedTrans(more, i, root[b], b);
        assert Adjacent(more, b, a);
        ConnectedStep(more, b, a);
        ConnectedTrans(more, i, b, a);
        ConnectedGrows(links, more, a, root[a]);
        ConnectedTrans(more, i, a, root[a]);
      }
    }
  }

  // ---------------------------------------------------------------------------
  // The pass over faces and edges
  // ---------------------------------------------------------------------------

  /** `seen` holds the first face on every edge met among faces before `index` and the first `k` edges of `index`. */
  ghost predicate FirstSeen(faces: seq<Face>, index: nat, k: nat, seen: map<EdgeKey, nat>)
    requires index < |faces| && k <= |faces[index].edges|
  {
    && (forall e | e in seen :: IsFirstOn(faces, seen[e], e) && seen[e] <= index)
    && (forall j, e | 0 <= j < index && e in faces[j].edges :: e in seen)
    && (forall m | 0 <= m < k :: faces[index].edges[m] in seen)
    && (forall e | e in seen && seen[e] == index :: e in faces[index].edges[..k])
  }

  /** The links contributed by faces before `index` and by the first `k` edges of `index`. */
  ghost predicate LinksUpTo(faces: seq<Face>, tol: Tolerance, index: nat, k: nat, links: Links)
    requires index < |faces| && k <= |faces[index].edges|
  {
    forall i: nat, o: nat :: (i, o) in links <==>
      || (i < index && Link(faces, tol, i, o))
      || (i == index && exists m | 0 <= m < k :: LinkVia(faces, tol, i, o, faces[index].edges[m]))
  }

  lemma NewEdge(faces: seq<Face>, tol: Tolerance, index: nat, k: nat, seen: map<EdgeKey, nat>, links: Links)
    requires index < |faces| && k < |faces[index].edges|
    requires FirstSeen(faces, index, k, seen) && LinksUpTo(faces, tol, index, k, links)
    requires faces[index].edges[k] !in seen
    ensures FirstSeen(faces, index, k + 1, seen[faces[index].edges[k] := index])
    ensures LinksUpTo(faces, tol, index, k + 1, links)
  {
    var edges := faces[index].edges;
    assert edges[..k + 1] == edges[..k] + [edges[k]];
    assert forall o: nat :: !LinkVia(faces, tol, index, o, edges[k]);
  }

  lemma SeenEdge(faces: seq<Face>, tol: Tolerance, index: nat, k: nat, seen: map<EdgeKey, nat>, links: Links)
    requires index < |faces| && k < |faces[index].edges|
    requires FirstSeen(faces, index, k, seen) && LinksUpTo(faces, tol, index, k, links)
    requires faces[index].edges[k] in seen
    ensures var other := seen[faces[index].edges[k]];
            && other <= index && FirstSeen(faces, index, k + 1, seen)
            && LinksUpTo(faces, tol, index, k + 1,
                         links + if other != index && Agree(faces[index], faces[other], tol) then {(index, other)} else {})
  {
    var edges := faces[index].edges;
    var key, other := edges[k], seen[edges[k]];
    assert edges[..k + 1] == edges[..k] + [key];
    assert forall o: nat :: LinkVia(faces, tol, index, o, key) <==>
                              o == other && other != index && Agree(faces[index], faces[other], tol);
  }

  method LinkFace(parent: array<nat>, faces: seq<Face>, tol: Tolerance, index: nat, seen: map<EdgeKey, nat>,
                  ghost links: Links, ghost root: seq<nat>, ghost depth: seq<nat>)
    returns (seen': map<EdgeKey, nat>, ghost links': Links, ghost root': seq<nat>, ghost depth': seq<nat>)
    requires parent.Length == |faces| && index < |faces|
    requires Forest(parent[..], root, depth) && Represents(root, links)
    requires FirstSeen(faces, index, 0, seen) && LinksUpTo(faces, tol, index, 0, links)
    modifies parent
    ensures Forest(parent[..], root', depth') && Represents(root', links')
    ensures FirstSeen(faces, index, |faces[index].edges|, seen')
    ensures LinksUpTo(faces, tol, index, |faces[index].edges|, links')
  {
    hide FirstSeen, LinksUpTo, Represents, Agree;
    seen', links', root', depth' := seen, links, root, depth;
    var edges := faces[index].edges;
    for k := 0 to |edges|
      invariant Forest(parent[..], root', depth') && Represents(root', links')
      invariant FirstSeen(faces, index, k, seen')
      invariant LinksUpTo(faces, tol, index, k, links')
    {
      var key := edges[k];
      if key !in seen' {
        NewEdge(faces, tol, index, k, seen', links');
        seen' := seen'[key := index];
      } else {
        SeenEdge(faces, tol, index, k, seen', links');
        var other := seen'[key];
        if Agree(faces[index], faces[other], tol) {
          ghost var before := root';
          root', depth' := Union(parent, index, other, root', depth');
          if other != index {
            MergeRepresents(before, links', index, other);
            links' := links' + {(index, other)};
          } else {
            // The face lists this edge twice; joining it with itself changes nothing.
            assert root' == before && links' == links' + {};
          }
        } else {
          assert links' == links' + {};
        }
      }
    }
  }

  ghost function AllLinks(faces: seq<Face>, tol: Tolerance, index: nat): Links
    requires index <= |faces|
  {
    set i: nat, o: nat | i < index && o < |faces| && Link(faces, tol, i, o) :: (i, o)
  }

  lemma FaceDone(faces: seq<Face>, tol: Tolerance, index: nat, links: Links)
    requires index < |faces| && LinksUpTo(faces, tol, index, |faces[index].edges|, links)
    ensures links == AllLinks(faces, tol, index + 1)
  {
    var edges := faces[index].edges;
    forall o: nat | Link(faces, tol, index, o)
      ensures exists m | 0 <= m < |edges| :: LinkVia(faces, tol, index, o, edges[m])
    {
      var e :| LinkVia(faces, tol, index, o, e);
      var m :| 0 <= m < |edges| && edges[m] == e;
    }
    forall i: nat, o: nat
      ensures (i, o) in links <==> i <= index && Link(faces, tol, i, o)
    {
      if i == index && (i, o) in links {
        var m :| 0 <= m < |edges| && LinkVia(faces, tol, i, o, edges[m]);
      }
    }
    assert forall i: nat, o: nat :: Link(faces, tol, i, o) ==> o < |faces|;
    forall x: (nat, nat)
      ensures x in links <==> x in AllLinks(faces, tol, index + 1)
    {
      var (i, o) := x;
    }
  }

  /** The whole union pass: afterwards the forest's labels are the closure of the examined links. */
  method LinkAll(parent: array<nat>, faces: seq<Face>, tol: Tolerance)
    returns (ghost root: seq<nat>, ghost depth: seq<nat>)
    requires parent.Length == |faces| && forall i | 0 <= i < |faces| :: parent[i] == i
    modifies parent
    ensures Forest(parent[..], root, depth) && Represents(root, Examined(faces, tol))
  {
    var n := |faces|;
    root := seq(n, i => i);
    depth := seq(n, i => 0);
    ghost var links: Links := {};
    assert Represents(root, links) by {
      forall i | 0 <= i < n ensures Connected(links, i, root[i]) { ConnectedRefl(links, i); }
    }
    var seen: map<EdgeKey, nat> := map[];
    for index := 0 to n
      invariant Forest(parent[..], root, depth) && Represents(root, links)
      invariant links == AllLinks(faces, tol, index)
      invariant forall e | e in seen :: IsFirstOn(faces, seen[e], e) && seen[e] < index
      invariant forall j, e | 0 <= j < index && e in faces[j].edges :: e in seen
    {
      seen, links, root, depth := LinkFace(parent, faces, tol, index, seen, links, root, depth);
      FaceDone(faces, tol, index, links);
    }
    assert links == Examined(faces, tol);
  }

  // ---------------------------------------------------------------------------
  // Groups and their areas
  // ---------------------------------------------------------------------------

  /** The faces before `n` labelled `r`, in index order. */
  ghost function Members(root: seq<nat>, r: nat, n: nat): (s: seq<nat>)
    requires n <= |root|
    ensures forall k | 0 <= k < |s| :: s[k] < n
  {
    if n == 0 then [] else Members(root, r, n - 1) + if root[n - 1] == r then [n - 1] else []
  }

  /** The list is ascending and holds exactly the faces with that label. */
  lemma {:induction false} MembersExact(root: seq<nat>, r: nat, n: nat)
    requires n <= |root|
    ensures var s := Members(root, r, n);
            && (forall i: nat :: i in s <==> i < n && root[i] == r)
            && (forall j, k | 0 <= j < k < |s| :: s[j] < s[k])
  {
    if n > 0 { MembersExact(root, r, n - 1); }
  }

  predicate Indexes(faces: seq<Face>, members: seq<nat>)
  {
    forall k | 0 <= k < |members| :: members[k] < |faces|
  }

  function SumArea(faces: seq<Face>, members: seq<nat>): real
    requires Indexes(faces, members)
  {
    if members == [] then 0.0
    else SumArea(faces, members[..|members| - 1]) + faces[members[|members| - 1]].area
  }

  function TotalArea(faces: seq<Face>, n: nat): real
    requires n <= |faces|
  {
    if n == 0 then 0.0 else TotalArea(faces, n - 1) + faces[n - 1].area
  }

  /** The area of every group listed in `order`. */
  ghost function GroupArea(faces: seq<Face>, root: seq<nat>, order: seq<nat>, n: nat): real
    requires n <= |root| == |faces|
  {
    if order == [] then 0.0
    else GroupArea(faces, root, order[..|order| - 1], n) + SumArea(faces, Members(root, order[|order| - 1], n))
  }

  ghost predicate Distinct(s: seq<nat>)
  {
    forall i, j | 0 <= i < j < |s| :: s[i] != s[j]
  }

  lemma MembersOfNextFace(faces: seq<Face>, root: seq<nat>, r: nat, n: nat)
    requires n < |root| == |faces|
    ensures SumArea(faces, Members(root, r, n + 1))
         == SumArea(faces, Members(root, r, n)) + if root[n] == r then faces[n].area else 0.0
  {
    var before := Members(root, r, n);
    if root[n] == r {
      assert Members(root, r, n + 1) == before + [n];
      assert (before + [n])[..|before|] == before;
    } else {
      assert Members(root, r, n + 1) == before;
    }
  }

  lemma {:induction false} AreaOfNextFace(faces: seq<Face>, root: seq<nat>, order: seq<nat>, n: nat)
    requires n < |root| == |faces| && Distinct(order)
    ensures GroupArea(faces, root, order, n + 1)
         == GroupArea(faces, root, order, n) + if root[n] in order then faces[n].area else 0.0
  {
    if order != [] {
      var rest, r := order[..|order| - 1], order[|order| - 1];
      AreaOfNextFace(faces, root, rest, n);
      MembersOfNextFace(faces, root, r, n);
      assert root[n] in order <==> root[n] in rest || root[n] == r;
      assert root[n] in rest ==> root[n] != r;
    }
  }

  lemma {:induction false} NewGroupIsEmpty(root: seq<nat>, r: nat, n: nat)
    requires n <= |root| && forall i | 0 <= i < n :: root[i] != r
    ensures Members(root, r, n) == []
  {
    if n > 0 { NewGroupIsEmpty(root, r, n - 1); }
  }

  /** The dict after the first `n` faces: its keys in the order met, and each key's members. */
  ghost predicate Keyed(root: seq<nat>, order: seq<nat>, grouped: map<nat, seq<nat>>, n: nat)
    requires n <= |root|
  {
    && Distinct(order) && (forall r :: r in order <==> r in grouped)
    && (forall i | 0 <= i < n :: root[i] in grouped)
    && (forall r | r in grouped :: grouped[r] != [] && grouped[r] == Members(root, r, n))
  }

  lemma MembersNext(root: seq<nat>, r: nat, n: nat)
    requires n < |root|
    ensures Members(root, r, n + 1) == Members(root, r, n) + if root[n] == r then [n] else []
  {
  }

  lemma KeyedOld(root: seq<nat>, order: seq<nat>, grouped: map<nat, seq<nat>>, n: nat)
    requires n < |root| && Keyed(root, order, grouped, n) && root[n] in grouped
    ensures Keyed(root, order, grouped[root[n] := grouped[root[n]] + [n]], n + 1)
  {
    var grouped' := grouped[root[n] := grouped[root[n]] + [n]];
    forall r | r in grouped'
      ensures grouped'[r] != [] && grouped'[r] == Members(root, r, n + 1)
    {
      MembersNext(root, r, n);
    }
  }

  lemma KeyedNew(root: seq<nat>, order: seq<nat>, grouped: map<nat, seq<nat>>, n: nat)
    requires n < |root| && Keyed(root, order, grouped, n) && root[n] !in grouped
    ensures Keyed(root, order + [root[n]], grouped[root[n] := [n]], n + 1)
  {
    hide Members;
    var order', grouped' := order + [root[n]], grouped[root[n] := [n]];
    NewGroupIsEmpty(root, root[n], n);
    assert forall r :: r in order' <==> r in order || r == root[n];
    forall r | r in grouped'
      ensures grouped'[r] != [] && grouped'[r] == Members(root, r, n + 1)
    {
      MembersNext(root, r, n);
    }
  }

  lemma CollectOld(faces: seq<Face>, root: seq<nat>, order: seq<nat>, grouped: map<nat, seq<nat>>, n: nat)
    requires n < |root| == |faces| && Keyed(root, order, grouped, n) && root[n] in grouped
    ensures Keyed(root, order, grouped[root[n] := grouped[root[n]] + [n]], n + 1)
    ensures GroupArea(faces, root, order, n + 1) == GroupArea(faces, root, order, n) + faces[n].area
  {
    KeyedOld(root, order, grouped, n);
    AreaOfNextFace(faces, root, order, n);
  }

  lemma CollectNew(faces: seq<Face>, root: seq<nat>, order: seq<nat>, grouped: map<nat, seq<nat>>, n: nat)
    requires n < |root| == |faces| && Keyed(root, order, grouped, n) && root[n] !in grouped
    ensures Keyed(root, order + [root[n]], grouped[root[n] := [n]], n + 1)
    ensures GroupArea(faces, root, order + [root[n]], n + 1) == GroupArea(faces, root, order, n) + faces[n].area
  {
    KeyedNew(root, order, grouped, n);
    AreaWithNewKey(faces, root, order, n);
  }

  lemma AreaWithNewKey(faces: seq<Face>, root: seq<nat>, order: seq<nat>, n: nat)
    requires n < |root| == |faces| && Distinct(order) && root[n] !in order
    requires forall i | 0 <= i < n :: root[i] != root[n]
    ensures GroupArea(faces, root, order + [root[n]], n + 1) == GroupArea(faces, root, order, n) + faces[n].area
  {
    NewGroupIsEmpty(root, root[n], n);
    assert (order + [root[n]])[..|order|] == order;
    AreaOfNextFace(faces, root, order + [root[n]], n);
  }

  lemma NothingCollected(faces: seq<Face>, root: seq<nat>)
    requires |root| == |faces|
    ensures Keyed(root, [], map[], 0) && GroupArea(faces, root, [], 0) == TotalArea(faces, 0)
  {
  }

  lemma NextTotal(faces: seq<Face>, n: nat)
    requires n < |faces|
    ensures TotalArea(faces, n + 1) == TotalArea(faces, n) + faces[n].area
  {
  }

  method CollectOne(parent: array<nat>, faces: seq<Face>, ghost root: seq<nat>, ghost depth: seq<nat>, index: nat,
                    order: seq<nat>, grouped: map<nat, seq<nat>>)
    returns (order': seq<nat>, grouped': map<nat, seq<nat>>)
    requires parent.Length == |faces| == |root| && index < |faces| && Forest(parent[..], root, depth)
    requires Keyed(root, order, grouped, index)
    requires GroupArea(faces, root, order, index) == TotalArea(faces, index)
    modifies parent
    ensures Forest(parent[..], root, depth) && Keyed(root, order', grouped', index + 1)
    ensures GroupArea(faces, root, order', index + 1) == TotalArea(faces, index + 1)
  {
    hide *;
    NextTotal(faces, index);
    var r := Find(parent, index, root, depth);
    if r in grouped {
      CollectOld(faces, root, order, grouped, index);
      order', grouped' := order, grouped[r := grouped[r] + [index]];
    } else {
      CollectNew(faces, root, order, grouped, index);
      order', grouped' := order + [r], grouped[r := [index]];
    }
  }

  /** The grouping loop. `order` lists the group keys as they are first met. */
  method Collect(parent: array<nat>, faces: seq<Face>, ghost root: seq<nat>, ghost depth: seq<nat>)
    returns (order: seq<nat>, grouped: map<nat, seq<nat>>)
    requires parent.Length == |faces| == |root| && Forest(parent[..], root, depth)
    modifies parent
    ensures Keyed(root, order, grouped, |faces|)
    ensures GroupArea(faces, root, order, |faces|) == TotalArea(faces, |faces|)
  {
    hide *;
    order, grouped := [], map[];
    NothingCollected(faces, root);
    for index := 0 to |faces|
      invariant Forest(parent[..], root, depth)
      invariant Keyed(root, order, grouped, index)
      invariant GroupArea(faces, root, order, index) == TotalArea(faces, index)
    {
      order, grouped := CollectOne(parent, faces, root, depth, index, order, grouped);
    }
  }

  /** Groups the first `MAX_FACES` faces. Two faces fall in one group exactly when the examined links connect them. */
  method GroupFaces(all: seq<Face>, tol: Tolerance)
    returns (faces: seq<Face>, order: seq<nat>, grouped: map<nat, seq<nat>>, ghost root: seq<nat>)
    ensures faces == if |all| > MAX_FACES then all[..MAX_FACES] else all
    ensures |root| == |faces|
    ensures forall a: nat, b: nat | a < |faces| && b < |faces| ::
              root[a] == root[b] <==> Connected(Examined(faces, tol), a, b)
    ensures Keyed(root, order, grouped, |faces|)
    ensures GroupArea(faces, root, order, |faces|) == TotalArea(faces, |faces|)
  {
    faces := if |all| > MAX_FACES then all[..MAX_FACES] else all;
    var parent := new nat[|faces|](i => i);
    ghost var depth;
    root, depth := LinkAll(parent, faces, tol);
    ghost var examined := Examined(faces, tol);
    forall a: nat, b: nat | a < |faces| && b < |faces|
      ensures root[a] == root[b] <==> Connected(examined, a, b)
    {
      RepresentsMeans(root, examined, a, b);
    }
    order, grouped := Collect(parent, faces, root, depth);
  }

  // ---------------------------------------------------------------------------
  // What the tolerances mean
  // ---------------------------------------------------------------------------

  function Product(a: Vec, b: Vec): real
  {
    a.x * b.x + a.y * b.y + a.z * b.z
  }

  /** The normals are within the angle, and the planes within the distance, of the tolerance. */
  predicate Close(f: Face, g: Face, tol: Tolerance)
  {
    && tol.cosine <= Product(f.normal, g.normal)
    && Product(f.normal, f.centre) - Product(g.normal, g.centre) <= tol.plane
    && Product(g.normal, g.centre) - Product(f.normal, f.centre) <= tol.plane
  }

  ghost predicate ShareAnEdge(f: Face, g: Face)
  {
    exists e :: e in f.edges && e in g.edges
  }

  /** A way to another face starts with a link. */
  lemma FirstStep(links: Links, b: nat) returns (a: nat)
    requires Connected(links, 0, b) && b != 0
    ensures Adjacent(links, 0, a)
  {
    var path :| IsPath(links, path, 0, b);
    a := path[1];
    assert Adjacent(links, path[0], path[1]);
  }

  /** Two faces fall in one group exactly when they share an edge, their normals are within the angle, and their planes within
      the distance. */
  lemma HingeIsOneGroupExactlyWhen(f: Face, g: Face, tol: Tolerance)
    ensures Connected(Examined([f, g], tol), 0, 1) <==> ShareAnEdge(f, g) && Close(f, g, tol)
  {
    var faces, links := [f, g], Examined([f, g], tol);
    assert Product(f.normal, g.normal) == Product(g.normal, f.normal);
    if ShareAnEdge(f, g) && Close(f, g, tol) {
      var e :| e in f.edges && e in g.edges;
      assert IsFirstOn(faces, 0, e);
      assert LinkVia(faces, tol, 1, 0, e);
      assert Adjacent(links, 0, 1);
      ConnectedStep(links, 0, 1);
    }
    if Connected(links, 0, 1) {
      var a := FirstStep(links, 1);
      var i: nat, o: nat := if (a, 0) in links then a else 0, if (a, 0) in links then 0 else a;
      var e :| LinkVia(faces, tol, i, o, e);
      assert faces[i] == g && faces[o] == f;
    }
  }

  /** So it comes to the partition: whatever numbers stand for the groups. */
  lemma HingeRoots(f: Face, g: Face, tol: Tolerance, root: seq<nat>)
    requires |root| == 2
    requires forall a: nat, b: nat | a < 2 && b < 2 :: root[a] == root[b] <==> Connected(Examined([f, g], tol), a, b)
    ensures root[0] == root[1] <==> ShareAnEdge(f, g) && Close(f, g, tol)
  {
    HingeIsOneGroupExactlyWhen(f, g, tol);
  }

  /** Folded about a common edge without being moved apart, two faces are one region exactly up to the angle. */
  lemma FoldedExactlyUpToTheAngle(f: Face, g: Face, tol: Tolerance, root: seq<nat>)
    requires |root| == 2 && ShareAnEdge(f, g) && tol.plane >= 0.0
    requires forall a: nat, b: nat | a < 2 && b < 2 :: root[a] == root[b] <==> Connected(Examined([f, g], tol), a, b)
    requires Product(f.normal, f.centre) == Product(g.normal, g.centre)
    ensures root[0] == root[1] <==> Product(f.normal, g.normal) >= tol.cosine
  {
    HingeRoots(f, g, tol, root);
  }

  /** Moved apart along their one unit normal, exactly up to the distance. */
  lemma ShiftedExactlyUpToTheDistance(f: Face, g: Face, tol: Tolerance, root: seq<nat>)
    requires |root| == 2 && ShareAnEdge(f, g) && tol.cosine <= 1.0
    requires forall a: nat, b: nat | a < 2 && b < 2 :: root[a] == root[b] <==> Connected(Examined([f, g], tol), a, b)
    requires f.normal == g.normal && Product(f.normal, f.normal) == 1.0
    ensures var apart := Product(f.normal, f.centre) - Product(g.normal, g.centre);
            root[0] == root[1] <==> -tol.plane <= apart <= tol.plane
  {
    HingeRoots(f, g, tol, root);
  }

  /** In any mesh, a face is linked to the first face on an edge of its own exactly when the two are close. */
  lemma LinkedExactlyWhenClose(faces: seq<Face>, tol: Tolerance, i: nat, o: nat)
    ensures (i, o) in Examined(faces, tol) <==>
              && o < i < |faces| && Close(faces[i], faces[o], tol)
              && exists e :: e in faces[i].edges && IsFirstOn(faces, o, e)
  {
    if o < i < |faces| && Close(faces[i], faces[o], tol) && exists e :: e in faces[i].edges && IsFirstOn(faces, o, e) {
      var e :| e in faces[i].edges && IsFirstOn(faces, o, e);
      assert LinkVia(faces, tol, i, o, e);
    }
  }

  /** One mounting region, before it is classified and framed. */
  datatype Region = Region(members: seq<nat>, area: real, normal: Vec, centre: Vec)

  function WeightedNormal(faces: seq<Face>, members: seq<nat>): Vec
    requires Indexes(faces, members)
  {
    if members == [] then Vec(0.0, 0.0, 0.0)
    else var last := members[|members| - 1];
      WeightedNormal(faces, members[..|members| - 1]).Plus(faces[last].normal.Scale(faces[last].area))
  }

  function WeightedCentre(faces: seq<Face>, members: seq<nat>): Vec
    requires Indexes(faces, members)
  {
    if members == [] then Vec(0.0, 0.0, 0.0)
    else var last := members[|members| - 1];
      WeightedCentre(faces, members[..|members| - 1]).Plus(faces[last].centre.Scale(faces[last].area))
  }

  /** A region's point is its faces' mean centre and its normal their sum, both weighted by area. */
  ghost predicate Measured(faces: seq<Face>, g: Region)
  {
    && g.area > 0.0 && Indexes(faces, g.members) && g.area == SumArea(faces, g.members)
    && g.normal == WeightedNormal(faces, g.members) && !Cancels(faces, g.members)
    && g.centre == WeightedCentre(faces, g.members).Scale(1.0 / g.area)
  }

  /** A summed normal shorter than 1e-9 says nothing about a direction. */
  predicate Cancels(faces: seq<Face>, members: seq<nat>)
    requires Indexes(faces, members)
  {
    var normal := WeightedNormal(faces, members);
    normal.Dot(normal) < 0.000000000000000001
  }

  /** How far a group's faces go one way along `n` rather than the other, each by its area. */
  ghost function Net(faces: seq<Face>, way: seq<real>, members: seq<nat>): real
    requires Indexes(faces, members) && |way| == |faces|
  {
    if members == [] then 0.0
    else
      var last := members[|members| - 1];
      Net(faces, way, members[..|members| - 1]) + way[last] * faces[last].area
  }

  lemma {:induction false} NetIsTheNormal(faces: seq<Face>, n: Vec, way: seq<real>, members: seq<nat>)
    requires Indexes(faces, members) && |way| == |faces|
    requires forall i | i in members :: faces[i].normal == n.Scale(way[i])
    ensures WeightedNormal(faces, members) == n.Scale(Net(faces, way, members))
  {
    if members == [] {
      NoneAtAll(n);
    } else {
      var front, last := members[..|members| - 1], members[|members| - 1];
      NetIsTheNormal(faces, n, way, front);
      assert last in members;
      var a, k, b := Net(faces, way, front), way[last], faces[last].area;
      assert WeightedNormal(faces, members) == WeightedNormal(faces, front).Plus(faces[last].normal.Scale(b));
      assert WeightedNormal(faces, front) == n.Scale(a);
      assert faces[last].normal == n.Scale(k);
      assert WeightedNormal(faces, members) == n.Scale(a).Plus(n.Scale(k).Scale(b));
      Adds(n, a, k, b);
      assert n.Scale(a).Plus(n.Scale(k).Scale(b)) == n.Scale(a + k * b);
      assert Net(faces, way, members) == a + k * b;
    }
  }

  lemma NoneAtAll(n: Vec)
    ensures n.Scale(0.0) == Vec(0.0, 0.0, 0.0)
  {
  }

  lemma Adds(n: Vec, a: real, k: real, b: real)
    ensures n.Scale(a).Plus(n.Scale(k).Scale(b)) == n.Scale(a + k * b)
  {
    assert n.x * a + n.x * k * b == n.x * (a + k * b);
    assert n.y * a + n.y * k * b == n.y * (a + k * b);
    assert n.z * a + n.z * k * b == n.z * (a + k * b);
  }

  /** Faces that all lie along one direction, each one way or the other, are dropped from a report exactly when what faces the one
      way and what faces the other are as good as equal; a flat region that faces one way never is, unless it has no area. */
  lemma CancelsExactlyWhenBalanced(faces: seq<Face>, n: Vec, way: seq<real>, members: seq<nat>)
    requires Indexes(faces, members) && |way| == |faces| && n.Dot(n) == 1.0
    requires forall i | i in members :: faces[i].normal == n.Scale(way[i])
    ensures Cancels(faces, members) <==> -0.000000001 < Net(faces, way, members) < 0.000000001
    ensures (forall i | i in members :: way[i] == 1.0) ==> Net(faces, way, members) == SumArea(faces, members)
  {
    if forall i | i in members :: way[i] == 1.0 { OneWay(faces, way, members); }
    NetIsTheNormal(faces, n, way, members);
    CancelsAlong(faces, n, Net(faces, way, members), members);
  }

  lemma CancelsAlong(faces: seq<Face>, n: Vec, k: real, members: seq<nat>)
    requires Indexes(faces, members) && n.Dot(n) == 1.0 && WeightedNormal(faces, members) == n.Scale(k)
    ensures Cancels(faces, members) <==> -0.000000001 < k < 0.000000001
  {
    UnitSquare(n, k);
    var square := n.Scale(k).Dot(n.Scale(k));
    assert Cancels(faces, members) <==> square < 0.000000000000000001;
    hide *;
    Tiny(k);
  }

  lemma UnitSquare(n: Vec, k: real)
    requires n.Dot(n) == 1.0
    ensures n.Scale(k).Dot(n.Scale(k)) == k * k
  {
    var m := n.Scale(k);
    assert m.x * m.x == k * k * (n.x * n.x) && m.y * m.y == k * k * (n.y * n.y) && m.z * m.z == k * k * (n.z * n.z);
    assert k * k * (n.x * n.x) + k * k * (n.y * n.y) + k * k * (n.z * n.z) == k * k * n.Dot(n);
  }

  lemma Tiny(k: real)
    ensures k * k < 0.000000000000000001 <==> -0.000000001 < k < 0.000000001
  {
    var size := if k < 0.0 then -k else k;
    var bound := 0.000000001;
    assert k * k == size * size && bound * bound == 0.000000000000000001;
    if size < bound { assert size * size <= size * bound < bound * bound; }
    else { assert size * size >= bound * size >= bound * bound; }
  }

  lemma {:induction false} OneWay(faces: seq<Face>, way: seq<real>, members: seq<nat>)
    requires Indexes(faces, members) && |way| == |faces| && forall i | i in members :: way[i] == 1.0
    ensures Net(faces, way, members) == SumArea(faces, members)
  {
    if members != [] { OneWay(faces, way, members[..|members| - 1]); }
  }

  /** Along any direction, a region's centre lies between the centres of its faces. */
  lemma CentreLiesAmong(faces: seq<Face>, members: seq<nat>, d: Vec, lo: real, hi: real)
    requires Indexes(faces, members) && SumArea(faces, members) > 0.0
    requires forall i | i in members :: faces[i].area >= 0.0 && lo <= faces[i].centre.Dot(d) <= hi
    ensures lo <= WeightedCentre(faces, members).Scale(1.0 / SumArea(faces, members)).Dot(d) <= hi
  {
    CentreSums(faces, members, d, lo, hi);
    hide WeightedCentre, SumArea;
    Shrunk(WeightedCentre(faces, members), d, SumArea(faces, members), lo, hi);
  }

  lemma Shrunk(c: Vec, d: Vec, area: real, lo: real, hi: real)
    requires area > 0.0 && lo * area <= c.Dot(d) <= hi * area
    ensures lo <= c.Scale(1.0 / area).Dot(d) <= hi
  {
    var k := 1.0 / area;
    DotScales(c, d, k);
    assert k * area == 1.0 && k > 0.0;
    var dot := c.Dot(d);
    hide Vec.Dot, Vec.Scale;
    assert k * (lo * area) <= k * dot <= k * (hi * area);
    assert k * (lo * area) == lo * (k * area) && k * (hi * area) == hi * (k * area);
  }

  lemma DotScales(c: Vec, d: Vec, k: real)
    ensures c.Scale(k).Dot(d) == k * c.Dot(d)
  {
    assert c.x * k * d.x == k * (c.x * d.x) && c.y * k * d.y == k * (c.y * d.y) && c.z * k * d.z == k * (c.z * d.z);
    assert k * c.Dot(d) == k * (c.x * d.x) + k * (c.y * d.y) + k * (c.z * d.z);
  }

  lemma DotAdds(a: Vec, b: Vec, d: Vec)
    ensures a.Plus(b).Dot(d) == a.Dot(d) + b.Dot(d)
  {
    assert (a.x + b.x) * d.x == a.x * d.x + b.x * d.x;
    assert (a.y + b.y) * d.y == a.y * d.y + b.y * d.y;
    assert (a.z + b.z) * d.z == a.z * d.z + b.z * d.z;
  }

  lemma {:induction false} CentreSums(faces: seq<Face>, members: seq<nat>, d: Vec, lo: real, hi: real)
    requires Indexes(faces, members)
    requires forall i | i in members :: faces[i].area >= 0.0 && lo <= faces[i].centre.Dot(d) <= hi
    ensures lo * SumArea(faces, members) <= WeightedCentre(faces, members).Dot(d) <= hi * SumArea(faces, members)
  {
    hide Vec.Dot;
    if members == [] {
      NoneBetween(d, lo, hi);
    } else {
      CentreNext(faces, members, d);
      hide SumArea, WeightedCentre;
      var front, f := members[..|members| - 1], faces[members[|members| - 1]];
      assert members[|members| - 1] in members;
      CentreSums(faces, front, d, lo, hi);
      OneMoreBetween(lo, hi, SumArea(faces, front), f.area, WeightedCentre(faces, front).Dot(d), f.centre.Dot(d));
    }
  }

  lemma NoneBetween(d: Vec, lo: real, hi: real)
    ensures lo * 0.0 <= Vec(0.0, 0.0, 0.0).Dot(d) <= hi * 0.0
  {
  }

  lemma CentreNext(faces: seq<Face>, members: seq<nat>, d: Vec)
    requires Indexes(faces, members) && members != []
    ensures var front, f := members[..|members| - 1], faces[members[|members| - 1]];
            && WeightedCentre(faces, members).Dot(d) == WeightedCentre(faces, front).Dot(d) + f.area * f.centre.Dot(d)
            && SumArea(faces, members) == SumArea(faces, front) + f.area
  {
    var front, f := members[..|members| - 1], faces[members[|members| - 1]];
    assert WeightedCentre(faces, members) == WeightedCentre(faces, front).Plus(f.centre.Scale(f.area));
    hide WeightedCentre;
    DotAdds(WeightedCentre(faces, front), f.centre.Scale(f.area), d);
    DotScales(f.centre, d, f.area);
    hide Vec.Dot, Vec.Plus, Vec.Scale;
  }

  lemma OneMoreBetween(lo: real, hi: real, sum: real, area: real, all: real, along: real)
    requires lo * sum <= all <= hi * sum && area >= 0.0 && lo <= along <= hi
    ensures lo * (sum + area) <= all + area * along <= hi * (sum + area)
  {
    assert area * lo <= area * along <= area * hi;
    assert lo * (sum + area) == lo * sum + area * lo && hi * (sum + area) == hi * sum + area * hi;
  }

  /** Area in groups whose weighted normal cancels out: the only area a report can lose. */
  ghost function CancelledArea(faces: seq<Face>, root: seq<nat>, order: seq<nat>): real
    requires |root| == |faces|
  {
    if order == [] then 0.0
    else
      var members := Members(root, order[|order| - 1], |faces|);
      CancelledArea(faces, root, order[..|order| - 1])
      + if SumArea(faces, members) > 0.0 && Cancels(faces, members) then SumArea(faces, members) else 0.0
  }

  function RegionArea(regions: seq<Region>): real
  {
    if regions == [] then 0.0 else RegionArea(regions[..|regions| - 1]) + regions[|regions| - 1].area
  }

  lemma {:induction false} AreaNotNegative(faces: seq<Face>, members: seq<nat>)
    requires Indexes(faces, members)
    requires forall i | 0 <= i < |faces| :: faces[i].area >= 0.0
    ensures SumArea(faces, members) >= 0.0
  {
    if members != [] { AreaNotNegative(faces, members[..|members| - 1]); }
  }

  /** One group's sums. */
  method Measure(faces: seq<Face>, members: seq<nat>) returns (area: real, normal: Vec, centre: Vec)
    requires Indexes(faces, members)
    ensures area == SumArea(faces, members) && normal == WeightedNormal(faces, members)
    ensures centre == WeightedCentre(faces, members)
  {
    area, normal, centre := 0.0, Vec(0.0, 0.0, 0.0), Vec(0.0, 0.0, 0.0);
    for m := 0 to |members|
      invariant area == SumArea(faces, members[..m]) && normal == WeightedNormal(faces, members[..m])
      invariant centre == WeightedCentre(faces, members[..m])
    {
      assert members[..m + 1][..m] == members[..m];
      var face := faces[members[m]];
      area, normal, centre :=
        area + face.area, normal.Plus(face.normal.Scale(face.area)), centre.Plus(face.centre.Scale(face.area));
    }
    assert members[..|members|] == members;
  }

  ghost predicate Tells(regions: seq<Region>, members: seq<nat>)
  {
    exists g :: g in regions && g.members == members
  }

  /** A group that is reported: it has an area, and a direction. */
  ghost predicate Worth(faces: seq<Face>, members: seq<nat>)
  {
    Indexes(faces, members) && SumArea(faces, members) > 0.0 && !Cancels(faces, members)
  }

  /** Turns groups into regions. No area is lost except in groups whose weighted normal cancels. */
  method Emit(faces: seq<Face>, order: seq<nat>, grouped: map<nat, seq<nat>>, ghost root: seq<nat>)
    returns (regions: seq<Region>)
    requires |root| == |faces| && (forall i | 0 <= i < |faces| :: faces[i].area >= 0.0)
    requires forall r | r in order :: r in grouped && grouped[r] == Members(root, r, |faces|)
    ensures forall g | g in regions :: Measured(faces, g) && exists r :: r in order && g.members == grouped[r]
    ensures forall r | r in order :: Tells(regions, grouped[r]) <==> Worth(faces, grouped[r])
    ensures RegionArea(regions) + CancelledArea(faces, root, order) == GroupArea(faces, root, order, |faces|)
  {
    hide WeightedNormal, WeightedCentre, SumArea, Members, Tells, RegionArea;
    regions := [];
    NoneTell();
    for k := 0 to |order|
      invariant forall g | g in regions :: Measured(faces, g) && exists r :: r in order && g.members == grouped[r]
      invariant forall r | r in order[..k] && Worth(faces, grouped[r]) :: Tells(regions, grouped[r])
      invariant RegionArea(regions) + CancelledArea(faces, root, order[..k])
             == GroupArea(faces, root, order[..k], |faces|)
    {
      var members := grouped[order[k]];
      assert order[..k + 1][..k] == order[..k];
      var area, normal, centre := Measure(faces, members);
      AreaNotNegative(faces, members);
      if area > 0.0 && normal.Dot(normal) >= 0.000000000000000001 {
        var region := Region(members, area, normal, centre.Scale(1.0 / area));
        OneMoreTells(regions, region);
        regions := regions + [region];
      }
    }
    assert order[..|order|] == order;
    TellsTheMeasured(faces, regions);
  }

  lemma NoneTell()
    ensures RegionArea([]) == 0.0
  {
  }

  lemma OneMoreTells(before: seq<Region>, region: Region)
    ensures RegionArea(before + [region]) == RegionArea(before) + region.area
    ensures forall m | Tells(before, m) || m == region.members :: Tells(before + [region], m)
  {
    assert (before + [region])[..|before|] == before;
    assert region in before + [region] && forall g | g in before :: g in before + [region];
  }

  lemma TellsTheMeasured(faces: seq<Face>, regions: seq<Region>)
    requires forall g | g in regions :: Measured(faces, g)
    ensures forall members | Tells(regions, members) :: Worth(faces, members)
  {
  }

  // ---------------------------------------------------------------------------
  // When the examined links mean "shares an edge and agrees"
  // ---------------------------------------------------------------------------

  lemma AgreeSymmetric(f: Face, g: Face, tol: Tolerance)
    ensures Agree(f, g, tol) <==> Agree(g, f, tol)
  {
    assert f.normal.Dot(g.normal) == g.normal.Dot(f.normal);
  }

  /** Every two faces that meet on an edge meet on one whose first face is the earlier of the two. */
  ghost predicate Covered(faces: seq<Face>)
  {
    forall i, j, e | 0 <= i < j < |faces| && e in faces[i].edges && e in faces[j].edges ::
      exists d :: IsFirstOn(faces, i, d) && d in faces[j].edges
  }

  ghost predicate AtMostTwoFacesPerEdge(faces: seq<Face>)
  {
    forall i, j, k, e | 0 <= i < j < k < |faces| && e in faces[i].edges && e in faces[j].edges :: e !in faces[k].edges
  }

  lemma ManifoldIsCovered(faces: seq<Face>)
    requires AtMostTwoFacesPerEdge(faces)
    ensures Covered(faces)
  {
    forall i, j, e | 0 <= i < j < |faces| && e in faces[i].edges && e in faces[j].edges
      ensures exists d :: IsFirstOn(faces, i, d) && d in faces[j].edges
    {
      assert IsFirstOn(faces, i, e);
    }
  }

  /** On covered faces the groups are what the source describes. */
  lemma CoveredMeansIntended(faces: seq<Face>, tol: Tolerance, a: nat, b: nat)
    requires Covered(faces)
    ensures Connected(Examined(faces, tol), a, b) <==> Connected(Intended(faces, tol), a, b)
  {
    var examined, intended := Examined(faces, tol), Intended(faces, tol);
    if Connected(examined, a, b) {
      assert forall i: nat, o: nat | (i, o) in examined :: Neighbours(faces, tol, i, o);
      ConnectedGrows(examined, intended, a, b);
    }
    if Connected(intended, a, b) {
      forall u: nat, v: nat | (u, v) in intended
        ensures Connected(examined, u, v)
      {
        NeighboursAreLinked(faces, tol, u, v);
      }
      var path :| IsPath(intended, path, a, b);
      PathSimulated(intended, examined, path, a, b);
    }
  }

  lemma NeighboursAreLinked(faces: seq<Face>, tol: Tolerance, u: nat, v: nat)
    requires Covered(faces) && Neighbours(faces, tol, u, v)
    ensures Connected(Examined(faces, tol), u, v)
  {
    var examined := Examined(faces, tol);
    AgreeSymmetric(faces[u], faces[v], tol);
    var e :| e in faces[u].edges && e in faces[v].edges;
    if u == v {
      ConnectedRefl(examined, u);
    } else if u < v {
      var d :| IsFirstOn(faces, u, d) && d in faces[v].edges;
      assert LinkVia(faces, tol, v, u, d);
      assert Adjacent(examined, u, v);
      ConnectedStep(examined, u, v);
    } else {
      var d :| IsFirstOn(faces, v, d) && d in faces[u].edges;
      assert LinkVia(faces, tol, u, v, d);
      assert Adjacent(examined, u, v);
      ConnectedStep(examined, u, v);
    }
  }

  lemma NoLinksNoPath(a: nat, b: nat)
    requires a != b
    ensures !Connected({}, a, b)
  {
    forall path: seq<nat>
      ensures !IsPath({}, path, a, b)
    {
      if |path| > 1 { assert !Adjacent({}, path[0], path[1]); }
    }
  }

  ghost predicate SameEdges(faces: seq<Face>, other: seq<Face>)
  {
    |faces| == |other| && forall i | 0 <= i < |faces| :: faces[i].edges == other[i].edges
  }

  function Height(level: nat, tol: Tolerance): real
  {
    level as real * (tol.plane + 1.0)
  }

  /** Puts faces `i` and `j` in one plane and every other face in a plane of its own. */
  function Separated(faces: seq<Face>, tol: Tolerance, i: nat, j: nat): seq<Face>
  {
    seq(|faces|, k requires 0 <= k < |faces| =>
      Face(Vec(0.0, 0.0, 1.0), Vec(0.0, 0.0, Height(if k == j then i else k, tol)), 1.0, faces[k].edges))
  }

  lemma HeightsApart(p: nat, q: nat, tol: Tolerance)
    requires p != q && tol.plane >= 0.0
    ensures !(-tol.plane <= Height(p, tol) - Height(q, tol) <= tol.plane)
  {
    var step := tol.plane + 1.0;
    var apart := if p < q then q - p else p - q;
    assert apart as real * step >= step;
    assert apart as real * step == if p < q then Height(q, tol) - Height(p, tol) else Height(p, tol) - Height(q, tol);
  }

  lemma SeparatedAgreement(faces: seq<Face>, tol: Tolerance, i: nat, j: nat, p: nat, q: nat)
    requires tol.cosine <= 1.0 && tol.plane >= 0.0 && i < j < |faces| && p < |faces| && q < |faces| && p != q
    ensures var s := Separated(faces, tol, i, j);
            Agree(s[p], s[q], tol) <==> (p == i && q == j) || (p == j && q == i)
  {
    var s := Separated(faces, tol, i, j);
    var lp, lq := if p == j then i else p, if q == j then i else q;
    assert s[p].Offset() == Height(lp, tol) && s[q].Offset() == Height(lq, tol);
    if lp != lq { HeightsApart(lp, lq, tol); }
  }

  lemma SeparatedHasNoLinks(faces: seq<Face>, tol: Tolerance, i: nat, j: nat)
    requires tol.cosine <= 1.0 && tol.plane >= 0.0 && i < j < |faces|
    requires !exists d :: IsFirstOn(faces, i, d) && d in faces[j].edges
    ensures Examined(Separated(faces, tol, i, j), tol) == {}
  {
    var placed := Separated(faces, tol, i, j);
    forall p: nat, q: nat
      ensures !Link(placed, tol, p, q)
    {
      if Link(placed, tol, p, q) {
        var d :| LinkVia(placed, tol, p, q, d);
        SeparatedAgreement(faces, tol, i, j, p, q);
        assert placed[i].edges == faces[i].edges && placed[j].edges == faces[j].edges;
        forall k | 0 <= k < i ensures d !in faces[k].edges { assert d !in placed[k].edges; }
        assert IsFirstOn(faces, i, d);
      }
    }
  }

  ghost predicate Uncovered(faces: seq<Face>, i: nat, j: nat, e: EdgeKey)
  {
    && i < j < |faces| && e in faces[i].edges && e in faces[j].edges
    && !exists d :: IsFirstOn(faces, i, d) && d in faces[j].edges
  }

  /** Without that condition some placement of the very same faces keeps two agreeing neighbours apart. */
  lemma UncoveredSplits(faces: seq<Face>, tol: Tolerance, i: nat, j: nat, e: EdgeKey)
    requires Uncovered(faces, i, j, e) && tol.cosine <= 1.0 && tol.plane >= 0.0
    ensures var placed := Separated(faces, tol, i, j);
            && SameEdges(faces, placed)
            && Neighbours(placed, tol, i, j)
            && !Connected(Examined(placed, tol), i, j)
  {
    var placed := Separated(faces, tol, i, j);
    SeparatedAgreement(faces, tol, i, j, i, j);
    assert e in placed[i].edges && e in placed[j].edges;
    SeparatedHasNoLinks(faces, tol, i, j);
    NoLinksNoPath(i, j);
  }

  /** The exact condition on the mesh alone: it is covered if and only if, wherever its faces are placed,
      the groups are the classes of "share an edge and agree". */
  lemma GroupsAreAsIntendedExactlyWhenCovered(faces: seq<Face>, tol: Tolerance)
    requires tol.cosine <= 1.0 && tol.plane >= 0.0
    ensures Covered(faces) <==>
      forall placed: seq<Face>, a: nat, b: nat | SameEdges(faces, placed) ::
        Connected(Examined(placed, tol), a, b) <==> Connected(Intended(placed, tol), a, b)
  {
    if Covered(faces) {
      forall placed: seq<Face>, a: nat, b: nat | SameEdges(faces, placed)
        ensures Connected(Examined(placed, tol), a, b) <==> Connected(Intended(placed, tol), a, b)
      {
        assert Covered(placed) by {
          forall i, j, e | 0 <= i < j < |placed| && e in placed[i].edges && e in placed[j].edges
            ensures exists d :: IsFirstOn(placed, i, d) && d in placed[j].edges
          {
            var d :| IsFirstOn(faces, i, d) && d in faces[j].edges;
            assert IsFirstOn(placed, i, d);
          }
        }
        CoveredMeansIntended(placed, tol, a, b);
      }
    } else {
      var i, j, e :| 0 <= i < j < |faces| && e in faces[i].edges && e in faces[j].edges
        && !exists d :: IsFirstOn(faces, i, d) && d in faces[j].edges;
      assert Uncovered(faces, i, j, e);
      UncoveredSplits(faces, tol, i, j, e);
      var placed := Separated(faces, tol, i, j);
      assert Adjacent(Intended(placed, tol), i, j);
      ConnectedStep(Intended(placed, tol), i, j);
    }
  }
}
