/** Skin weights: trimming a vertex to its strongest influences and normalising what is left. */
module Weights {
  import opened Wrappers

  type Group = nat

  /** One influence on a vertex; weights are real numbers here. */
  datatype Entry = Entry(group: Group, weight: real)

  type Vertex = seq<Entry>

  ghost predicate OneEach(v: Vertex)
  {
    forall i, j | 0 <= i < j < |v| :: v[i].group != v[j].group
  }

  function Groups(v: Vertex): set<Group>
  {
    set e | e in v :: e.group
  }

  /** The entries inside, or outside, a set of groups. */
  function Pick(v: Vertex, groups: set<Group>, inside: bool): (r: Vertex)
    ensures forall e :: e in r <==> e in v && (e.group in groups <==> inside)
  {
    if v == [] then []
    else (if v[0].group in groups <==> inside then [v[0]] else []) + Pick(v[1..], groups, inside)
  }

  function Sum(v: Vertex): real
  {
    if v == [] then 0.0 else v[0].weight + Sum(v[1..])
  }

  // ---------------------------------------------------------------------------
  // Sorting, strongest first
  // ---------------------------------------------------------------------------

  function Place(e: Entry, v: Vertex): Vertex
  {
    if v == [] || v[0].weight <= e.weight then [e] + v else [v[0]] + Place(e, v[1..])
  }

  function Sorted(v: Vertex): Vertex
  {
    if v == [] then [] else Place(v[0], Sorted(v[1..]))
  }

  ghost predicate Falling(v: Vertex)
  {
    forall i, j | 0 <= i < j < |v| :: v[i].weight >= v[j].weight
  }

  function Weighing(v: Vertex, w: real): Vertex
  {
    if v == [] then [] else (if v[0].weight == w then [v[0]] else []) + Weighing(v[1..], w)
  }

  lemma {:induction false} PlacePermutes(e: Entry, v: Vertex)
    ensures multiset(Place(e, v)) == multiset{e} + multiset(v)
  {
    if v != [] && v[0].weight > e.weight {
      PlacePermutes(e, v[1..]);
      assert v == [v[0]] + v[1..];
    }
  }

  lemma {:induction false} PlaceFalls(e: Entry, v: Vertex)
    requires Falling(v)
    ensures Falling(Place(e, v))
  {
    if v != [] && v[0].weight > e.weight {
      var rest := Place(e, v[1..]);
      PlaceFalls(e, v[1..]);
      PlacePermutes(e, v[1..]);
      hide Falling;
      forall x | x in rest ensures x.weight <= v[0].weight {
        assert x in multiset(rest);
        assert x == e || x in v[1..];
        FirstIsMost(v);
      }
      FirstFalls(v[0], rest);
    } else {
      if v != [] { FirstIsMost(v); }
      hide Falling;
      assert forall x | x in v :: x.weight <= e.weight;
      FirstFalls(e, v);
    }
  }

  lemma FirstIsMost(v: Vertex)
    requires v != [] && Falling(v)
    ensures forall x | x in v :: x.weight <= v[0].weight
  {
  }

  lemma FirstFalls(first: Entry, rest: Vertex)
    requires Falling(rest) && forall x | x in rest :: x.weight <= first.weight
    ensures Falling([first] + rest)
  {
  }

  lemma WeighingCons(e: Entry, rest: Vertex, w: real)
    ensures Weighing([e] + rest, w) == (if e.weight == w then [e] else []) + Weighing(rest, w)
  {
    assert ([e] + rest)[1..] == rest;
  }

  lemma {:induction false} PlaceIsStable(e: Entry, v: Vertex, w: real)
    ensures Weighing(Place(e, v), w) == (if e.weight == w then [e] else []) + Weighing(v, w)
  {
    hide Weighing;
    if v == [] || v[0].weight <= e.weight {
      WeighingCons(e, v, w);
    } else {
      var rest := v[1..];
      assert v == [v[0]] + rest;
      PlaceIsStable(e, rest, w);
      WeighingCons(v[0], rest, w);
      WeighingCons(v[0], Place(e, rest), w);
    }
  }

  lemma {:induction false} SortedPermutes(v: Vertex)
    ensures multiset(Sorted(v)) == multiset(v)
  {
    if v != [] {
      SortedPermutes(v[1..]);
      PlacePermutes(v[0], Sorted(v[1..]));
      assert v == [v[0]] + v[1..];
    }
  }

  lemma {:induction false} SortedFalls(v: Vertex)
    ensures Falling(Sorted(v))
  {
    if v != [] {
      SortedFalls(v[1..]);
      PlaceFalls(v[0], Sorted(v[1..]));
    }
  }

  lemma {:induction false} SortedIsStable(v: Vertex, w: real)
    ensures Weighing(Sorted(v), w) == Weighing(v, w)
  {
    if v != [] {
      SortedIsStable(v[1..], w);
      PlaceIsStable(v[0], Sorted(v[1..]), w);
    }
  }

  /** A stable sort: falling weights, the same entries, and equal weights in their old order. */
  lemma SortedMeans(v: Vertex)
    ensures Falling(Sorted(v)) && multiset(Sorted(v)) == multiset(v) && |Sorted(v)| == |v|
    ensures forall w :: Weighing(Sorted(v), w) == Weighing(v, w)
  {
    SortedPermutes(v);
    SortedFalls(v);
    SameSize(Sorted(v), v);
    hide Sorted, Weighing, Falling;
    forall w ensures Weighing(Sorted(v), w) == Weighing(v, w) { SortedIsStable(v, w); }
  }

  // ---------------------------------------------------------------------------
  // One vertex
  // ---------------------------------------------------------------------------

  /** Where a slice at `n` falls; a negative `n` counts from the end. */
  function CutAt(n: int, length: nat): (r: nat)
    ensures r <= length
  {
    if n > length then length else if n >= 0 then n else if length + n >= 0 then length + n else 0
  }

  predicate Trims(max: Option<int>, length: nat)
  {
    max.Some? && length > max.value
  }

  function Strong(v: Vertex, deform: set<Group>, max: Option<int>): Vertex
    ensures var mine := Pick(v, deform, true);
            Trims(max, |mine|) ==> |Strong(v, deform, max)| <= |mine|
  {
    var mine := Pick(v, deform, true);
    SortedMeans(mine);
    if Trims(max, |mine|) then Sorted(mine)[..CutAt(max.value, |mine|)] else mine
  }

  function Weak(v: Vertex, deform: set<Group>, max: Option<int>): Vertex
  {
    var mine := Pick(v, deform, true);
    SortedMeans(mine);
    if Trims(max, |mine|) then Sorted(mine)[CutAt(max.value, |mine|)..] else []
  }

  function Abs(x: real): real
  {
    if x < 0.0 then -x else x
  }

  predicate NeedsScaling(total: real)
  {
    total > 0.0 && Abs(total - 1.0) >= 0.000001
  }

  function Over(a: real, total: real): real
    requires total != 0.0
  {
    a / total
  }

  function Dividing(total: real): real -> real
    requires total != 0.0
  {
    (a: real) => Over(a, total)
  }

  function Rescaled(v: Vertex, groups: set<Group>, scale: real -> real): (r: Vertex)
    ensures |r| == |v|
  {
    if v == [] then []
    else [if v[0].group in groups then v[0].(weight := scale(v[0].weight)) else v[0]] + Rescaled(v[1..], groups, scale)
  }

  /** The vertex afterwards. */
  function Normalized(v: Vertex, deform: set<Group>, max: Option<int>): Vertex
  {
    var strong := Strong(v, deform, max);
    var left := Pick(v, Groups(Weak(v, deform, max)), false);
    if NeedsScaling(Sum(strong)) then Rescaled(left, Groups(strong), Dividing(Sum(strong))) else left
  }

  // --- facts about picking ---------------------------------------------------

  lemma {:induction false} PickCounts(v: Vertex, groups: set<Group>, inside: bool, e: Entry)
    ensures multiset(Pick(v, groups, inside))[e] == if e.group in groups <==> inside then multiset(v)[e] else 0
  {
    if v != [] {
      PickCounts(v[1..], groups, inside, e);
      assert v == [v[0]] + v[1..];
    }
  }

  lemma PickCons(e: Entry, rest: Vertex, groups: set<Group>, inside: bool)
    ensures Pick([e] + rest, groups, inside) ==
              (if e.group in groups <==> inside then [e] + Pick(rest, groups, inside) else Pick(rest, groups, inside))
  {
    assert ([e] + rest)[1..] == rest && [] + Pick(rest, groups, inside) == Pick(rest, groups, inside);
  }

  lemma {:induction false} PicksSwap(v: Vertex, a: set<Group>, insideA: bool, b: set<Group>, insideB: bool)
    ensures Pick(Pick(v, a, insideA), b, insideB) == Pick(Pick(v, b, insideB), a, insideA)
  {
    if v != [] {
      hide Pick;
      var e, t := v[0], v[1..];
      assert v == [e] + t;
      PicksSwap(t, a, insideA, b, insideB);
      PickCons(e, t, a, insideA);
      PickCons(e, t, b, insideB);
      PickCons(e, Pick(t, a, insideA), b, insideB);
      PickCons(e, Pick(t, b, insideB), a, insideA);
    }
  }

  lemma {:induction false} PickOutside(v: Vertex, a: set<Group>, b: set<Group>)
    ensures Pick(Pick(v, a, false), b, false) == Pick(v, a + b, false)
  {
    if v != [] {
      hide Pick;
      var e, t := v[0], v[1..];
      assert v == [e] + t;
      PickOutside(t, a, b);
      PickCons(e, t, a, false);
      PickCons(e, t, a + b, false);
      PickCons(e, Pick(t, a, false), b, false);
    }
  }

  lemma {:induction false} PickAll(v: Vertex, groups: set<Group>, inside: bool)
    requires forall e | e in v :: e.group in groups <==> inside
    ensures Pick(v, groups, inside) == v
  {
    if v != [] {
      assert v[0] in v;
      PickAll(v[1..], groups, inside);
    }
  }

  lemma {:induction false} PickStaysOneEach(v: Vertex, groups: set<Group>, inside: bool)
    requires OneEach(v)
    ensures OneEach(Pick(v, groups, inside))
  {
    if v != [] { PickStaysOneEach(v[1..], groups, inside); }
  }

  lemma OneEachCounts(v: Vertex, e: Entry, f: Entry)
    requires OneEach(v) && e in v && f in v && e.group == f.group
    ensures e == f && multiset(v)[e] == 1
  {
    var i :| 0 <= i < |v| && v[i] == e;
    var j :| 0 <= j < |v| && v[j] == f;
    assert v == v[..i] + [e] + v[i + 1..];
  }

  lemma {:induction false} SumPermutes(a: Vertex, b: Vertex)
    requires multiset(a) == multiset(b)
    ensures Sum(a) == Sum(b)
    decreases |a|
  {
    hide Sum;
    SameSize(a, b);
    if a == [] {
      assert b == [];
    } else {
      var j := PlaceIn(a, b);
      SumPermutes(a[1..], b[..j] + b[j + 1..]);
      SumWithout(b, j);
      SumHead(a);
    }
  }

  lemma SumHead(a: Vertex)
    requires a != []
    ensures Sum(a) == a[0].weight + Sum(a[1..])
  {
  }

  /** Where the first of one list stands in its permutation; without it the rests are permutations too. */
  lemma PlaceIn(a: Vertex, b: Vertex) returns (j: nat)
    requires a != [] && multiset(a) == multiset(b)
    ensures j < |b| && b[j] == a[0] && multiset(a[1..]) == multiset(b[..j] + b[j + 1..])
  {
    assert a[0] in multiset(b) by { assert a[0] in multiset(a); }
    j := Somewhere(b, a[0]);
    SameRest(a, b, j);
  }

  lemma SameRest(a: Vertex, b: Vertex, j: nat)
    requires a != [] && j < |b| && b[j] == a[0] && multiset(a) == multiset(b)
    ensures multiset(a[1..]) == multiset(b[..j] + b[j + 1..])
  {
    TakenOut(a, 0);
    assert a[..0] + a[1..] == a[1..];
    TakenOut(b, j);
  }

  lemma Somewhere(v: Vertex, e: Entry) returns (j: nat)
    requires e in multiset(v)
    ensures j < |v| && v[j] == e
  {
    j :| 0 <= j < |v| && v[j] == e;
  }

  lemma TakenOut(v: Vertex, j: nat)
    requires j < |v|
    ensures multiset(v[..j] + v[j + 1..]) == multiset(v) - multiset{v[j]}
  {
    assert v == v[..j] + [v[j]] + v[j + 1..];
  }

  lemma SameSize(a: Vertex, b: Vertex)
    requires multiset(a) == multiset(b)
    ensures |a| == |b|
  {
    assert |multiset(a)| == |a| && |multiset(b)| == |b|;
  }

  lemma {:induction false} SumWithout(b: Vertex, j: nat)
    requires j < |b|
    ensures Sum(b) == b[j].weight + Sum(b[..j] + b[j + 1..])
  {
    if j == 0 {
      assert b[..0] + b[1..] == b[1..];
    } else {
      SumWithout(b[1..], j - 1);
      assert (b[..j] + b[j + 1..])[1..] == b[1..][..j - 1] + b[1..][j..];
    }
  }

  // --- trimming --------------------------------------------------------------

  lemma StrongAndWeak(v: Vertex, deform: set<Group>, max: Option<int>)
    ensures multiset(Strong(v, deform, max)) + multiset(Weak(v, deform, max)) == multiset(Pick(v, deform, true))
    ensures forall e, f | e in Strong(v, deform, max) && f in Weak(v, deform, max) :: e.weight >= f.weight
    ensures |Weak(v, deform, max)| + |Strong(v, deform, max)| == |Pick(v, deform, true)|
  {
    var mine := Pick(v, deform, true);
    SortedMeans(mine);
    if Trims(max, |mine|) { CutInTwo(Sorted(mine), CutAt(max.value, |mine|)); }
    hide Pick, Sorted, Falling, Weighing;
  }

  lemma CutInTwo(v: Vertex, k: nat)
    requires k <= |v| && Falling(v)
    ensures multiset(v[..k]) + multiset(v[k..]) == multiset(v)
    ensures forall e, f | e in v[..k] && f in v[k..] :: e.weight >= f.weight
  {
    assert v == v[..k] + v[k..];
    forall e, f | e in v[..k] && f in v[k..] ensures e.weight >= f.weight {
      var i :| 0 <= i < k && v[..k][i] == e;
      var j :| 0 <= j < |v| - k && v[k..][j] == f;
      assert v[i] == e && v[k + j] == f;
    }
  }

  lemma StrongOrWeak(v: Vertex, deform: set<Group>, max: Option<int>)
    ensures forall e :: e in Strong(v, deform, max) || e in Weak(v, deform, max) <==> e in Pick(v, deform, true)
  {
    var strong, weak, mine := Strong(v, deform, max), Weak(v, deform, max), Pick(v, deform, true);
    StrongAndWeak(v, deform, max);
    hide Strong, Weak, Pick;
    forall e ensures e in strong || e in weak <==> e in mine {
      assert e in multiset(strong) + multiset(weak) <==> e in multiset(mine);
    }
  }

  /** Strong and weak entries belong to different groups. */
  lemma Apart(v: Vertex, deform: set<Group>, max: Option<int>)
    requires OneEach(v)
    ensures Groups(Strong(v, deform, max)) !! Groups(Weak(v, deform, max))
    ensures Groups(Strong(v, deform, max)) + Groups(Weak(v, deform, max)) == Groups(Pick(v, deform, true))
    ensures forall e | e in Strong(v, deform, max) || e in Weak(v, deform, max) :: e in v && e.group in deform
  {
    var strong, weak, mine := Strong(v, deform, max), Weak(v, deform, max), Pick(v, deform, true);
    StrongOrWeak(v, deform, max);
    StrongAndWeak(v, deform, max);
    PickStaysOneEach(v, deform, true);
    hide Strong, Weak, OneEach;
    forall e, f | e in strong && f in weak ensures e.group != f.group {
      assert multiset(mine)[e] == multiset(strong)[e] + multiset(weak)[e];
      if e.group == f.group { OneEachCounts(mine, e, f); }
    }
  }

  /** What is left of the deforming entries after the weak ones are removed are the strong ones. */
  lemma StrongIsLeft(v: Vertex, deform: set<Group>, max: Option<int>)
    requires OneEach(v)
    ensures var left := Pick(v, Groups(Weak(v, deform, max)), false);
            && multiset(Pick(left, deform, true)) == multiset(Strong(v, deform, max))
            && Sum(Pick(left, deform, true)) == Sum(Strong(v, deform, max))
            && |Pick(left, deform, true)| == |Strong(v, deform, max)|
  {
    var strong, weak, mine := Strong(v, deform, max), Weak(v, deform, max), Pick(v, deform, true);
    var kept := Pick(mine, Groups(weak), false);
    PicksSwap(v, Groups(weak), false, deform, true);
    StrongAndWeak(v, deform, max);
    Apart(v, deform, max);
    forall e ensures multiset(kept)[e] == multiset(strong)[e] {
      PickCounts(mine, Groups(weak), false, e);
      assert multiset(mine)[e] == multiset(strong)[e] + multiset(weak)[e];
      if e.group in Groups(weak) { assert e !in strong; } else { assert e !in weak; }
    }
    assert multiset(kept) == multiset(strong);
    SumPermutes(kept, strong);
    SameSize(kept, strong);
  }

  // --- scaling ---------------------------------------------------------------

  ghost predicate Additive(scale: real -> real)
  {
    scale(0.0) == 0.0 && forall a, b :: scale(a + b) == scale(a) + scale(b)
  }

  lemma DividingIsAdditive(total: real)
    requires total != 0.0
    ensures Additive(Dividing(total))
  {
    forall a, b ensures Dividing(total)(a + b) == Dividing(total)(a) + Dividing(total)(b) { OverAdds(a, b, total); }
    NothingDivided(total);
    hide Over;
  }

  lemma NothingDivided(total: real)
    requires total != 0.0
    ensures Dividing(total)(0.0) == 0.0
  {
  }

  lemma OverAdds(a: real, b: real, total: real)
    requires total != 0.0
    ensures Over(a + b, total) == Over(a, total) + Over(b, total)
  {
  }

  /** Scaling every entry inside a set of groups scales their sum, and leaves the rest alone. */
  lemma {:induction false} RescaledSum(v: Vertex, deform: set<Group>, groups: set<Group>, scale: real -> real)
    requires Additive(scale) && forall e | e in v && e.group in deform :: e.group in groups
    ensures var r := Rescaled(v, groups, scale);
            && Sum(Pick(r, deform, true)) == scale(Sum(Pick(v, deform, true)))
            && |Pick(r, deform, true)| == |Pick(v, deform, true)|
  {
    if v != [] {
      assert v[0] in v;
      RescaledSum(v[1..], deform, groups, scale);
      var r := Rescaled(v, groups, scale);
      assert r[1..] == Rescaled(v[1..], groups, scale);
      SumOfPick(v, deform);
      SumOfPick(r, deform);
    }
  }

  lemma {:induction false} RescaledOthers(v: Vertex, deform: set<Group>, groups: set<Group>, scale: real -> real)
    requires groups <= deform
    ensures Pick(Rescaled(v, groups, scale), deform, false) == Pick(v, deform, false)
  {
    if v != [] {
      RescaledOthers(v[1..], deform, groups, scale);
      assert Rescaled(v, groups, scale)[1..] == Rescaled(v[1..], groups, scale);
    }
  }

  lemma SumOfPick(v: Vertex, deform: set<Group>)
    requires v != []
    ensures Sum(Pick(v, deform, true)) == (if v[0].group in deform then v[0].weight else 0.0) + Sum(Pick(v[1..], deform, true))
    ensures |Pick(v, deform, true)| == (if v[0].group in deform then 1 else 0) + |Pick(v[1..], deform, true)|
  {
    var rest := Pick(v[1..], deform, true);
    if v[0].group in deform { assert ([v[0]] + rest)[1..] == rest; } else { assert [] + rest == rest; }
  }

  lemma NormalizedParts(v: Vertex, deform: set<Group>, max: Option<int>)
    requires OneEach(v)
    ensures var r, strong := Normalized(v, deform, max), Strong(v, deform, max);
            && |Pick(r, deform, true)| == |strong|
            && Sum(Pick(r, deform, true)) == (if NeedsScaling(Sum(strong)) then 1.0 else Sum(strong))
  {
    var strong := Strong(v, deform, max);
    var left := Pick(v, Groups(Weak(v, deform, max)), false);
    StrongIsLeft(v, deform, max);
    if NeedsScaling(Sum(strong)) {
      LeftIsStrong(v, deform, max);
      ScaledToOne(left, deform, Groups(strong), Sum(strong));
    }
  }

  lemma ScaledToOne(left: Vertex, deform: set<Group>, groups: set<Group>, total: real)
    requires total != 0.0 && Sum(Pick(left, deform, true)) == total
    requires forall e | e in left && e.group in deform :: e.group in groups
    ensures var r := Rescaled(left, groups, Dividing(total));
            Sum(Pick(r, deform, true)) == 1.0 && |Pick(r, deform, true)| == |Pick(left, deform, true)|
  {
    DividingIsAdditive(total);
    RescaledSum(left, deform, groups, Dividing(total));
    OverItself(total);
  }

  lemma OverItself(total: real)
    requires total != 0.0
    ensures Over(total, total) == 1.0
  {
  }

  lemma LeftIsStrong(v: Vertex, deform: set<Group>, max: Option<int>)
    requires OneEach(v)
    ensures forall e | e in Pick(v, Groups(Weak(v, deform, max)), false) && e.group in deform ::
              e in Strong(v, deform, max) && e.group in Groups(Strong(v, deform, max))
  {
    var left := Pick(v, Groups(Weak(v, deform, max)), false);
    StrongIsLeft(v, deform, max);
    forall e | e in left && e.group in deform ensures e in Strong(v, deform, max) {
      assert e in Pick(left, deform, true);
      assert e in multiset(Pick(left, deform, true));
    }
  }

  // ---------------------------------------------------------------------------
  // What normalising promises
  // ---------------------------------------------------------------------------

  /** At most `max` deforming weights are left, and exactly that many when there were more. */
  lemma KeepsAtMostMax(v: Vertex, deform: set<Group>, max: Option<int>)
    requires OneEach(v)
    ensures var n, m := |Pick(v, deform, true)|, |Pick(Normalized(v, deform, max), deform, true)|;
            m == if max.None? || n <= max.value then n
                 else if max.value >= 0 then max.value else if n + max.value > 0 then n + max.value else 0
  {
    NormalizedParts(v, deform, max);
    SortedMeans(Pick(v, deform, true));
  }

  /** They sum to one within 1e-6, unless the weights kept had no positive total; then they are as they were. */
  lemma SumsToOne(v: Vertex, deform: set<Group>, max: Option<int>)
    requires OneEach(v)
    ensures var total := Sum(Pick(Normalized(v, deform, max), deform, true));
            (total <= 0.0 && total == Sum(Strong(v, deform, max))) || -0.000001 < total - 1.0 < 0.000001
  {
    NormalizedParts(v, deform, max);
  }

  /** Nothing outside the deforming groups changes: not a weight, not the order. */
  lemma OthersUntouched(v: Vertex, deform: set<Group>, max: Option<int>)
    requires OneEach(v)
    ensures Pick(Normalized(v, deform, max), deform, false) == Pick(v, deform, false)
  {
    var strong, weak := Strong(v, deform, max), Groups(Weak(v, deform, max));
    Apart(v, deform, max);
    PicksSwap(v, weak, false, deform, false);
    PickAll(Pick(v, deform, false), weak, false);
    if NeedsScaling(Sum(strong)) { RescaledOthers(Pick(v, weak, false), deform, Groups(strong), Dividing(Sum(strong))); }
  }

  lemma {:induction false} RescaledEntry(v: Vertex, groups: set<Group>, scale: real -> real, e: Entry)
    requires e in Rescaled(v, groups, scale)
    ensures exists f :: f in v && f.group == e.group && e.weight == if f.group in groups then scale(f.weight) else f.weight
  {
    if e == Rescaled(v, groups, scale)[0] {
      assert v[0] in v;
    } else {
      RescaledEntry(v[1..], groups, scale, e);
    }
  }

  /** Every deforming weight afterwards is one factor times what it was, and was no smaller than any that was trimmed. */
  lemma RatiosKept(v: Vertex, deform: set<Group>, max: Option<int>) returns (total: real)
    requires OneEach(v)
    ensures total > 0.0
    ensures forall e | e in Normalized(v, deform, max) && e.group in deform ::
              exists f :: f in Strong(v, deform, max) && f.group == e.group && e.weight == Over(f.weight, total)
    ensures forall f, g | f in Strong(v, deform, max) && g in Weak(v, deform, max) :: f.weight >= g.weight
    ensures forall g | g in Weak(v, deform, max) :: forall e | e in Normalized(v, deform, max) :: e.group != g.group
  {
    var strong, weak := Strong(v, deform, max), Weak(v, deform, max);
    var left, r := Pick(v, Groups(weak), false), Normalized(v, deform, max);
    total := if NeedsScaling(Sum(strong)) then Sum(strong) else 1.0;
    StrongAndWeak(v, deform, max);
    LeftIsStrong(v, deform, max);
    Apart(v, deform, max);
    forall e | e in r
      ensures e.group !in Groups(weak)
      ensures e.group in deform ==> exists f :: f in strong && f.group == e.group && e.weight == Over(f.weight, total)
    {
      if NeedsScaling(Sum(strong)) { RescaledEntry(left, Groups(strong), Dividing(Sum(strong)), e); }
      var f :| f in left && f.group == e.group
               && e.weight == if NeedsScaling(Sum(strong)) && f.group in Groups(strong) then Over(f.weight, total) else f.weight;
    }
  }

  /** Weights in [0, 1] stay there, so the host has nothing to clamp. */
  lemma StaysInRange(v: Vertex, deform: set<Group>, max: Option<int>)
    requires OneEach(v) && forall e | e in v :: 0.0 <= e.weight <= 1.0
    ensures forall e | e in Normalized(v, deform, max) :: 0.0 <= e.weight <= 1.0
  {
    var strong, weak := Strong(v, deform, max), Weak(v, deform, max);
    var left := Pick(v, Groups(weak), false);
    Apart(v, deform, max);
    LeftIsStrong(v, deform, max);
    var total := Sum(strong);
    if NeedsScaling(total) {
      forall e | e in Normalized(v, deform, max) ensures 0.0 <= e.weight <= 1.0 {
        RescaledEntry(left, Groups(strong), Dividing(total), e);
        var f :| f in left && f.group == e.group
                 && e.weight == if f.group in Groups(strong) then Over(f.weight, total) else f.weight;
        if f.group in Groups(strong) {
          var g :| g in strong && g.group == f.group;
          PartOfSum(strong, f);
          OverInRange(f.weight, total);
        }
      }
    }
  }

  lemma {:induction false} PartOfSum(v: Vertex, e: Entry)
    requires e in v && forall f | f in v :: 0.0 <= f.weight
    ensures e.weight <= Sum(v)
  {
    SumNotNegative(v[1..]);
    assert v[0] in v;
    if e != v[0] { PartOfSum(v[1..], e); }
  }

  lemma {:induction false} SumNotNegative(v: Vertex)
    requires forall f | f in v :: 0.0 <= f.weight
    ensures Sum(v) >= 0.0
  {
    if v != [] {
      assert v[0] in v;
      SumNotNegative(v[1..]);
    }
  }

  lemma OverInRange(a: real, total: real)
    requires 0.0 <= a <= total && total > 0.0
    ensures 0.0 <= Over(a, total) <= 1.0
  {
  }

  lemma {:induction false} RescaledOneEach(v: Vertex, groups: set<Group>, scale: real -> real)
    requires OneEach(v)
    ensures OneEach(Rescaled(v, groups, scale))
    ensures forall i | 0 <= i < |v| :: Rescaled(v, groups, scale)[i].group == v[i].group
  {
    if v != [] { RescaledOneEach(v[1..], groups, scale); }
  }

  lemma NormalizedOneEach(v: Vertex, deform: set<Group>, max: Option<int>)
    requires OneEach(v)
    ensures OneEach(Normalized(v, deform, max))
  {
    var left := Pick(v, Groups(Weak(v, deform, max)), false);
    PickStaysOneEach(v, Groups(Weak(v, deform, max)), false);
    var strong := Strong(v, deform, max);
    if NeedsScaling(Sum(strong)) { RescaledOneEach(left, Groups(strong), Dividing(Sum(strong))); }
  }

  /** Normalising again changes nothing exactly when `max_influences` is absent or not negative, or so far below zero
      that no weight was left: a negative one counts from the end and takes some more away each time. */
  lemma SecondRunChangesNothingExactlyWhen(v: Vertex, deform: set<Group>, max: Option<int>)
    requires OneEach(v)
    ensures Normalized(Normalized(v, deform, max), deform, max) == Normalized(v, deform, max) <==>
              max.None? || max.value >= 0 || |Pick(v, deform, true)| <= -max.value
  {
    var r := Normalized(v, deform, max);
    NormalizedOneEach(v, deform, max);
    KeepsAtMostMax(v, deform, max);
    KeepsAtMostMax(r, deform, max);
    if max.None? || max.value >= 0 || |Pick(v, deform, true)| <= -max.value {
      NormalizedParts(v, deform, max);
      NoneWeak(r, deform, max);
    }
  }

  lemma NoneWeak(r: Vertex, deform: set<Group>, max: Option<int>)
    requires !NeedsScaling(Sum(Pick(r, deform, true)))
    requires Pick(r, deform, true) == [] || !Trims(max, |Pick(r, deform, true)|)
    ensures Normalized(r, deform, max) == r
  {
    SortedMeans(Pick(r, deform, true));
    assert Weak(r, deform, max) == [] && Strong(r, deform, max) == Pick(r, deform, true);
    PickAll(r, Groups([]), false);
  }

  // ---------------------------------------------------------------------------
  // The handler
  // ---------------------------------------------------------------------------

  function WithWeight(v: Vertex, group: Group, weight: real): Vertex
  {
    if v == [] then []
    else [if v[0].group == group then v[0].(weight := weight) else v[0]] + WithWeight(v[1..], group, weight)
  }

  lemma {:induction false} ScaleOneMore(v: Vertex, groups: set<Group>, scale: real -> real, e: Entry)
    requires forall f | f in v && f.group == e.group :: f.weight == e.weight
    ensures WithWeight(Rescaled(v, groups, scale), e.group, scale(e.weight)) == Rescaled(v, groups + {e.group}, scale)
  {
    if v != [] {
      assert v[0] in v;
      ScaleOneMore(v[1..], groups, scale, e);
      assert Rescaled(v, groups, scale)[1..] == Rescaled(v[1..], groups, scale);
    }
  }

  lemma {:induction false} ScaleNone(v: Vertex, scale: real -> real)
    ensures Rescaled(v, {}, scale) == v
  {
    if v != [] { ScaleNone(v[1..], scale); }
  }

  lemma GroupsGrow(v: Vertex, j: nat)
    requires j < |v|
    ensures Groups(v[..j + 1]) == Groups(v[..j]) + {v[j].group}
  {
    assert v[..j + 1] == v[..j] + [v[j]];
  }

  /** How many vertices of a mesh the report counts as adjusted, and how many influences as trimmed. */
  function Adjusted(mesh: seq<Vertex>, deform: set<Group>, max: Option<int>): nat
  {
    if mesh == [] then 0
    else
      var last := |mesh| - 1;
      Adjusted(mesh[..last], deform, max) + if NeedsScaling(Sum(Strong(mesh[last], deform, max))) then 1 else 0
  }

  function Trimmed(mesh: seq<Vertex>, deform: set<Group>, max: Option<int>): nat
  {
    if mesh == [] then 0
    else var last := |mesh| - 1; Trimmed(mesh[..last], deform, max) + |Weak(mesh[last], deform, max)|
  }

  /** The vertices the rescaling is for: what is kept has a positive total that is not one within 1e-6. */
  ghost function OffTotal(mesh: seq<Vertex>, deform: set<Group>, max: Option<int>): set<nat>
  {
    set i: nat | i < |mesh| && OffOne(Sum(Strong(mesh[i], deform, max)))
  }

  predicate OffOne(total: real)
  {
    total > 0.0 && (total - 1.0 <= -0.000001 || total - 1.0 >= 0.000001)
  }

  /** The report counts them one by one. */
  lemma {:induction false} AdjustedCounts(mesh: seq<Vertex>, deform: set<Group>, max: Option<int>)
    ensures Adjusted(mesh, deform, max) == |OffTotal(mesh, deform, max)|
  {
    hide Sum, Strong, OffOne, NeedsScaling;
    if mesh == [] {
      assert OffTotal(mesh, deform, max) == {};
    } else {
      var last := |mesh| - 1;
      AdjustedCounts(mesh[..last], deform, max);
      OffTotalNext(mesh, deform, max);
      NeedsScalingMeans(Sum(Strong(mesh[last], deform, max)));
    }
  }

  lemma NeedsScalingMeans(total: real)
    ensures NeedsScaling(total) <==> OffOne(total)
  {
  }

  lemma OffTotalNext(mesh: seq<Vertex>, deform: set<Group>, max: Option<int>)
    requires mesh != []
    ensures var last := |mesh| - 1;
            var before := OffTotal(mesh[..last], deform, max);
            && last !in before
            && OffTotal(mesh, deform, max) == before + if OffOne(Sum(Strong(mesh[last], deform, max))) then {last} else {}
  {
    hide Sum, Strong, OffOne;
  }

  function Size(mesh: seq<Vertex>): nat
  {
    if mesh == [] then 0 else var last := |mesh| - 1; Size(mesh[..last]) + |mesh[last]|
  }

  /** As trimmed it reports exactly the entries that are gone afterwards. */
  lemma {:induction false} TrimmedCounts(mesh: seq<Vertex>, after: seq<Vertex>, deform: set<Group>, max: Option<int>)
    requires |after| == |mesh| && forall i | 0 <= i < |mesh| :: OneEach(mesh[i]) && after[i] == Normalized(mesh[i], deform, max)
    ensures Size(mesh) == Size(after) + Trimmed(mesh, deform, max)
  {
    hide Normalized, Weak, OneEach;
    if mesh != [] {
      var last := |mesh| - 1;
      TrimmedCounts(mesh[..last], after[..last], deform, max);
      NormalizedSize(mesh[last], deform, max);
    }
  }

  lemma NormalizedSize(v: Vertex, deform: set<Group>, max: Option<int>)
    requires OneEach(v)
    ensures |Normalized(v, deform, max)| + |Weak(v, deform, max)| == |v|
  {
    PickSplits(v, deform);
    PickSplits(Normalized(v, deform, max), deform);
    NormalizedParts(v, deform, max);
    OthersUntouched(v, deform, max);
    StrongAndWeak(v, deform, max);
    hide Normalized, Pick, Strong, Weak, OneEach;
  }

  lemma {:induction false} PickSplits(v: Vertex, groups: set<Group>)
    ensures |Pick(v, groups, true)| + |Pick(v, groups, false)| == |v|
  {
    if v != [] { PickSplits(v[1..], groups); }
  }

  datatype VertexGroup = VertexGroup(index: Group, name: string, locked: bool)

  /** A group that is asked for, moved by some bone, and not locked. */
  predicate Deforms(g: VertexGroup, wanted: set<string>, bones: set<string>)
  {
    (wanted == {} || g.name in wanted) && (bones == {} || g.name in bones) && !g.locked
  }

  /** `_deform_group_indices`. */
  method DeformGroupIndices(groups: seq<VertexGroup>, wanted: set<string>, bones: set<string>) returns (indices: set<Group>)
    ensures forall i :: i in indices <==>
              exists g :: g in groups && g.index == i && !g.locked
                          && (wanted != {} ==> g.name in wanted) && (bones != {} ==> g.name in bones)
  {
    indices := {};
    for k := 0 to |groups|
      invariant forall i :: i in indices <==> exists g :: g in groups[..k] && g.index == i && Deforms(g, wanted, bones)
    {
      assert forall g :: g in groups[..k + 1] <==> g in groups[..k] || g == groups[k];
      if Deforms(groups[k], wanted, bones) {
        indices := indices + {groups[k].index};
      }
    }
    assert groups[..|groups|] == groups;
  }

  class Skin {
    var vertices: seq<Vertex>

    constructor (vertices: seq<Vertex>)
      ensures this.vertices == vertices
    {
      this.vertices := vertices;
    }

    method RemoveFrom(i: nat, group: Group)
      requires i < |vertices|
      modifies this
      ensures vertices == old(vertices)[i := Pick(old(vertices[i]), {group}, false)]
    {
      vertices := vertices[i := Pick(vertices[i], {group}, false)];
    }

    method ReplaceIn(i: nat, group: Group, weight: real)
      requires i < |vertices|
      modifies this
      ensures vertices == old(vertices)[i := WithWeight(old(vertices[i]), group, weight)]
    {
      vertices := vertices[i := WithWeight(vertices[i], group, weight)];
    }

    method RemoveAll(i: nat, extras: Vertex)
      requires i < |vertices|
      modifies this
      ensures vertices == old(vertices)[i := Pick(old(vertices[i]), Groups(extras), false)]
    {
      ghost var v, was := vertices[i], vertices;
      PickAll(v, {}, false);
      assert Groups(extras[..0]) == {};
      for j := 0 to |extras|
        invariant vertices == was[i := Pick(v, Groups(extras[..j]), false)]
      {
        GroupsGrow(extras, j);
        PickOutside(v, Groups(extras[..j]), {extras[j].group});
        RemoveFrom(i, extras[j].group);
      }
      assert extras[..|extras|] == extras;
    }

    method ReplaceAll(i: nat, entries: Vertex, total: real)
      requires i < |vertices| && total != 0.0
      requires forall e, f | e in entries && f in vertices[i] && f.group == e.group :: f.weight == e.weight
      modifies this
      ensures vertices == old(vertices)[i := Rescaled(old(vertices[i]), Groups(entries), Dividing(total))]
    {
      ghost var v, was := vertices[i], vertices;
      ScaleNone(v, Dividing(total));
      assert Groups(entries[..0]) == {};
      for j := 0 to |entries|
        invariant vertices == was[i := Rescaled(v, Groups(entries[..j]), Dividing(total))]
      {
        var e := entries[j];
        GroupsGrow(entries, j);
        assert e in entries;
        ScaleOneMore(v, Groups(entries[..j]), Dividing(total), e);
        ReplaceIn(i, e.group, Over(e.weight, total));
      }
      assert entries[..|entries|] == entries;
    }

    method TrimVertex(i: nat, deform: set<Group>, max: Option<int>, dryRun: bool) returns (entries: Vertex, trimmed: nat)
      requires i < |vertices|
      modifies this
      ensures entries == Strong(old(vertices[i]), deform, max) && trimmed == |Weak(old(vertices[i]), deform, max)|
      ensures vertices == if dryRun then old(vertices)
                          else old(vertices)[i := Pick(old(vertices[i]), Groups(Weak(old(vertices[i]), deform, max)), false)]
    {
      ghost var v := vertices[i];
      entries := Pick(vertices[i], deform, true);
      trimmed := 0;
      SortedMeans(entries);
      NothingPicked(v);
      if max.Some? && |entries| > max.value {
        var ranked := Sorted(entries);
        var cut := CutAt(max.value, |ranked|);
        if !dryRun {
          RemoveAll(i, ranked[cut..]);
        }
        trimmed := |ranked| - cut;
        entries := ranked[..cut];
      }
    }

    method NormalizeVertex(i: nat, deform: set<Group>, max: Option<int>, dryRun: bool) returns (adjusted: bool, trimmed: nat)
      requires i < |vertices| && OneEach(vertices[i])
      modifies this
      ensures adjusted == NeedsScaling(Sum(Strong(old(vertices[i]), deform, max)))
      ensures trimmed == |Weak(old(vertices[i]), deform, max)|
      ensures vertices == if dryRun then old(vertices) else old(vertices)[i := Normalized(old(vertices[i]), deform, max)]
    {
      ghost var v := vertices[i];
      if Pick(vertices[i], deform, true) == [] {
        NothingToDo(v, deform, max);
        return false, 0;
      }
      var entries;
      entries, trimmed := TrimVertex(i, deform, max, dryRun);
      var total := Sum(entries);
      if total <= 0.0 || Abs(total - 1.0) < 0.000001 {
        return false, trimmed;
      }
      adjusted := true;
      if !dryRun {
        StrongWeights(v, deform, max);
        ReplaceAll(i, entries, total);
      }
    }

    /** Every vertex is normalised by itself; the counts are the same in a dry run, which changes nothing. */
    method Normalize(deform: set<Group>, max: Option<int>, dryRun: bool) returns (adjusted: nat, trimmed: nat)
      requires forall i | 0 <= i < |vertices| :: OneEach(vertices[i])
      modifies this
      ensures adjusted == Adjusted(old(vertices), deform, max) && trimmed == Trimmed(old(vertices), deform, max)
      ensures |vertices| == |old(vertices)|
      ensures forall i | 0 <= i < |vertices| ::
                vertices[i] == if dryRun then old(vertices)[i] else Normalized(old(vertices)[i], deform, max)
    {
      hide Normalized, Strong, Weak, NeedsScaling, Sum, OneEach;
      adjusted, trimmed := 0, 0;
      ghost var was := vertices;
      for i := 0 to |vertices|
        invariant |vertices| == |was|
        invariant forall k | 0 <= k < i :: vertices[k] == if dryRun then was[k] else Normalized(was[k], deform, max)
        invariant forall k | i <= k < |was| :: vertices[k] == was[k]
        invariant adjusted == Adjusted(was[..i], deform, max) && trimmed == Trimmed(was[..i], deform, max)
      {
        var more, extra := NormalizeVertex(i, deform, max, dryRun);
        assert was[..i + 1][..i] == was[..i];
        adjusted := adjusted + if more then 1 else 0;
        trimmed := trimmed + extra;
      }
      assert was[..|was|] == was;
    }
  }

  lemma StrongWeights(v: Vertex, deform: set<Group>, max: Option<int>)
    requires OneEach(v)
    ensures forall e, f | e in Strong(v, deform, max) && f in Pick(v, Groups(Weak(v, deform, max)), false) && f.group == e.group ::
              f.weight == e.weight
  {
    Apart(v, deform, max);
    forall e, f | e in Strong(v, deform, max) && f in Pick(v, Groups(Weak(v, deform, max)), false) && f.group == e.group
      ensures f.weight == e.weight
    {
      OneEachCounts(v, e, f);
    }
  }

  lemma NothingPicked(v: Vertex)
    ensures Pick(v, Groups([]), false) == v
  {
    PickAll(v, Groups([]), false);
  }

  lemma NothingToDo(v: Vertex, deform: set<Group>, max: Option<int>)
    requires Pick(v, deform, true) == []
    ensures Weak(v, deform, max) == [] && Strong(v, deform, max) == [] && Normalized(v, deform, max) == v
  {
    SortedMeans(Pick(v, deform, true));
    NothingPicked(v);
  }
}
