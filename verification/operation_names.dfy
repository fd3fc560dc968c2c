/** The names an unknown operation is answered with: the first few of its namespace, in order. */
module OperationNames {

  /** Strings compared character by character, a prefix first. */
  predicate Before(a: string, b: string)
  {
    a == "" || (b != "" && (a[0] < b[0] || (a[0] == b[0] && Before(a[1..], b[1..]))))
  }

  lemma {:induction false} BeforeIsTotal(a: string, b: string)
    ensures Before(a, b) || Before(b, a)
    ensures Before(a, b) && Before(b, a) ==> a == b
  {
    if a != "" && b != "" {
      BeforeIsTotal(a[1..], b[1..]);
      assert a == [a[0]] + a[1..] && b == [b[0]] + b[1..];
    }
  }

  lemma {:induction false} BeforeIsTransitive(a: string, b: string, c: string)
    requires Before(a, b) && Before(b, c)
    ensures Before(a, c)
  {
    if a != "" && a[0] == b[0] == c[0] { BeforeIsTransitive(a[1..], b[1..], c[1..]); }
  }

  predicate IsLeast(s: string, names: set<string>)
  {
    s in names && forall t | t in names :: Before(s, t)
  }

  lemma {:induction false} SomeLeast(names: set<string>) returns (least: string)
    requires names != {}
    ensures IsLeast(least, names)
    decreases |names|
  {
    var s :| s in names;
    BeforeIsTotal(s, s);
    if names == {s} {
      least := s;
    } else {
      var t := SomeLeast(names - {s});
      BeforeIsTotal(s, t);
      if Before(s, t) {
        least := s;
        forall u | u in names - {s} ensures Before(s, u) { BeforeIsTransitive(s, t, u); }
      } else {
        least := t;
      }
    }
  }

  lemma OneLeast(names: set<string>)
    requires names != {}
    ensures exists s :: IsLeast(s, names)
    ensures forall s, t | IsLeast(s, names) && IsLeast(t, names) :: s == t
  {
    var least := SomeLeast(names);
    forall s, t | IsLeast(s, names) && IsLeast(t, names) ensures s == t { BeforeIsTotal(s, t); }
  }

  /** `sorted`, on the names of a table. */
  function Sorted(names: set<string>): (r: seq<string>)
    ensures |r| == |names| && (forall s :: s in r <==> s in names)
    decreases |names|
  {
    if names == {} then []
    else
      OneLeast(names);
      var least :| IsLeast(least, names);
      [least] + Sorted(names - {least})
  }

  predicate Ascending(r: seq<string>)
  {
    forall i, j | 0 <= i < j < |r| :: Before(r[i], r[j]) && r[i] != r[j]
  }

  lemma {:induction false} SortedAscends(names: set<string>)
    ensures Ascending(Sorted(names))
    decreases |names|
  {
    if names != {} {
      var r := Sorted(names);
      assert r == [r[0]] + Sorted(names - {r[0]}) && IsLeast(r[0], names) by { OneLeast(names); }
      var rest := Sorted(names - {r[0]});
      SortedAscends(names - {r[0]});
      forall i, j | 0 <= i < j < |r| ensures Before(r[i], r[j]) && r[i] != r[j] {
        assert r[j] == rest[j - 1] && rest[j - 1] in rest;
        if i > 0 { assert r[i] == rest[i - 1]; }
      }
    }
  }

  /** The part of a name before its first dot. */
  function Namespace(name: string): string
  {
    if name == "" || name[0] == '.' then "" else [name[0]] + Namespace(name[1..])
  }

  lemma {:induction false} NamespaceEndsAtTheFirstDot(name: string)
    ensures var n := Namespace(name);
            n <= name && '.' !in n && (n == name || name[|n|] == '.')
  {
    if name != "" && name[0] != '.' { NamespaceEndsAtTheFirstDot(name[1..]); }
  }

  const LISTED: nat := 5

  function FirstFew(names: seq<string>): seq<string>
  {
    if |names| <= LISTED then names else names[..LISTED]
  }

  /** `_closest_ops`: of the operations that start as the unknown one's namespace, or else of all, the first five. */
  function Closest(names: set<string>, name: string): seq<string>
  {
    var kin := set s | s in names && Namespace(name) <= s;
    FirstFew(Sorted(if kin != {} then kin else names))
  }

  /** What is listed are operations, in order and without repetition, none of another namespace while the unknown name's has
      any, and none that is left out comes before one that is listed. */
  lemma ClosestMeans(names: set<string>, name: string)
    ensures var r := Closest(names, name);
            var kin := set s | s in names && Namespace(name) <= s;
            var among := if kin != {} then kin else names;
            && |r| == (if |among| <= LISTED then |among| else LISTED)
            && (forall s | s in r :: s in among)
            && Ascending(r) && (forall s, t | s in r && t in among && t !in r :: Before(s, t))
  {
    var kin := set s | s in names && Namespace(name) <= s;
    var among := if kin != {} then kin else names;
    var sorted := Sorted(among);
    var r := Closest(names, name);
    SortedAscends(among);
    assert forall i | 0 <= i < |r| :: r[i] == sorted[i];
    hide Before;
    forall s, t | s in r && t in among && t !in r ensures Before(s, t) {
      var i :| 0 <= i < |r| && r[i] == s;
      var j :| 0 <= j < |sorted| && sorted[j] == t;
      assert sorted[i] == s && i < j;
    }
  }
}
