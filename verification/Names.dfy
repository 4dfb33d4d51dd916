/** Row names in the order the guards sort them. */
module Names {

  predicate Ascending(s: seq<nat>) {
    forall i, j :: 0 <= i < j < |s| ==> s[i] < s[j]
  }

  function InsertName(s: seq<nat>, x: nat): (r: seq<nat>)
    requires Ascending(s)
    ensures Ascending(r)
    ensures forall y :: y in r <==> y == x || y in s
  {
    if s == [] then [x]
    else
      var n := |s| - 1;
      if s[n] < x then s + [x]
      else if s[n] == x then s
      else
        var front := InsertName(s[..n], x);
        assert s == s[..n] + [s[n]];
        assert forall i :: 0 <= i < |front| ==> front[i] in front && front[i] < s[n];
        front + [s[n]]
  }

  /** `sorted(set(names))`. */
  function SortedNames(names: seq<nat>): (r: seq<nat>)
    ensures Ascending(r)
    ensures forall y :: y in r <==> y in names
  {
    if names == [] then []
    else InsertName(SortedNames(names[..|names| - 1]), names[|names| - 1])
  }

  lemma FrontOfAscending(s: seq<nat>)
    requires Ascending(s) && s != []
    ensures forall y :: y in s[..|s| - 1] <==> y in s && y != s[|s| - 1]
    ensures forall y :: y in s ==> y <= s[|s| - 1]
  {
    assert s == s[..|s| - 1] + [s[|s| - 1]];
  }

  lemma SameLast(a: seq<nat>, b: seq<nat>)
    requires Ascending(a) && Ascending(b) && a != [] && b != [] && forall y :: y in a <==> y in b
    ensures a[|a| - 1] == b[|b| - 1]
  {
    FrontOfAscending(a);
    FrontOfAscending(b);
    assert a[|a| - 1] in a && b[|b| - 1] in b;
  }

  lemma SameFront(a: seq<nat>, b: seq<nat>, y: nat)
    requires Ascending(a) && Ascending(b) && a != [] && b != [] && forall z :: z in a <==> z in b
    ensures y in a[..|a| - 1] <==> y in b[..|b| - 1]
  {
    SameLast(a, b);
    FrontOfAscending(a);
    FrontOfAscending(b);
    assert y in a[..|a| - 1] <==> y in a && y != a[|a| - 1];
    assert y in b[..|b| - 1] <==> y in b && y != b[|b| - 1];
  }

  lemma FrontAscends(s: seq<nat>)
    requires Ascending(s) && s != []
    ensures Ascending(s[..|s| - 1])
  {
  }

  /** Only one ascending sequence has given elements. */
  lemma {:induction false} AscendingIsUnique(a: seq<nat>, b: seq<nat>)
    requires Ascending(a) && Ascending(b) && forall y :: y in a <==> y in b
    ensures a == b
  {
    assert a != [] ==> a[0] in a;
    assert b != [] ==> b[0] in b;
    if a != [] && b != [] {
      FrontAscends(a);
      FrontAscends(b);
      var p, q := a[..|a| - 1], b[..|b| - 1];
      forall y ensures y in p <==> y in q {
        SameFront(a, b, y);
      }
      AscendingIsUnique(p, q);
      SameLast(a, b);
      assert a == a[..|a| - 1] + [a[|a| - 1]] && b == b[..|b| - 1] + [b[|b| - 1]];
    }
  }

  /** The names that are in `s`, in order. */
  function SortedSet(names: seq<nat>, s: set<nat>): (r: seq<nat>)
    requires Ascending(names)
    ensures Ascending(r)
    ensures forall y :: y in r <==> y in names && y in s
  {
    if names == [] then []
    else
      var n := |names| - 1;
      var front := SortedSet(names[..n], s);
      FrontOfAscending(names);
      assert forall i :: 0 <= i < |front| ==> front[i] in front;
      if names[n] in s then front + [names[n]] else front
  }
}
