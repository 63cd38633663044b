/**
  Rising lists of numbers: a set has exactly one, and sorting any listing of the set yields it.
 */
module Listings {

  predicate Rising(s: seq<nat>) {
    forall i, j :: 0 <= i < j < |s| ==> s[i] < s[j]
  }

  ghost predicate Lists(s: seq<nat>, keys: set<nat>) {
    forall k :: k in s <==> k in keys
  }

  /** A set has a greatest number. */
  lemma {:induction false} HasMax(keys: set<nat>)
    requires keys != {}
    ensures exists k <- keys :: forall x <- keys :: x <= k
  {
    var y :| y in keys;
    var rest := keys - {y};
    assert keys == rest + {y};
    if rest != {} {
      HasMax(rest);
      var k :| k in rest && forall x <- rest :: x <= k;
      var m := if k < y then y else k;
      assert m in keys && forall x <- keys :: x <= m;
    }
  }

  /** A set has one rising listing. */
  lemma {:induction false} OneListing(a: seq<nat>, b: seq<nat>, keys: set<nat>)
    requires Rising(a) && Rising(b) && Lists(a, keys) && Lists(b, keys)
    ensures a == b
    decreases |a|
  {
    if b != [] {
      assert b[0] in a;
    }
    if a != [] {
      assert a[0] in b && b[0] in a;
      var k := a[0];
      forall x ensures x in a[1..] <==> x in keys - {k} {
      }
      forall x ensures x in b[1..] <==> x in keys - {k} {
      }
      OneListing(a[1..], b[1..], keys - {k});
    }
  }

  lemma {:induction false} Inserted(s: seq<nat>, i: nat, x: nat)
    requires Rising(s) && i <= |s| && (i > 0 ==> s[i - 1] < x) && forall j :: i <= j < |s| ==> x < s[j]
    ensures var t := s[..i] + [x] + s[i..]; Rising(t) && forall k :: k in t <==> k in s || k == x
  {
    var t := s[..i] + [x] + s[i..];
    assert forall j :: 0 <= j < i ==> s[j] < x;
    forall k ensures k in t <==> k in s || k == x {
      InPart(s, i, k);
    }
  }

  /** Sorting a list without repeats. */
  method SortKeys(order: seq<nat>) returns (s: seq<nat>)
    requires forall i, j :: 0 <= i < j < |order| ==> order[i] != order[j]
    ensures |s| == |order| && Rising(s) && forall k :: k in s <==> k in order
  {
    s := [];
    for n := 0 to |order|
      invariant |s| == n && Rising(s) && forall k :: k in s <==> k in order[..n]
    {
      var i := |s|;
      while i > 0 && order[n] < s[i - 1]
        invariant 0 <= i <= |s| && forall j :: i <= j < |s| ==> order[n] < s[j]
      {
        i := i - 1;
      }
      assert order[n] !in order[..n] && order[n] !in s;
      assert i > 0 ==> s[i - 1] in s;
      var t := s[..i] + [order[n]] + s[i..];
      Inserted(s, i, order[n]);
      hide Rising;
      assert forall k :: k in order[..n + 1] <==> k in order[..n] || k == order[n];
      s := t;
    }
    assert order[..|order|] == order;
  }

  /** The members of a set, met in any order. */
  method AnyOrder(keys: set<nat>) returns (order: seq<nat>)
    ensures Lists(order, keys) && multiset(order) == multiset(keys)
    ensures forall i, j :: 0 <= i < j < |order| ==> order[i] != order[j]
  {
    order := [];
    var rest := keys;
    while rest != {}
      invariant rest <= keys && (forall k :: k in order <==> k in keys - rest) && multiset(order) + multiset(rest) == multiset(keys)
      invariant forall i, j :: 0 <= i < j < |order| ==> order[i] != order[j]
      decreases rest
    {
      var k :| k in rest;
      assert k !in order;
      assert multiset(rest) == multiset(rest - {k}) + multiset{k};
      order, rest := order + [k], rest - {k};
    }
  }

  /** Cutting the rising list of a set at a number. */
  lemma {:induction false} CutListing(ns: seq<nat>, ls: seq<nat>, keys: set<nat>, t: nat)
    requires Rising(ns) && Lists(ns, keys) && Rising(ls) && Lists(ls, set n | n in keys && n < t)
    ensures |ls| <= |ns| && ns[..|ls|] == ls && Rising(ns[|ls|..]) && Lists(ns[|ls|..], set n | n in keys && n >= t)
  {
    var k := CutPoint(ns, t);
    forall n: nat ensures n in ns[..k] <==> n in keys && n < t {
      InPart(ns, k, n);
    }
    forall n: nat ensures n in ns[k..] <==> n in keys && n >= t {
      InPart(ns, k, n);
    }
    OneListing(ns[..k], ls, set n | n in keys && n < t);
  }

  lemma {:induction false} InPart(ns: seq<nat>, k: nat, n: nat)
    requires k <= |ns|
    ensures n in ns <==> n in ns[..k] || n in ns[k..]
  {
    assert ns == ns[..k] + ns[k..];
  }

  lemma {:induction false} CutPoint(ns: seq<nat>, t: nat) returns (k: nat)
    requires Rising(ns)
    ensures k <= |ns| && (forall n <- ns[..k] :: n < t) && forall n <- ns[k..] :: n >= t
  {
    k := 0;
    while k < |ns| && ns[k] < t
      invariant k <= |ns| && forall i :: 0 <= i < k ==> ns[i] < t
    {
      k := k + 1;
    }
  }

  lemma {:induction false} FrontLists(s: seq<nat>, keys: set<nat>)
    requires s != [] && Rising(s) && Lists(s, keys)
    ensures var n := |s| - 1; s[n] in keys && Rising(s[..n]) && Lists(s[..n], keys - {s[n]})
  {
    var n := |s| - 1;
    var x := s[n];
    forall k ensures k in s[..n] <==> k in keys - {x} {
      InPart(s, n, k);
    }
  }

  /** A rising list has every member once. */
  lemma {:induction false} RisingOnce(s: seq<nat>, keys: set<nat>)
    requires Rising(s) && Lists(s, keys)
    ensures multiset(s) == multiset(keys) && |s| == |keys|
  {
    if s == [] {
      assert keys == {};
    } else {
      var n := |s| - 1;
      FrontLists(s, keys);
      hide *;
      RisingOnce(s[..n], keys - {s[n]});
      OneFewer(keys, s[n]);
      assert s == s[..n] + [s[n]];
    }
  }

  lemma {:induction false} OneFewer(keys: set<nat>, x: nat)
    requires x in keys
    ensures multiset(keys) == multiset(keys - {x}) + multiset{x} && |keys| == |keys - {x}| + 1
  {
  }
}
