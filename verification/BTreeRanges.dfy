/**
  The Ascend and Descend calls of a tree: each shows its caller exactly the entries of its
  documented range, in order, until the caller says no.
 */
module BTreeRanges {
  import opened BTreeSpec
  import opened BTreeStore
  import opened BTreeRuns
  import opened BTreeForest
  import opened BTreeReads
  import opened BTreeIterate
  import opened Options

  /** The entries of a list that a test keeps, in order. */
  function Keep(s: seq<Item>, p: Item -> bool): seq<Item> {
    if s == [] then [] else (if p(s[0]) then [s[0]] else []) + Keep(s[1..], p)
  }

  /** The entries inside a range. */
  function Wanted(up: bool, g: Range): Item -> bool {
    x => Admits(x, up, g) && !Ends(x, up, g)
  }

  /** `seen` is what a visitor is shown of `all`: everything in order, until it first says no. */
  ghost predicate Shown(all: seq<Item>, seen: seq<Item>, f: Visitor) {
    && seen <= all
    && (forall k :: 0 < k < |seen| ==> f(all[..k]))
    && (|seen| < |all| ==> seen != [] && !f(seen))
  }

  lemma {:induction false} KeepNone(s: seq<Item>, p: Item -> bool)
    requires forall x <- s :: !p(x)
    ensures Keep(s, p) == []
  {
    if s != [] {
      KeepNone(s[1..], p);
    }
  }

  lemma {:induction false} KeepSame(s: seq<Item>, p: Item -> bool, q: Item -> bool)
    requires forall x <- s :: p(x) == q(x)
    ensures Keep(s, p) == Keep(s, q)
  {
    if s != [] {
      KeepSame(s[1..], p, q);
    }
  }

  lemma {:induction false} KeepConcat(a: seq<Item>, b: seq<Item>, p: Item -> bool)
    ensures Keep(a + b, p) == Keep(a, p) + Keep(b, p)
  {
    if a == [] {
      assert a + b == b;
    } else {
      assert (a + b)[1..] == a[1..] + b && (a + b)[0] == a[0];
      KeepConcat(a[1..], b, p);
      Assoc(if p(a[0]) then [a[0]] else [], Keep(a[1..], p), Keep(b, p));
    }
  }

  lemma {:induction false} KeepRev(s: seq<Item>, p: Item -> bool)
    ensures Keep(Rev(s), p) == Rev(Keep(s, p))
  {
    if s != [] {
      var x := [s[0]];
      KeepRev(s[1..], p);
      KeepConcat(Rev(s[1..]), x, p);
      assert x[1..] == [] && Keep(x, p) == (if p(s[0]) then x else []) + Keep(x[1..], p);
      RevConcat(Keep(x, p), Keep(s[1..], p));
      assert Rev(x) == Rev(x[1..]) + x;
    }
  }

  /** Past the stop of an ordered list there is nothing more of the range. */
  lemma {:induction false} EndsAll(s: seq<Item>, up: bool, g: Range)
    requires Runs(s, up) && s != [] && Ends(s[0], up, g)
    ensures Keep(s, Wanted(up, g)) == []
  {
    KeepNone(s, Wanted(up, g));
  }

  /** The reference walk over an ordered list shows the entries of its range. */
  lemma {:induction false} ScanShows(seen: seq<Item>, s: seq<Item>, up: bool, g: Range, f: Visitor)
    requires Runs(s, up)
    ensures var all, out := seen + Keep(s, Wanted(up, g)), Scan(seen, s, up, g, f).seen;
            && |seen| <= |out| && out <= all
            && (forall k :: |seen| < k < |out| ==> f(all[..k]))
            && (|out| < |all| ==> |out| > |seen| && !f(out))
    decreases |s|
  {
    var p := Wanted(up, g);
    if s != [] {
      assert Runs(s[1..], up);
      hide Runs;
      if !Admits(s[0], up, g) {
        ScanShows(seen, s[1..], up, g, f);
        assert Keep(s, p) == Keep(s[1..], p);
      } else if Ends(s[0], up, g) {
        EndsAll(s, up, g);
      } else {
        ScanShows(seen + [s[0]], s[1..], up, g, f);
        assert seen + Keep(s, p) == seen + [s[0]] + Keep(s[1..], p);
        assert (seen + Keep(s, p))[..|seen| + 1] == seen + [s[0]];
      }
    }
  }

  lemma {:induction false} WalkShows(s: seq<Item>, hit: bool, v: Visit, up: bool, g: Range, f: Visitor)
    requires Runs(s, up) && Walking([], s, false, hit, v, up, g, f)
    ensures Shown(Keep(s, Wanted(up, g)), v.seen, f)
  {
    ScanShows([], s, up, g, f);
    assert [] + Keep(s, Wanted(up, g)) == Keep(s, Wanted(up, g));
  }

  lemma {:induction false} RootReads(w: Forest, i: nat)
    requires w.Valid() && i < |w.trees| && w.trees[i].root.Some?
    ensures i in w.locs && w.locs[i].ref == w.trees[i].root.value
    ensures var l := w.locs[i];
            Readable(w.store.nodes, l.ref, l, Depth(Erase(l)), w.degree) && InOrder(Erase(l)) == Entries(w.Value(i))
  {
    assert i in w.locs;
    assert IndexOk(w.Value(i), w.degree);
    hide InOrder, Wf, Foot, Erase, Holds, Sorted;
  }

  /** One `iterate` call from a tree's root. */
  method Iterate(w: Forest, i: nat, up: bool, g: Range, f: Visitor) returns (v: Visit)
    requires w.Valid() && i < |w.trees|
    ensures var kept := Keep(Entries(w.Value(i)), Wanted(up, g));
            Shown(if up then kept else Rev(kept), v.seen, f)
  {
    v := Visit([], true);
    if w.trees[i].root.Some? {
      RootReads(w, i);
      ghost var l, s := w.locs[i], Entries(w.Value(i));
      RevRuns(s);
      assert Clear(false, s, up, g) && Clear(false, Rev(s), up, g);
      hide *;
      var hit;
      if up {
        hit, v := IterateUp(w.store.nodes, w.trees[i].root.value, g, false, f, [], l, Depth(Erase(l)), w.degree);
        WalkShows(s, hit, v, up, g, f);
      } else {
        hit, v := IterateDown(w.store.nodes, w.trees[i].root.value, g, false, f, [], l, Depth(Erase(l)), w.degree);
        WalkShows(Rev(s), hit, v, up, g, f);
        KeepRev(s, Wanted(up, g));
      }
    } else {
      assert i !in w.locs && Entries(w.Value(i)) == [];
    }
  }

  function AtLeastBelow(lo: nat, hi: nat): Item -> bool {
    (x: Item) => lo <= x.key < hi
  }

  function AboveAtMost(lo: nat, hi: nat): Item -> bool {
    (x: Item) => lo < x.key <= hi
  }

  function Below(k: nat): Item -> bool {
    (x: Item) => x.key < k
  }

  function AtMost(k: nat): Item -> bool {
    (x: Item) => x.key <= k
  }

  function AtLeast(k: nat): Item -> bool {
    (x: Item) => k <= x.key
  }

  function Above(k: nat): Item -> bool {
    (x: Item) => k < x.key
  }

  method AscendRange(w: Forest, i: nat, greaterOrEqual: nat, lessThan: nat, f: Visitor) returns (v: Visit)
    requires w.Valid() && i < |w.trees|
    ensures Shown(Keep(Entries(w.Value(i)), AtLeastBelow(greaterOrEqual, lessThan)), v.seen, f)
  {
    var g := Range(Some(greaterOrEqual), true, Some(lessThan));
    KeepSame(Entries(w.Value(i)), Wanted(true, g), AtLeastBelow(greaterOrEqual, lessThan));
    v := Iterate(w, i, true, g, f);
  }

  method AscendLessThan(w: Forest, i: nat, pivot: nat, f: Visitor) returns (v: Visit)
    requires w.Valid() && i < |w.trees|
    ensures Shown(Keep(Entries(w.Value(i)), Below(pivot)), v.seen, f)
  {
    var g := Range(None, false, Some(pivot));
    KeepSame(Entries(w.Value(i)), Wanted(true, g), Below(pivot));
    v := Iterate(w, i, true, g, f);
  }

  method AscendGreaterOrEqual(w: Forest, i: nat, pivot: nat, f: Visitor) returns (v: Visit)
    requires w.Valid() && i < |w.trees|
    ensures Shown(Keep(Entries(w.Value(i)), AtLeast(pivot)), v.seen, f)
  {
    var g := Range(Some(pivot), true, None);
    KeepSame(Entries(w.Value(i)), Wanted(true, g), AtLeast(pivot));
    v := Iterate(w, i, true, g, f);
  }

  lemma {:induction false} KeepAll(s: seq<Item>, up: bool)
    ensures Keep(s, Wanted(up, Range(None, false, None))) == s
  {
    if s != [] {
      KeepAll(s[1..], up);
    }
  }

  method Ascend(w: Forest, i: nat, f: Visitor) returns (v: Visit)
    requires w.Valid() && i < |w.trees|
    ensures Shown(Entries(w.Value(i)), v.seen, f)
  {
    KeepAll(Entries(w.Value(i)), true);
    v := Iterate(w, i, true, Range(None, false, None), f);
  }

  method DescendRange(w: Forest, i: nat, lessOrEqual: nat, greaterThan: nat, f: Visitor) returns (v: Visit)
    requires w.Valid() && i < |w.trees|
    ensures Shown(Rev(Keep(Entries(w.Value(i)), AboveAtMost(greaterThan, lessOrEqual))), v.seen, f)
  {
    var g := Range(Some(lessOrEqual), true, Some(greaterThan));
    KeepSame(Entries(w.Value(i)), Wanted(false, g), AboveAtMost(greaterThan, lessOrEqual));
    v := Iterate(w, i, false, g, f);
  }

  method DescendLessOrEqual(w: Forest, i: nat, pivot: nat, f: Visitor) returns (v: Visit)
    requires w.Valid() && i < |w.trees|
    ensures Shown(Rev(Keep(Entries(w.Value(i)), AtMost(pivot))), v.seen, f)
  {
    var g := Range(Some(pivot), true, None);
    KeepSame(Entries(w.Value(i)), Wanted(false, g), AtMost(pivot));
    v := Iterate(w, i, false, g, f);
  }

  method DescendGreaterThan(w: Forest, i: nat, pivot: nat, f: Visitor) returns (v: Visit)
    requires w.Valid() && i < |w.trees|
    ensures Shown(Rev(Keep(Entries(w.Value(i)), Above(pivot))), v.seen, f)
  {
    var g := Range(None, false, Some(pivot));
    KeepSame(Entries(w.Value(i)), Wanted(false, g), Above(pivot));
    v := Iterate(w, i, false, g, f);
  }

  method Descend(w: Forest, i: nat, f: Visitor) returns (v: Visit)
    requires w.Valid() && i < |w.trees|
    ensures Shown(Rev(Entries(w.Value(i))), v.seen, f)
  {
    KeepAll(Entries(w.Value(i)), false);
    v := Iterate(w, i, false, Range(None, false, None), f);
  }
}
