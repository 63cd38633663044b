/**
  Range iteration over a tree. Both directions are proved against one reference: a walk over the
  sorted list of entries, forwards or backwards.
 */
module BTreeIterate {
  import opened BTreeSpec
  import opened BTreeProofs
  import opened BTreeStore
  import opened BTreeReads
  import opened Options

  /** What an iteration may see: where it starts and whether it includes its start, and where it stops. */
  datatype Range = Range(start: Option<nat>, inclusive: bool, stop: Option<nat>)

  /** A caller's iterator answers from everything it has been shown, the latest item last. */
  type Visitor = seq<Item> -> bool

  datatype Visit = Visit(seen: seq<Item>, ok: bool)

  /** Is `a` met before `b`? */
  predicate Ahead(a: nat, b: nat, up: bool) {
    if up then a < b else b < a
  }

  predicate Admits(x: Item, up: bool, g: Range) {
    g.start == None || Ahead(g.start.value, x.key, up) || (g.inclusive && g.start.value == x.key)
  }

  predicate Ends(x: Item, up: bool, g: Range) {
    g.stop.Some? && !Ahead(x.key, g.stop.value, up)
  }

  /** The reference: walk a list, skip what is not admitted, end at the stop, show the rest to the
      visitor, and end when it says so. */
  function Scan(seen: seq<Item>, s: seq<Item>, up: bool, g: Range, f: Visitor): Visit
    decreases |s|
  {
    if s == [] then Visit(seen, true)
    else if !Admits(s[0], up, g) then Scan(seen, s[1..], up, g, f)
    else if Ends(s[0], up, g) then Visit(seen, false)
    else if f(seen + [s[0]]) then Scan(seen + [s[0]], s[1..], up, g, f)
    else Visit(seen + [s[0]], false)
  }

  lemma {:induction false} ScanConcat(seen: seq<Item>, a: seq<Item>, b: seq<Item>, up: bool, g: Range, f: Visitor)
    ensures var v := Scan(seen, a, up, g, f);
            Scan(seen, a + b, up, g, f) == if v.ok then Scan(v.seen, b, up, g, f) else v
    decreases |a|
  {
    if a == [] {
      assert a + b == b;
    } else {
      assert (a + b)[1..] == a[1..] + b;
      ScanConcat(seen, a[1..], b, up, g, f);
      ScanConcat(seen + [a[0]], a[1..], b, up, g, f);
    }
  }

  lemma {:induction false} ScanSkips(seen: seq<Item>, s: seq<Item>, up: bool, g: Range, f: Visitor)
    requires NoneAdmitted(s, up, g)
    ensures Scan(seen, s, up, g, f) == Visit(seen, true)
    decreases |s|
  {
    if s != [] {
      ScanSkips(seen, s[1..], up, g, f);
    }
  }

  lemma {:induction false} ScanOne(seen: seq<Item>, x: Item, up: bool, g: Range, f: Visitor)
    ensures Scan(seen, [x], up, g, f) ==
            (if !Admits(x, up, g) then Visit(seen, true)
             else if Ends(x, up, g) then Visit(seen, false)
             else Visit(seen + [x], f(seen + [x])))
  {
    assert [x][1..] == [];
    assert Scan(seen, [], up, g, f) == Visit(seen, true) && Scan(seen + [x], [], up, g, f) == Visit(seen + [x], true);
  }

  /** One more piece of the walk: it is done after `a` and ends, or not, in `b`. */
  lemma {:induction false} ScanMore(seen: seq<Item>, a: seq<Item>, b: seq<Item>, c: seq<Item>, up: bool, g: Range, f: Visitor)
    requires Scan(seen, a, up, g, f).ok
    ensures var u := Scan(seen, a, up, g, f); var v := Scan(u.seen, b, up, g, f);
            && Scan(seen, a + b, up, g, f) == v
            && (!v.ok ==> Scan(seen, a + b + c, up, g, f) == v)
  {
    ScanConcat(seen, a, b, up, g, f);
    ScanConcat(seen, a + b, c, up, g, f);
  }

  ghost predicate NoneAdmitted(s: seq<Item>, up: bool, g: Range) {
    forall x <- s :: !Admits(x, up, g)
  }

  /** Met in order, without repeats. */
  ghost predicate Runs(s: seq<Item>, up: bool) {
    forall i, j :: 0 <= i < j < |s| ==> Ahead(s[i].key, s[j].key, up)
  }

  function Rev(s: seq<Item>): seq<Item> {
    if s == [] then [] else Rev(s[1..]) + [s[0]]
  }

  lemma {:induction false} RevAt(s: seq<Item>)
    ensures |Rev(s)| == |s| && forall i :: 0 <= i < |s| ==> Rev(s)[i] == s[|s| - 1 - i]
  {
    if s != [] {
      RevAt(s[1..]);
    }
  }

  lemma {:induction false} RevConcat(a: seq<Item>, b: seq<Item>)
    ensures Rev(a + b) == Rev(b) + Rev(a)
  {
    if a == [] {
      assert a + b == b;
    } else {
      assert (a + b)[1..] == a[1..] + b;
      RevConcat(a[1..], b);
    }
  }

  lemma {:induction false} RevRuns(s: seq<Item>)
    requires Sorted(s)
    ensures Runs(Rev(s), false) && Runs(s, true)
  {
    RevAt(s);
  }

  // ----- A node's entries around one child -----

  ghost function Before(t: Tree, i: nat): seq<Item>
    requires Shaped(t) && i <= |t.items|
  {
    if t.children == [] then t.items[..i] else Lead(t.children[..i], t.items[..i])
  }

  ghost function Within(t: Tree, i: nat): seq<Item>
    requires Shaped(t) && i <= |t.items|
  {
    if t.children == [] then [] else InOrder(t.children[i])
  }

  ghost function After(t: Tree, i: nat): seq<Item>
    requires Shaped(t) && i <= |t.items|
  {
    if t.children == [] then t.items[i..] else Tail(t.items[i..], t.children[i + 1..])
  }

  lemma {:induction false} Parts(t: Tree, i: nat)
    requires Shaped(t) && i <= |t.items|
    ensures InOrder(t) == Before(t, i) + Within(t, i) + After(t, i)
    ensures i < |t.items| ==> Before(t, i + 1) == Before(t, i) + Within(t, i) + [t.items[i]]
    ensures i < |t.items| ==> After(t, i) == [t.items[i]] + Within(t, i + 1) + After(t, i + 1)
    ensures i == 0 ==> Before(t, i) == []
    ensures i == |t.items| ==> After(t, i) == []
  {
    if t.children != [] {
      ZoomChild(t, i);
      if i < |t.items| {
        LeadSnoc(t.children, t.items, i);
        assert t.items[i..][1..] == t.items[i + 1..] && t.children[i + 1..][1..] == t.children[i + 2..];
      }
    }
  }

  lemma {:induction false} Around(t: Tree, i: nat)
    requires Shaped(t) && i < |t.items|
    ensures InOrder(t) == Before(t, i) + Within(t, i) + [t.items[i]] + (Within(t, i + 1) + After(t, i + 1))
    ensures Before(t, i + 1) == Before(t, i) + Within(t, i) + [t.items[i]]
  {
    hide *;
    Parts(t, i);
    Parts(t, i + 1);
    Assoc(Before(t, i + 1), Within(t, i + 1), After(t, i + 1));
  }

  lemma {:induction false} Assoc(a: seq<Item>, b: seq<Item>, c: seq<Item>)
    ensures a + (b + c) == a + b + c
  {
  }

  lemma {:induction false} LeadSnoc(kids: seq<Tree>, its: seq<Item>, i: nat)
    requires i < |its| && i < |kids|
    ensures Lead(kids[..i + 1], its[..i + 1]) == Lead(kids[..i], its[..i]) + InOrder(kids[i]) + [its[i]]
  {
    hide InOrder;
    if i > 0 {
      LeadSnoc(kids[1..], its[1..], i - 1);
      assert kids[..i + 1][1..] == kids[1..][..i] && its[..i + 1][1..] == its[1..][..i];
      assert kids[..i][1..] == kids[1..][..i - 1] && its[..i][1..] == its[1..][..i - 1];
    }
  }

  lemma {:induction false} RunsPart(a: seq<Item>, b: seq<Item>, up: bool)
    requires Runs(a + b, up)
    ensures Runs(a, up) && Runs(b, up) && forall i, j :: 0 <= i < |a| && 0 <= j < |b| ==> Ahead(a[i].key, b[j].key, up)
  {
    assert forall i :: 0 <= i < |a| ==> (a + b)[i] == a[i];
    assert forall i :: 0 <= i < |b| ==> (a + b)[|a| + i] == b[i];
  }

  /** An entry that does not come after the start keeps everything up to it out. */
  lemma {:induction false} NoneUpTo(a: seq<Item>, x: Item, rest: seq<Item>, up: bool, g: Range)
    requires Runs(a + [x] + rest, up) && !Admits(x, up, g)
    ensures NoneAdmitted(a + [x], up, g)
  {
    RunsPart(a + [x], rest, up);
    RunsPart(a, [x], up);
    forall y <- a + [x] ensures !Admits(y, up, g) {
      if y in a {
        var j :| 0 <= j < |a| && a[j] == y;
        assert Ahead(a[j].key, [x][0].key, up);
      }
    }
  }

  /** Where a rising range starts in a node: nothing before that place is admitted. */
  lemma {:induction false} NothingBefore(t: Tree, i: nat, g: Range)
    requires Shaped(t) && Runs(InOrder(t), true) && i <= |t.items| && (i > 0 ==> !Admits(t.items[i - 1], true, g))
    ensures NoneAdmitted(Before(t, i), true, g)
  {
    assert NoneAdmitted([], true, g);
    hide *;
    Parts(t, i);
    if i > 0 {
      Around(t, i - 1);
      NoneUpTo(Before(t, i - 1) + Within(t, i - 1), t.items[i - 1], Within(t, i) + After(t, i), true, g);
    }
  }

  lemma {:induction false} IndexSplits(s: seq<Item>, k: nat)
    requires Sorted(s)
    ensures forall j :: 0 <= j < Index(s, k) ==> s[j].key < k
    ensures forall j :: Index(s, k) <= j < |s| ==> k <= s[j].key
    ensures Found(s, k) ==> forall j :: Index(s, k) < j < |s| ==> k < s[j].key
  {
  }

  // ----- The `hit` flag -----

  /** When the flag is up, everything still to come in `s` is strictly past the start. */
  ghost predicate Clear(hit: bool, s: seq<Item>, up: bool, g: Range) {
    hit && g.start.Some? ==> forall x <- s :: Ahead(g.start.value, x.key, up)
  }

  /** A flag raised since `hit0` was raised at an entry of `s` not ahead of the start. */
  ghost predicate HitIn(hit: bool, hit0: bool, s: seq<Item>, up: bool, g: Range) {
    && (hit0 ==> hit)
    && (hit && !hit0 && g.start.Some? ==> exists x <- s :: !Ahead(x.key, g.start.value, up))
  }

  lemma {:induction false} StaysClear(a: seq<Item>, z: seq<Item>, hit0: bool, hit: bool, up: bool, g: Range)
    requires Runs(a + z, up) && Clear(hit0, a + z, up, g) && HitIn(hit, hit0, a, up, g)
    ensures Clear(hit, z, up, g)
  {
    if hit && g.start.Some? {
      if hit0 {
        assert forall x <- z :: x in a + z;
      } else {
        var x :| x in a && !Ahead(x.key, g.start.value, up);
        var i :| 0 <= i < |a| && a[i] == x;
        forall y <- z ensures Ahead(g.start.value, y.key, up) {
          var j :| 0 <= j < |z| && z[j] == y;
          assert (a + z)[i] == x && (a + z)[|a| + j] == y;
        }
      }
    }
  }

  lemma {:induction false} ClearNext(seen: seq<Item>, a: seq<Item>, b: seq<Item>, c: seq<Item>, hit0: bool, hit: bool, v: Visit, up: bool, g: Range,
    f: Visitor)
    requires Runs(a + b + c, up) && Clear(hit0, a + b + c, up, g) && Walking(seen, a, hit0, hit, v, up, g, f)
    ensures Clear(hit, b, up, g)
  {
    assert a + b + c == a + (b + c);
    StaysClear(a, b + c, hit0, hit, up, g);
    assert forall x <- b :: x in b + c;
  }

  lemma {:induction false} HitMore(hit0: bool, hit1: bool, hit: bool, a: seq<Item>, b: seq<Item>, c: seq<Item>, up: bool, g: Range)
    requires HitIn(hit1, hit0, a, up, g) && HitIn(hit, hit1, b, up, g)
    ensures HitIn(hit, hit0, a + b, up, g) && HitIn(hit, hit0, a + b + c, up, g)
  {
    assert forall x <- a :: x in a + b && x in a + b + c;
    assert forall x <- b :: x in a + b && x in a + b + c;
  }

  /** The state of a walk over `done`, the part of `all` met so far. */
  ghost predicate Walking(seen: seq<Item>, done: seq<Item>, hit0: bool, hit: bool, v: Visit, up: bool, g: Range, f: Visitor) {
    v == Scan(seen, done, up, g, f) && HitIn(hit, hit0, done, up, g)
  }

  /** A piece `b` is walked next; `c` is what remains after it. */
  lemma {:induction false} WalkOn(seen: seq<Item>, a: seq<Item>, b: seq<Item>, c: seq<Item>, hit0: bool, hit1: bool, hit: bool, u: Visit, v: Visit,
    up: bool, g: Range, f: Visitor)
    requires Walking(seen, a, hit0, hit1, u, up, g, f) && u.ok && Walking(u.seen, b, hit1, hit, v, up, g, f)
    ensures Walking(seen, a + b, hit0, hit, v, up, g, f)
    ensures !v.ok ==> Walking(seen, a + b + c, hit0, hit, v, up, g, f)
  {
    ScanMore(seen, a, b, c, up, g, f);
    HitMore(hit0, hit1, hit, a, b, c, up, g);
  }

  lemma {:induction false} WalkSkips(seen: seq<Item>, s: seq<Item>, hit: bool, up: bool, g: Range, f: Visitor)
    requires NoneAdmitted(s, up, g)
    ensures Walking(seen, s, hit, hit, Visit(seen, true), up, g, f)
  {
    ScanSkips(seen, s, up, g, f);
  }

  // ----- Ascending -----

  /** Rising past one item: skip it when it is an excluded start, else look at the stop and ask the visitor. */
  method VisitUp(x: Item, g: Range, hit0: bool, f: Visitor, seen: seq<Item>) returns (hit: bool, v: Visit)
    requires Clear(hit0, [x], true, g) && (g.start.Some? ==> g.start.value <= x.key)
    ensures Walking(seen, [x], hit0, hit, v, true, g, f)
  {
    ScanOne(seen, x, true, g, f);
    assert x in [x];
    hit := true;
    if !g.inclusive && !hit0 && g.start.Some? && !(g.start.value < x.key) {
      return hit, Visit(seen, true);
    }
    if g.stop.Some? && !(x.key < g.stop.value) {
      return hit, Visit(seen, false);
    }
    return hit, Visit(seen + [x], f(seen + [x]));
  }

  /** The first place of a node a rising range may enter. */
  method StartUp(items: seq<Item>, g: Range, ghost t: Tree) returns (i: nat)
    requires Shaped(t) && t.items == items && Sorted(items) && Runs(InOrder(t), true)
    ensures i <= |items| && NoneAdmitted(Before(t, i), true, g)
    ensures g.start.Some? ==> forall j :: i <= j < |items| ==> g.start.value <= items[j].key
  {
    hide InOrder, Before, Runs, Shaped, NoneAdmitted;
    i := 0;
    if g.start.Some? {
      var found;
      i, found := Find(items, g.start.value);
      IndexSplits(items, g.start.value);
    }
    NothingBefore(t, i, g);
  }

  /** `iterate`, ascending. */
  method IterateUp(n: Nodes, r: Ref, g: Range, hit0: bool, f: Visitor, seen: seq<Item>, ghost l: Loc, ghost h: nat, ghost d: nat)
    returns (hit: bool, v: Visit)
    requires Readable(n, r, l, h, d) && Clear(hit0, InOrder(Erase(l)), true, g)
    ensures Walking(seen, InOrder(Erase(l)), hit0, hit, v, true, g, f)
    decreases h
  {
    ReadableHere(n, r, l, h, d);
    ghost var t, s := Erase(l), InOrder(Erase(l));
    var items, children := n[r].items, n[r].children;
    assert Shaped(t) && t.items == items;
    assert |children| == 0 ==> forall j :: 0 <= j <= |items| ==> Within(t, j) == [];
    RevRuns(s);
    hide *;
    var i := StartUp(items, g, t);
    hit, v := hit0, Visit(seen, true);
    WalkSkips(seen, Before(t, i), hit0, true, g, f);
    while i < |items|
      invariant 0 <= i <= |items| && (g.start.Some? ==> forall j :: i <= j < |items| ==> g.start.value <= items[j].key)
      invariant v.ok && Walking(seen, Before(t, i), hit0, hit, v, true, g, f)
    {
      hit, v := UpStep(n, r, i, g, hit0, hit, f, v, seen, l, h, d);
      if !v.ok {
        return;
      }
      i := i + 1;
    }
    Parts(t, i);
    assert s == Before(t, i) + Within(t, i) && (|children| == 0 ==> s == Before(t, i));
    if |children| > 0 {
      hit, v := UpInto(n, r, i, g, hit0, hit, f, v, seen, l, h, d);
    }
  }

  /** Rising past child `i` and item `i`. */
  method UpStep(n: Nodes, r: Ref, i: nat, g: Range, ghost hit0: bool, hit1: bool, f: Visitor, u: Visit, ghost seen: seq<Item>,
    ghost l: Loc, ghost h: nat, ghost d: nat)
    returns (hit: bool, v: Visit)
    requires Readable(n, r, l, h, d) && Shaped(Erase(l)) && i < |Erase(l).items| && r in n
    requires g.start.Some? ==> g.start.value <= Erase(l).items[i].key
    requires Clear(hit0, InOrder(Erase(l)), true, g) && u.ok && Walking(seen, Before(Erase(l), i), hit0, hit1, u, true, g, f)
    ensures v.ok ==> Walking(seen, Before(Erase(l), i + 1), hit0, hit, v, true, g, f)
    ensures !v.ok ==> Walking(seen, InOrder(Erase(l)), hit0, hit, v, true, g, f)
    decreases h, 1
  {
    ReadableHere(n, r, l, h, d);
    ghost var t := Erase(l);
    RevRuns(InOrder(t));
    Around(t, i);
    ghost var a, w, x, rest := Before(t, i), Within(t, i), [t.items[i]], Within(t, i + 1) + After(t, i + 1);
    assert h == 0 ==> a + w == a;
    hide *;
    hit, v := hit1, u;
    if |n[r].children| > 0 {
      hit, v := UpInto(n, r, i, g, hit0, hit, f, v, seen, l, h, d);
      if !v.ok {
        return;
      }
    }
    ClearNext(seen, a + w, x, rest, hit0, hit, v, true, g, f);
    ghost var hit2, u2 := hit, v;
    hit, v := VisitUp(n[r].items[i], g, hit, f, v.seen);
    WalkOn(seen, a + w, x, rest, hit0, hit2, hit, u2, v, true, g, f);
  }

  /** Rising through child `i`. */
  method UpInto(n: Nodes, r: Ref, i: nat, g: Range, ghost hit0: bool, hit1: bool, f: Visitor, u: Visit, ghost seen: seq<Item>,
    ghost l: Loc, ghost h: nat, ghost d: nat)
    returns (hit: bool, v: Visit)
    requires Readable(n, r, l, h, d) && Shaped(Erase(l)) && i <= |Erase(l).items| && r in n && |n[r].children| > 0
    requires Clear(hit0, InOrder(Erase(l)), true, g) && u.ok && Walking(seen, Before(Erase(l), i), hit0, hit1, u, true, g, f)
    ensures Walking(seen, Before(Erase(l), i) + Within(Erase(l), i), hit0, hit, v, true, g, f)
    ensures !v.ok ==> Walking(seen, InOrder(Erase(l)), hit0, hit, v, true, g, f)
    decreases h, 0
  {
    ReadableHere(n, r, l, h, d);
    ReadableKid(n, r, l, h, d, i);
    ghost var t := Erase(l);
    assert Within(t, i) == InOrder(Erase(l.kids[i]));
    RevRuns(InOrder(t));
    Parts(t, i);
    hide *;
    ClearNext(seen, Before(t, i), Within(t, i), After(t, i), hit0, hit1, u, true, g, f);
    hit, v := IterateUp(n, n[r].children[i], g, hit1, f, u.seen, l.kids[i], h - 1, d);
    WalkOn(seen, Before(t, i), Within(t, i), After(t, i), hit0, hit1, hit, u, v, true, g, f);
  }

  // ----- Descending -----

  lemma {:induction false} RevParts(t: Tree, i: nat)
    requires Shaped(t) && i <= |t.items|
    ensures Rev(InOrder(t)) == Rev(After(t, i)) + Rev(Within(t, i)) + Rev(Before(t, i))
    ensures i == 0 ==> Rev(InOrder(t)) == Rev(After(t, i)) + Rev(Within(t, i))
    ensures i == |t.items| ==> Rev(After(t, i)) == []
  {
    assert Rev([]) == [];
    hide *;
    Parts(t, i);
    RevConcat(Before(t, i) + Within(t, i), After(t, i));
    RevConcat(Before(t, i), Within(t, i));
    Assoc(Rev(After(t, i)), Rev(Within(t, i)), Rev(Before(t, i)));
  }

  lemma {:induction false} RevAround(t: Tree, i: nat)
    requires Shaped(t) && i < |t.items|
    ensures Rev(InOrder(t)) == Rev(After(t, i + 1)) + Rev(Within(t, i + 1)) + [t.items[i]] + (Rev(Within(t, i)) + Rev(Before(t, i)))
    ensures Rev(After(t, i)) == Rev(After(t, i + 1)) + Rev(Within(t, i + 1)) + [t.items[i]]
  {
    var x := [t.items[i]];
    assert Rev(x) == x by { assert x[1..] == [] && Rev(x[1..]) == []; }
    hide *;
    Parts(t, i);
    RevParts(t, i);
    RevConcat(x + Within(t, i + 1), After(t, i + 1));
    RevConcat(x, Within(t, i + 1));
    Assoc(Rev(After(t, i + 1)), Rev(Within(t, i + 1)), x);
    Assoc(Rev(After(t, i)), Rev(Within(t, i)), Rev(Before(t, i)));
  }

  /** Where a falling range starts in a node: nothing after that place is admitted. */
  lemma {:induction false} NothingAfter(t: Tree, i: nat, g: Range)
    requires Shaped(t) && Runs(Rev(InOrder(t)), false) && i <= |t.items| && (i < |t.items| ==> !Admits(t.items[i], false, g))
    ensures NoneAdmitted(Rev(After(t, i)), false, g)
  {
    assert NoneAdmitted([], false, g);
    hide *;
    RevParts(t, i);
    if i < |t.items| {
      RevAround(t, i);
      NoneUpTo(Rev(After(t, i + 1)) + Rev(Within(t, i + 1)), t.items[i], Rev(Within(t, i)) + Rev(Before(t, i)), false, g);
    }
  }

  /** The last item of a node a falling range may show, or -1. */
  method StartDown(items: seq<Item>, g: Range, ghost t: Tree) returns (index: int)
    requires Shaped(t) && t.items == items && Sorted(items) && Runs(Rev(InOrder(t)), false)
    ensures -1 <= index < |items| && NoneAdmitted(Rev(After(t, index + 1)), false, g)
  {
    hide InOrder, After, Runs, Shaped, NoneAdmitted;
    index := |items| - 1;
    if g.start.Some? {
      var found;
      index, found := Find(items, g.start.value);
      IndexSplits(items, g.start.value);
      if !found {
        index := index - 1;
      }
    }
    NothingAfter(t, index + 1, g);
  }

  lemma {:induction false} LeafAfter(t: Tree)
    requires t.children == []
    ensures Rev(After(t, 0)) == Rev(InOrder(t))
  {
  }

  /** `iterate`, descending. */
  method IterateDown(n: Nodes, r: Ref, g: Range, hit0: bool, f: Visitor, seen: seq<Item>, ghost l: Loc, ghost h: nat, ghost d: nat)
    returns (hit: bool, v: Visit)
    requires Readable(n, r, l, h, d) && Clear(hit0, Rev(InOrder(Erase(l))), false, g)
    ensures Walking(seen, Rev(InOrder(Erase(l))), hit0, hit, v, false, g, f)
    decreases h
  {
    ghost var t := Erase(l);
    assert Shaped(t) && Sorted(InOrder(t));
    hide *;
    ReadableHere(n, r, l, h, d);
    RevRuns(InOrder(t));
    var items, children := n[r].items, n[r].children;
    var i := StartDown(items, g, t);
    hit, v := hit0, Visit(seen, true);
    ghost var j: nat := i + 1;
    WalkSkips(seen, Rev(After(t, j)), hit0, false, g, f);
    while i >= 0
      invariant j == i + 1 && i < |items|
      invariant v.ok && Walking(seen, Rev(After(t, j)), hit0, hit, v, false, g, f)
    {
      hit, v := DownStep(n, r, i, g, hit0, hit, f, v, seen, l, h, d);
      if !v.ok {
        return;
      }
      j := i;
      i := i - 1;
    }
    if |children| > 0 {
      hit, v := DownInto(n, r, 0, g, hit0, hit, f, v, seen, l, h, d);
    } else {
      LeafAfter(t);
    }
  }

  /** Falling past child `i + 1` and item `i`. */
  method DownStep(n: Nodes, r: Ref, i: nat, g: Range, ghost hit0: bool, hit1: bool, f: Visitor, u: Visit, ghost seen: seq<Item>,
    ghost l: Loc, ghost h: nat, ghost d: nat)
    returns (hit: bool, v: Visit)
    requires Readable(n, r, l, h, d) && Shaped(Erase(l)) && i < |Erase(l).items| && r in n
    requires Clear(hit0, Rev(InOrder(Erase(l))), false, g) && u.ok && Walking(seen, Rev(After(Erase(l), i + 1)), hit0, hit1, u, false, g, f)
    ensures v.ok ==> Walking(seen, Rev(After(Erase(l), i)), hit0, hit, v, false, g, f)
    ensures !v.ok ==> Walking(seen, Rev(InOrder(Erase(l))), hit0, hit, v, false, g, f)
    decreases h, 1
  {
    ReadableHere(n, r, l, h, d);
    ghost var t := Erase(l);
    RevRuns(InOrder(t));
    RevAround(t, i);
    ghost var a, w, rest := Rev(After(t, i + 1)), Rev(Within(t, i + 1)), Rev(Within(t, i)) + Rev(Before(t, i));
    assert h == 0 ==> a + w == a;
    var x := n[r].items[i];
    hide *;
    hit, v := hit1, u;
    SkipsPast(seen, a, w, x, rest, hit0, hit, v, g, f);
    if g.start.Some? && !(x.key < g.start.value) {
      if !g.inclusive || hit || g.start.value < x.key {
        return;
      }
    }
    if |n[r].children| > 0 {
      hit, v := DownInto(n, r, i + 1, g, hit0, hit, f, v, seen, l, h, d);
      if !v.ok {
        return;
      }
    }
    ghost var hit2, u2 := hit, v;
    hit, v := VisitDown(x, g, hit, f, v.seen);
    WalkOn(seen, a + w, [x], rest, hit0, hit2, hit, u2, v, false, g, f);
  }

  /** When the guard of the loop passes an item by, the walk has nothing to show there or in the child before it. */
  lemma {:induction false} SkipsPast(seen: seq<Item>, a: seq<Item>, w: seq<Item>, x: Item, rest: seq<Item>, hit0: bool, hit: bool, v: Visit,
    g: Range, f: Visitor)
    requires Runs(a + w + [x] + rest, false) && Clear(hit0, a + w + [x] + rest, false, g)
    requires v.ok && Walking(seen, a, hit0, hit, v, false, g, f)
    ensures g.start.Some? && !(x.key < g.start.value) && (!g.inclusive || hit || g.start.value < x.key)
            ==> Walking(seen, a + w + [x], hit0, hit, v, false, g, f)
    ensures !(g.start.Some? && !(x.key < g.start.value) && (!g.inclusive || hit || g.start.value < x.key)) ==> Admits(x, false, g)
  {
    var b := w + [x];
    Assoc(a, w, [x]);
    ClearNext(seen, a, b, rest, hit0, hit, v, false, g, f);
    assert b[|w|] == x;
    assert hit && g.start.Some? ==> x.key < g.start.value;
    if !Admits(x, false, g) {
      NoneUpTo(a + w, x, rest, false, g);
      assert forall y <- b :: y in a + w + [x];
      WalkSkips(v.seen, b, hit, false, g, f);
      WalkOn(seen, a, b, [], hit0, hit, hit, v, v, false, g, f);
    }
  }

  /** Falling past one admitted item: look at the stop, then ask the visitor. */
  method VisitDown(x: Item, g: Range, hit0: bool, f: Visitor, seen: seq<Item>) returns (hit: bool, v: Visit)
    requires Admits(x, false, g)
    ensures Walking(seen, [x], hit0, hit, v, false, g, f)
  {
    ScanOne(seen, x, false, g, f);
    assert x in [x];
    hit := hit0;
    if g.stop.Some? && !(g.stop.value < x.key) {
      return hit, Visit(seen, false);
    }
    hit := true;
    return hit, Visit(seen + [x], f(seen + [x]));
  }

  /** Falling through child `i`. */
  method DownInto(n: Nodes, r: Ref, i: nat, g: Range, ghost hit0: bool, hit1: bool, f: Visitor, u: Visit, ghost seen: seq<Item>,
    ghost l: Loc, ghost h: nat, ghost d: nat)
    returns (hit: bool, v: Visit)
    requires Readable(n, r, l, h, d) && Shaped(Erase(l)) && i <= |Erase(l).items| && r in n && |n[r].children| > 0
    requires Clear(hit0, Rev(InOrder(Erase(l))), false, g) && u.ok && Walking(seen, Rev(After(Erase(l), i)), hit0, hit1, u, false, g, f)
    ensures Walking(seen, Rev(After(Erase(l), i)) + Rev(Within(Erase(l), i)), hit0, hit, v, false, g, f)
    ensures !v.ok || i == 0 ==> Walking(seen, Rev(InOrder(Erase(l))), hit0, hit, v, false, g, f)
    decreases h, 0
  {
    ReadableHere(n, r, l, h, d);
    ReadableKid(n, r, l, h, d, i);
    ghost var t := Erase(l);
    assert Within(t, i) == InOrder(Erase(l.kids[i]));
    RevRuns(InOrder(t));
    hide *;
    RevParts(t, i);
    ghost var a, w, z := Rev(After(t, i)), Rev(Within(t, i)), Rev(Before(t, i));
    ClearNext(seen, a, w, z, hit0, hit1, u, false, g, f);
    hit, v := IterateDown(n, n[r].children[i], g, hit1, f, u.seen, l.kids[i], h - 1, d);
    WalkOn(seen, a, w, z, hit0, hit1, hit, u, v, false, g, f);
  }
}
