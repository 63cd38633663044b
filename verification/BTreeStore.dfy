/**
  The B-tree as the program runs it: nodes are records that are edited in place, shared
  between a tree and its clones, owned by copy-on-write contexts, and recycled through a
  bounded free list that all clones share.

  A node is a `Ref` into `Store.nodes`. A `Loc` is the tree of references below a node; it is
  ghost bookkeeping that says which records make up a tree, so that sharing and overwriting
  can be reasoned about. `Erase` forgets the references and yields the tree value.
 */
module BTreeStore {
  import opened BTreeSpec
  import opened BTreeProofs
  import opened Options

  type Ref = nat
  type Ctx = nat
  type Nodes = map<Ref, Rec>

  datatype Rec = Rec(items: seq<Item>, children: seq<Ref>, cow: Option<Ctx>)

  datatype Loc = At(ref: Ref, items: seq<Item>, kids: seq<Loc>)

  ghost function Erase(l: Loc): Tree {
    Node(l.items, seq(|l.kids|, i requires 0 <= i < |l.kids| => Erase(l.kids[i])))
  }

  lemma {:induction false} KidShape(l: Loc, i: nat, h: nat, d: nat)
    requires h > 0 && Wf(Erase(l), h, d) && i < |l.kids|
    ensures |Erase(l).children| == |l.kids| == |l.items| + 1 && Erase(l).children[i] == Erase(l.kids[i])
    ensures Erase(l.kids[i]).items == l.kids[i].items && d - 1 <= |l.kids[i].items| <= 2 * d - 1
    ensures Wf(Erase(l.kids[i]), h - 1, d)
    ensures l.kids[i].kids == [] || |l.kids[i].kids| == |l.kids[i].items| + 1
  {
    assert Wf(Erase(l).children[i], h - 1, d);
  }

  ghost function Refs(ks: seq<Loc>): seq<Ref> {
    seq(|ks|, i requires 0 <= i < |ks| => ks[i].ref)
  }

  /** All records of a tree. */
  ghost function Foot(l: Loc): set<Ref>
    decreases l, 1
  {
    {l.ref} + FootAll(l.kids)
  }

  ghost function FootAll(ks: seq<Loc>): set<Ref>
    decreases ks, 0
  {
    if ks == [] then {} else Foot(ks[0]) + FootAll(ks[1..])
  }

  /** No record occurs twice in the tree. */
  ghost predicate Distinct(l: Loc)
    decreases l, 1
  {
    l.ref !in FootAll(l.kids) && Apart(l.kids)
  }

  ghost predicate Apart(ks: seq<Loc>)
    decreases ks, 0
  {
    ks != [] ==> Distinct(ks[0]) && Foot(ks[0]) !! FootAll(ks[1..]) && Apart(ks[1..])
  }

  /** The records of `n` are laid out as `l` says. */
  ghost predicate Holds(n: Nodes, l: Loc) {
    && l.ref in n && n[l.ref].items == l.items && n[l.ref].children == Refs(l.kids)
    && forall i :: 0 <= i < |l.kids| ==> Holds(n, l.kids[i])
  }

  // ----- Footprints of lists of subtrees -----

  lemma {:induction false} Append(a: seq<Loc>, b: seq<Loc>)
    ensures FootAll(a + b) == FootAll(a) + FootAll(b)
    ensures Apart(a + b) <==> Apart(a) && Apart(b) && FootAll(a) !! FootAll(b)
  {
    if a == [] {
      assert a + b == b;
    } else {
      assert (a + b)[1..] == a[1..] + b;
      Append(a[1..], b);
    }
  }

  lemma {:induction false} Append3(a: seq<Loc>, k: Loc, b: seq<Loc>)
    ensures FootAll(a + [k] + b) == FootAll(a) + Foot(k) + FootAll(b)
    ensures Apart(a + [k] + b) <==> Apart(a) && Distinct(k) && Apart(b)
                                    && FootAll(a) !! Foot(k) && FootAll(a) !! FootAll(b) && Foot(k) !! FootAll(b)
  {
    Append(a, [k]);
    Append(a + [k], b);
    assert [k][1..] == [];
    assert FootAll([k]) == Foot(k);
    assert Apart([k]) <==> Distinct(k);
  }

  lemma {:induction false} FootIn(ks: seq<Loc>, i: nat)
    requires i < |ks|
    ensures Foot(ks[i]) <= FootAll(ks)
    ensures Apart(ks) ==> Distinct(ks[i])
  {
    Append3(ks[..i], ks[i], ks[i + 1..]);
    assert ks == ks[..i] + [ks[i]] + ks[i + 1..];
  }

  /** Records that did not change still hold the tree. */
  lemma {:induction false} Framed(n: Nodes, l: Loc, n': Nodes)
    requires Holds(n, l) && forall x <- Foot(l) :: x in n ==> x in n' && n'[x] == n[x]
    ensures Holds(n', l)
    decreases l
  {
    forall i | 0 <= i < |l.kids| ensures Holds(n', l.kids[i]) {
      FootIn(l.kids, i);
      Framed(n, l.kids[i], n');
    }
  }

  lemma {:induction false} FootHeld(n: Nodes, l: Loc)
    requires Holds(n, l)
    ensures Foot(l) <= n.Keys
    decreases l
  {
    FootAllHeld(n, l.kids);
  }

  lemma {:induction false} FootAllHeld(n: Nodes, ks: seq<Loc>)
    requires forall i :: 0 <= i < |ks| ==> Holds(n, ks[i])
    ensures FootAll(ks) <= n.Keys
    decreases ks
  {
    if ks != [] {
      FootHeld(n, ks[0]);
      FootAllHeld(n, ks[1..]);
    }
  }

  // ----- What an operation on one tree may write -----

  /** An operation of context `c` on a tree with records `p` turned the records `n` and free
      list `f` into `n'` and `f'`, and the tree's records into `p'`. Only records of `p` owned by
      `c`, free records and new ones were written; every record of `p'` is an old one left alone or
      is owned by `c`; only owned or new records were freed, and none that is still in use; no other
      context gained a record. */
  ghost predicate Changed(n: Nodes, f: set<Ref>, n': Nodes, f': set<Ref>, p: set<Ref>, p': set<Ref>, c: Ctx) {
    && n.Keys <= n'.Keys
    && (forall x <- n :: x !in p && x !in f ==> n'[x] == n[x])
    && (forall x <- n :: x in p && n[x].cow != Some(c) ==> n'[x] == n[x])
    && (forall x <- p' :: x in n' && (x in n ==> x in p || x in f))
    && (forall x <- p' :: x in n' && n'[x].cow != Some(c) ==> x in p && x in n && n'[x] == n[x])
    && (forall x <- f' :: x in n ==> x in f || (x in p && n[x].cow == Some(c)))
    && (forall x <- n' :: n'[x].cow == None || n'[x].cow == Some(c) || (x in n && n'[x].cow == n[x].cow))
    && p' !! f'
  }

  lemma {:induction false} Unchanged(n: Nodes, f: set<Ref>, l: Loc, c: Ctx)
    requires Settled(n, f, l)
    ensures Changed(n, f, n, f, Foot(l), Foot(l), c)
  {
    FootHeld(n, l);
  }

  lemma {:induction false} ChangedThen(n: Nodes, f: set<Ref>, n1: Nodes, f1: set<Ref>, n2: Nodes, f2: set<Ref>,
                    p: set<Ref>, p1: set<Ref>, p2: set<Ref>, c: Ctx)
    requires p !! f && p <= n.Keys
    requires Changed(n, f, n1, f1, p, p1, c) && Changed(n1, f1, n2, f2, p1, p2, c)
    ensures Changed(n, f, n2, f2, p, p2, c)
  {
  }

  /** A tree whose records are all laid out, used once, and not free, with a root owned by `c`. */
  ghost predicate Owned(n: Nodes, f: set<Ref>, l: Loc, c: Ctx) {
    Settled(n, f, l) && l.ref in n && n[l.ref].cow == Some(c)
  }

  ghost predicate Settled(n: Nodes, f: set<Ref>, l: Loc) {
    Holds(n, l) && Distinct(l) && Foot(l) !! f
  }

  /** Cutting the children `i..j` out of a node. */
  lemma {:induction false} Range(l: Loc, i: nat, j: nat)
    requires Distinct(l) && i <= j <= |l.kids|
    ensures var a, ks, b := l.kids[..i], l.kids[i..j], l.kids[j..];
            && Foot(l) == {l.ref} + FootAll(a) + FootAll(b) + FootAll(ks)
            && Apart(a) && Apart(ks) && Apart(b)
            && FootAll(a) !! FootAll(ks) && FootAll(a) !! FootAll(b) && FootAll(ks) !! FootAll(b)
            && l.ref !in FootAll(a) && l.ref !in FootAll(b) && l.ref !in FootAll(ks)
  {
    assert l.kids == l.kids[..i] + l.kids[i..j] + l.kids[j..];
    Append(l.kids[..i], l.kids[i..j]);
    Append(l.kids[..i] + l.kids[i..j], l.kids[j..]);
  }

  lemma {:induction false} Kid(n: Nodes, f: set<Ref>, l: Loc, i: nat)
    requires Settled(n, f, l) && i < |l.kids|
    ensures Settled(n, f, l.kids[i]) && l.ref !in Foot(l.kids[i]) && Foot(l.kids[i]) <= Foot(l)
  {
    FootIn(l.kids, i);
  }

  /** An operation on part of a tree leaves the rest of the tree alone. */
  lemma {:induction false} Lift(n: Nodes, f: set<Ref>, n1: Nodes, f1: set<Ref>, p: set<Ref>, p1: set<Ref>, rest: set<Ref>, c: Ctx)
    requires Changed(n, f, n1, f1, p, p1, c) && rest !! p && rest !! f && rest <= n.Keys
    ensures Changed(n, f, n1, f1, rest + p, rest + p1, c)
    ensures rest !! p1 && rest !! f1 && forall x <- rest :: n1[x] == n[x]
  {
  }

  /** The tree's context may also overwrite a record it owns. */
  lemma {:induction false} OwnWrite(n: Nodes, f: set<Ref>, n1: Nodes, f1: set<Ref>, p: set<Ref>, p1: set<Ref>, r: Ref, rec: Rec, c: Ctx)
    requires Changed(n, f, n1, f1, p, p1, c) && p <= n.Keys
    requires r in p1 && r in n1 && n1[r].cow == Some(c) && rec.cow == Some(c)
    ensures Changed(n, f, n1[r := rec], f1, p, p1, c)
  {
  }

  ghost predicate AllSettled(n: Nodes, f: set<Ref>, ks: seq<Loc>) {
    (forall i :: 0 <= i < |ks| ==> Holds(n, ks[i])) && Apart(ks) && FootAll(ks) !! f
  }

  /** A node `l` with its children `i..j` replaced by `ks` and its items by `its`. */
  ghost function Respliced(l: Loc, i: nat, j: nat, its: seq<Item>, ks: seq<Loc>): Loc
    requires i <= j <= |l.kids|
  {
    At(l.ref, its, l.kids[..i] + ks + l.kids[j..])
  }

  /** After an operation on the children `i..j` of an owned node, the node rewritten to match. */
  lemma {:induction false} RangeChanged(n: Nodes, f: set<Ref>, n1: Nodes, f1: set<Ref>, l: Loc, i: nat, j: nat, its: seq<Item>, ks: seq<Loc>, c: Ctx)
    requires Owned(n, f, l, c) && i <= j <= |l.kids| && AllSettled(n1, f1, ks)
    requires Changed(n, f, n1, f1, FootAll(l.kids[i..j]), FootAll(ks), c)
    ensures l.ref in n1 && n1[l.ref] == n[l.ref]
    ensures var m := Respliced(l, i, j, its, ks);
            var n2 := n1[l.ref := Rec(its, Refs(m.kids), Some(c))];
            && Owned(n2, f1, m, c)
            && Changed(n, f, n2, f1, Foot(l), Foot(m), c)
  {
    hide Changed;
    FootHeld(n, l);
    var m, rest := Respliced(l, i, j, its, ks), {l.ref} + FootAll(l.kids[..i]) + FootAll(l.kids[j..]);
    Range(l, i, j);
    Lift(n, f, n1, f1, FootAll(l.kids[i..j]), FootAll(ks), rest, c);
    ResplicedFoot(l, i, j, its, ks);
    assert Foot(l) == rest + FootAll(l.kids[i..j]);
    var n2 := n1[l.ref := Rec(its, Refs(m.kids), Some(c))];
    OwnWrite(n, f, n1, f1, Foot(l), Foot(m), l.ref, n2[l.ref], c);
    ResplicedHolds(n, n1, n2, l, i, j, its, ks);
  }

  lemma {:induction false} ResplicedFoot(l: Loc, i: nat, j: nat, its: seq<Item>, ks: seq<Loc>)
    requires Distinct(l) && i <= j <= |l.kids| && Apart(ks)
    requires ({l.ref} + FootAll(l.kids[..i]) + FootAll(l.kids[j..])) !! FootAll(ks)
    ensures Foot(Respliced(l, i, j, its, ks)) == {l.ref} + FootAll(l.kids[..i]) + FootAll(l.kids[j..]) + FootAll(ks)
    ensures Distinct(Respliced(l, i, j, its, ks))
  {
    Range(l, i, j);
    Append(l.kids[..i], ks);
    Append(l.kids[..i] + ks, l.kids[j..]);
  }

  lemma {:induction false} ResplicedHolds(n: Nodes, n1: Nodes, n2: Nodes, l: Loc, i: nat, j: nat, its: seq<Item>, ks: seq<Loc>)
    requires Holds(n, l) && i <= j <= |l.kids| && forall x :: 0 <= x < |ks| ==> Holds(n1, ks[x])
    requires forall x <- FootAll(l.kids[..i]) + FootAll(l.kids[j..]) :: x in n ==> x in n2 && n2[x] == n[x]
    requires forall x <- FootAll(ks) :: x in n1 ==> x in n2 && n2[x] == n1[x]
    requires l.ref in n2 && n2[l.ref].items == its && n2[l.ref].children == Refs(Respliced(l, i, j, its, ks).kids)
    ensures Holds(n2, Respliced(l, i, j, its, ks))
  {
    AllFramed(n, l.kids[..i], n2);
    AllFramed(n1, ks, n2);
    AllFramed(n, l.kids[j..], n2);
  }

  lemma {:induction false} AllFramed(n: Nodes, ks: seq<Loc>, n': Nodes)
    requires forall i :: 0 <= i < |ks| ==> Holds(n, ks[i])
    requires forall x <- FootAll(ks) :: x in n ==> x in n' && n'[x] == n[x]
    ensures forall i :: 0 <= i < |ks| ==> Holds(n', ks[i])
  {
    forall i | 0 <= i < |ks| ensures Holds(n', ks[i]) {
      FootIn(ks, i);
      Framed(n, ks[i], n');
    }
  }

  /** After an operation on child `i` of an owned node, the node with the new child linked in. */
  lemma {:induction false} KidChanged(n: Nodes, f: set<Ref>, n1: Nodes, f1: set<Ref>, l: Loc, i: nat, k: Loc, c: Ctx)
    requires Owned(n, f, l, c) && i < |l.kids| && Settled(n1, f1, k)
    requires Changed(n, f, n1, f1, Foot(l.kids[i]), Foot(k), c)
    ensures l.ref in n1 && n1[l.ref] == n[l.ref] && i < |n1[l.ref].children|
    ensures var m := l.(kids := l.kids[i := k]);
            && Owned(SetKid(n1, l.ref, i, k.ref), f1, m, c)
            && Changed(n, f, SetKid(n1, l.ref, i, k.ref), f1, Foot(l), Foot(m), c)
  {
    hide Changed;
    assert FootAll(l.kids[i..i + 1]) == Foot(l.kids[i]) by {
      assert l.kids[i..i + 1] == [l.kids[i]];
      One(l.kids[i]);
    }
    One(k);
    RangeChanged(n, f, n1, f1, l, i, i + 1, l.items, [k], c);
    var m := l.(kids := l.kids[i := k]);
    assert Respliced(l, i, i + 1, l.items, [k]) == m;
    assert Refs(m.kids) == n[l.ref].children[i := k.ref];
  }

  function SetKid(n: Nodes, r: Ref, i: nat, c: Ref): Nodes
    requires r in n && i < |n[r].children|
  {
    n[r := n[r].(children := n[r].children[i := c])]
  }

  // ----- The operations -----

  /** `items.find`: the binary search of `sort.Search`, then one comparison to the left. */
  method Find(s: seq<Item>, k: nat) returns (index: nat, found: bool)
    requires Sorted(s)
    ensures index == Index(s, k) && found == Found(s, k)
  {
    var i, j := 0, |s|;
    while i < j
      invariant 0 <= i <= j <= |s|
      invariant forall x :: 0 <= x < i ==> s[x].key <= k
      invariant j < |s| ==> k < s[j].key
    {
      var h := (i + j) / 2;
      if k < s[h].key {
        j := h;
      } else {
        i := h + 1;
      }
    }
    UpperIs(s, k, i);
    if i > 0 && !(s[i - 1].key < k) {
      return i - 1, true;
    }
    return i, false;
  }

  class Store {
    var nodes: Nodes
    var next: Ref
    var free: seq<Ref>
    const cap: nat
    var vals: map<nat, ValueMap>

    constructor (capacity: nat)
      ensures Valid() && nodes == map[] && free == [] && cap == capacity && vals == map[]
    {
      nodes, next, free, cap, vals := map[], 0, [], capacity, map[];
    }

    ghost predicate Valid()
      reads this
    {
      && (forall r <- nodes :: r < next)
      && |free| <= cap
      && (forall i :: 0 <= i < |free| ==> free[i] in nodes && nodes[free[i]] == Rec([], [], None))
      && (forall i, j :: 0 <= i < j < |free| ==> free[i] != free[j])
    }

    ghost function Free(): set<Ref>
      reads this
    {
      set r | r in free
    }

    /** `copyOnWriteContext.newNode`: recycle a free record, or make one. */
    method NewNode(c: Ctx) returns (r: Ref)
      requires Valid()
      modifies `nodes, `free, `next
      ensures Valid()
      ensures nodes == old(nodes)[r := Rec([], [], Some(c))]
      ensures r in old(nodes) ==> r in old(Free())
      ensures Free() == old(Free()) - {r}
    {
      var index := |free| - 1;
      if index < 0 {
        r := next;
        nodes := nodes[r := Rec([], [], Some(c))];
        next := next + 1;
      } else {
        r := free[index];
        free := free[..index];
        nodes := nodes[r := nodes[r].(cow := Some(c))];
      }
    }

    /** `copyOnWriteContext.freeNode`: a record of this context is cleared and kept if there is room. */
    method FreeNode(r: Ref, c: Ctx)
      requires Valid() && r in nodes && r !in Free()
      modifies `nodes, `free
      ensures Valid()
      ensures if old(nodes)[r].cow == Some(c)
              then nodes == old(nodes)[r := Rec([], [], None)]
                   && Free() == old(Free()) + if |old(free)| < cap then {r} else {}
              else nodes == old(nodes) && Free() == old(Free())
    {
      if nodes[r].cow == Some(c) {
        nodes := nodes[r := Rec([], [], None)];
        if |free| < cap {
          free := free + [r];
        }
      }
    }

    /** `mutableFor`: the node itself if the context owns it, else a copy. */
    method MutableFor(r: Ref, c: Ctx, ghost l: Loc) returns (o: Ref, ghost m: Loc)
      requires Valid() && Settled(nodes, Free(), l) && l.ref == r
      modifies `nodes, `free, `next
      ensures Valid()
      ensures m == l.(ref := o) && Owned(nodes, Free(), m, c)
      ensures Changed(old(nodes), old(Free()), nodes, Free(), Foot(l), Foot(m), c)
    {
      FootHeld(nodes, l);
      if nodes[r].cow == Some(c) {
        return r, l;
      }
      o := NewNode(c);
      nodes := nodes[o := nodes[o].(items := nodes[r].items, children := nodes[r].children)];
      m := l.(ref := o);
      assert old(Free()) <= old(nodes).Keys;
      Copied(old(nodes), nodes, l, o);
    }

    /** `mutableChild`. */
    method MutableChild(p: Ref, i: nat, ghost l: Loc, ghost c: Ctx) returns (o: Ref, ghost m: Loc)
      requires Valid() && Owned(nodes, Free(), l, c) && l.ref == p && i < |l.kids|
      modifies `nodes, `free, `next
      ensures Valid()
      ensures m == l.(kids := l.kids[i := l.kids[i].(ref := o)]) && Owned(nodes, Free(), m, c)
      ensures o in nodes && nodes[o].cow == Some(c)
      ensures Changed(old(nodes), old(Free()), nodes, Free(), Foot(l), Foot(m), c)
    {
      hide Changed;
      Kid(nodes, Free(), l, i);
      ghost var k;
      o, k := MutableFor(nodes[p].children[i], nodes[p].cow.value, l.kids[i]);
      KidChanged(old(nodes), old(Free()), nodes, Free(), l, i, k, c);
      nodes := SetKid(nodes, p, i, o);
      m := l.(kids := l.kids[i := k]);
    }

    /** `split`: the record keeps the items before `j`; a new one gets those after it. */
    method SplitNode(r: Ref, j: nat, ghost k: Loc, ghost c: Ctx) returns (item: Item, second: Ref, ghost a: Loc, ghost b: Loc)
      requires Valid() && Owned(nodes, Free(), k, c) && k.ref == r
      requires j < |k.items| && (k.kids == [] || |k.kids| == |k.items| + 1)
      modifies `nodes, `free, `next
      ensures Valid()
      ensures item == k.items[j]
      ensures a == SplitA(k, j) && b == SplitB(k, j, second)
      ensures Owned(nodes, Free(), a, c) && Owned(nodes, Free(), b, c) && Foot(a) !! Foot(b)
      ensures Changed(old(nodes), old(Free()), nodes, Free(), Foot(k), Foot(a) + Foot(b), c)
    {
      hide Changed;
      var rec := nodes[r];
      item := rec.items[j];
      second := NewNode(rec.cow.value);
      nodes := nodes[second := nodes[second].(items := rec.items[j + 1..])];
      nodes := nodes[r := nodes[r].(items := rec.items[..j])];
      if rec.children != [] {
        nodes := nodes[second := nodes[second].(children := rec.children[j + 1..])];
        nodes := nodes[r := nodes[r].(children := rec.children[..j + 1])];
      }
      a := SplitA(k, j);
      b := SplitB(k, j, second);
      assert r in old(nodes) && r !in old(Free()) && rec.cow == Some(c);
      assert k.kids != [] ==> Refs(b.kids) == rec.children[j + 1..] && Refs(a.kids) == rec.children[..j + 1];
      assert nodes == old(nodes)[second := Rec(b.items, Refs(b.kids), Some(c))][r := Rec(a.items, Refs(a.kids), Some(c))];
      SplitChanged(old(nodes), old(Free()), k, j, second, c);
    }

    /** `maybeSplitChild`. */
    method MaybeSplitChild(p: Ref, i: nat, maxItems: nat, ghost l: Loc, ghost c: Ctx, ghost h: nat, ghost d: nat)
      returns (split: bool, ghost m: Loc)
      requires Valid() && Owned(nodes, Free(), l, c) && l.ref == p
      requires d >= 2 && maxItems == 2 * d - 1 && h > 0 && Wf(Erase(l), h, d) && i < |l.kids|
      modifies `nodes, `free, `next
      ensures Valid()
      ensures split <==> |Erase(l).children[i].items| == 2 * d - 1
      ensures Erase(m) == if split then SplitChild(Erase(l), i, h, d) else Erase(l)
      ensures m.ref == p && Owned(nodes, Free(), m, c)
      ensures Changed(old(nodes), old(Free()), nodes, Free(), Foot(l), Foot(m), c)
    {
      hide Changed, Wf, SplitChild;
      KidShape(l, i, h, d);
      Kid(nodes, Free(), l, i);
      assert nodes[p].children[i] == l.kids[i].ref && nodes[l.kids[i].ref].items == l.kids[i].items;
      if |nodes[nodes[p].children[i]].items| < maxItems {
        Unchanged(nodes, Free(), l, c);
        return false, l;
      }
      hide Holds;
      var first, second;
      first, second, m := SplitChildAt(p, i, maxItems / 2, l, c);
      EraseSplitChild(l, i, first, second, h, d);
      split := true;
    }

    method SplitChildAt(p: Ref, i: nat, j: nat, ghost l: Loc, ghost c: Ctx) returns (first: Ref, second: Ref, ghost m: Loc)
      requires Valid() && Owned(nodes, Free(), l, c) && l.ref == p && i < |l.kids| && i <= |l.items|
      requires j < |l.kids[i].items| && (l.kids[i].kids == [] || |l.kids[i].kids| == |l.kids[i].items| + 1)
      modifies `nodes, `free, `next
      ensures Valid()
      ensures m == LinkSplit(l, i, j, first, second) && Owned(nodes, Free(), m, c)
      ensures Changed(old(nodes), old(Free()), nodes, Free(), Foot(l), Foot(m), c)
    {
      hide Changed;
      FootHeld(nodes, l);
      var item;
      ghost var l1, a, b;
      first, l1 := MutableChild(p, i, l, c);
      ghost var n1, f1 := nodes, Free();
      Kid(n1, f1, l1, i);
      item, second, a, b := SplitNode(first, j, l1.kids[i], c);
      ghost var n2 := nodes;
      m := LinkSplit(l, i, j, first, second);
      assert m == Respliced(l1, i, i + 1, m.items, [a, b]);
      SplitLinked(n1, f1, n2, Free(), l1, i, m.items, a, b, c);
      nodes := nodes[p := nodes[p].(items := nodes[p].items[..i] + [item] + nodes[p].items[i..],
                                    children := nodes[p].children[..i + 1] + [second] + nodes[p].children[i + 1..])];
      ChangedThen(old(nodes), old(Free()), n1, f1, nodes, Free(), Foot(l), Foot(l1), Foot(m), c);
    }

    /** `bnode.insert`. */
    method Insert(r: Ref, it: Item, maxItems: nat, ghost l: Loc, ghost c: Ctx, ghost h: nat, ghost d: nat)
      returns (out: Option<Item>, ghost m: Loc)
      requires Valid() && Owned(nodes, Free(), l, c) && l.ref == r
      requires d >= 2 && maxItems == 2 * d - 1 && Wf(Erase(l), h, d) && |l.items| < maxItems && Sorted(InOrder(Erase(l)))
      modifies `nodes, `free, `next, `vals
      ensures Valid()
      ensures Outcome(Erase(m), out) == BTreeSpec.Insert(Erase(l), it, h, d)
      ensures vals == if out.Some? && !HitsMedian(Erase(l), it.key, h, d) then Merge(old(vals), out.value.val, it.val) else old(vals)
      ensures m.ref == r && Owned(nodes, Free(), m, c)
      ensures Changed(old(nodes), old(Free()), nodes, Free(), Foot(l), Foot(m), c)
      decreases h
    {
      hide Changed;
      FootHeld(nodes, l);
      ItemsSorted(Erase(l));
      var i, found := Find(nodes[r].items, it.key);
      if found {
        Unchanged(nodes, Free(), l, c);
        vals := Merge(vals, nodes[r].items[i].val, it.val);
        return Some(nodes[r].items[i]), l;
      }
      if nodes[r].children == [] {
        EditItems(nodes, Free(), l, l.items[..i] + [it] + l.items[i..], c);
        nodes := nodes[r := nodes[r].(items := nodes[r].items[..i] + [it] + nodes[r].items[i..])];
        return None, l.(items := l.items[..i] + [it] + l.items[i..]);
      }
      assert Erase(l).children != [] && h > 0;
      assert Wf(Erase(l).children[i], h - 1, d);
      out, m := InsertBelow(r, i, it, maxItems, l, c, h, d);
    }

    /** The part of `insert` below the node: split the child if it is full, then go on. */
    method InsertBelow(r: Ref, i: nat, it: Item, maxItems: nat, ghost l: Loc, ghost c: Ctx, ghost h: nat, ghost d: nat)
      returns (out: Option<Item>, ghost m: Loc)
      requires Valid() && Owned(nodes, Free(), l, c) && l.ref == r && d >= 2 && maxItems == 2 * d - 1 && h > 0
      requires Wf(Erase(l), h, d) && Sorted(InOrder(Erase(l))) && i < |l.kids|
      modifies `nodes, `free, `next, `vals
      ensures Valid()
      ensures Wf(Erase(l).children[i], h - 1, d)
      ensures Outcome(Erase(m), out)
           == if |Erase(l).children[i].items| < maxItems then InsertChild(Erase(l), i, it, h, d)
              else InsertAround(SplitChild(Erase(l), i, h, d), i, it, h, d)
      ensures var hit := if |Erase(l).children[i].items| < maxItems then HitsMedian(Erase(l).children[i], it.key, h - 1, d)
                         else HitsAround(SplitChild(Erase(l), i, h, d), i, it.key, h, d);
              vals == if out.Some? && !hit then Merge(old(vals), out.value.val, it.val) else old(vals)
      ensures m.ref == r && Owned(nodes, Free(), m, c)
      ensures Changed(old(nodes), old(Free()), nodes, Free(), Foot(l), Foot(m), c)
      decreases h, 2
    {
      hide Changed;
      assert Wf(Erase(l).children[i], h - 1, d);
      FootHeld(nodes, l);
      var split;
      ghost var l1;
      split, l1 := MaybeSplitChild(r, i, maxItems, l, c, h, d);
      ghost var n1, f1 := nodes, Free();
      if split {
        SplitChildKeeps(Erase(l), i, h, d);
        SplitChildItems(Erase(l), i, h, d);
        SplitChildWf(Erase(l), i, h, d);
        out, m := InsertBeside(r, i, it, maxItems, l1, c, h, d);
      } else {
        out, m := InsertInChild(r, i, it, maxItems, l1, c, h, d);
      }
      ChangedThen(old(nodes), old(Free()), n1, f1, nodes, Free(), Foot(l), Foot(l1), Foot(m), c);
    }

    /** After a split around item `i`: the switch over the new separator. */
    method InsertBeside(r: Ref, i: nat, it: Item, maxItems: nat, ghost l: Loc, ghost c: Ctx, ghost h: nat, ghost d: nat)
      returns (out: Option<Item>, ghost m: Loc)
      requires Valid() && Owned(nodes, Free(), l, c) && l.ref == r && |l.kids| == |l.items| + 1 && i < |l.items|
      requires d >= 2 && maxItems == 2 * d - 1 && h > 0 && Sorted(InOrder(Erase(l)))
      requires Wf(Erase(l).children[i], h - 1, d) && |Erase(l).children[i].items| < maxItems
      requires Wf(Erase(l).children[i + 1], h - 1, d) && |Erase(l).children[i + 1].items| < maxItems
      modifies `nodes, `free, `next, `vals
      ensures Valid()
      ensures Outcome(Erase(m), out) == InsertAround(Erase(l), i, it, h, d)
      ensures vals == if out.Some? && !HitsAround(Erase(l), i, it.key, h, d) then Merge(old(vals), out.value.val, it.val) else old(vals)
      ensures m.ref == r && Owned(nodes, Free(), m, c)
      ensures Changed(old(nodes), old(Free()), nodes, Free(), Foot(l), Foot(m), c)
      decreases h, 1
    {
      hide Changed;
      var inTree := nodes[r].items[i];
      if it.key < inTree.key {
        out, m := InsertInChild(r, i, it, maxItems, l, c, h, d);
      } else if inTree.key < it.key {
        out, m := InsertInChild(r, i + 1, it, maxItems, l, c, h, d);
      } else {
        EditItems(nodes, Free(), l, l.items[i := it], c);
        nodes := nodes[r := nodes[r].(items := nodes[r].items[i := it])];
        out, m := Some(inTree), l.(items := l.items[i := it]);
      }
    }

    method InsertInChild(r: Ref, i: nat, it: Item, maxItems: nat, ghost l: Loc, ghost c: Ctx, ghost h: nat, ghost d: nat)
      returns (out: Option<Item>, ghost m: Loc)
      requires Valid() && Owned(nodes, Free(), l, c) && l.ref == r && |l.kids| == |l.items| + 1 && i < |l.kids|
      requires d >= 2 && maxItems == 2 * d - 1 && h > 0 && Sorted(InOrder(Erase(l)))
      requires Wf(Erase(l.kids[i]), h - 1, d) && |l.kids[i].items| < maxItems
      modifies `nodes, `free, `next, `vals
      ensures Valid()
      ensures Outcome(Erase(m), out) == InsertChild(Erase(l), i, it, h, d)
      ensures vals == if out.Some? && !HitsMedian(Erase(l.kids[i]), it.key, h - 1, d)
                      then Merge(old(vals), out.value.val, it.val) else old(vals)
      ensures m.ref == r && Owned(nodes, Free(), m, c)
      ensures Changed(old(nodes), old(Free()), nodes, Free(), Foot(l), Foot(m), c)
      decreases h, 0
    {
      hide Changed;
      SortedChild(Erase(l), i);
      var child;
      ghost var l1, k;
      child, l1 := MutableChild(r, i, l, c);
      ghost var n1, f1 := nodes, Free();
      Kid(n1, f1, l1, i);
      assert Erase(l1.kids[i]) == Erase(l.kids[i]);
      out, k := Insert(child, it, maxItems, l1.kids[i], c, h - 1, d);
      m := l.(kids := l.kids[i := k]);
      ChildDone(old(nodes), old(Free()), n1, f1, nodes, Free(), l, i, child, k, c);
    }

    /** Both neighbours `j` and `j + 1`, made mutable for a steal (the thief first). */
    method MutablePair(p: Ref, j: nat, leftFirst: bool, ghost l: Loc, ghost c: Ctx) returns (a: Ref, b: Ref, ghost m: Loc)
      requires Valid() && Owned(nodes, Free(), l, c) && l.ref == p && j + 1 < |l.kids|
      modifies `nodes, `free, `next
      ensures Valid()
      ensures m == l.(kids := l.kids[j := l.kids[j].(ref := a)][j + 1 := l.kids[j + 1].(ref := b)])
      ensures Owned(nodes, Free(), m, c)
      ensures a in nodes && nodes[a].cow == Some(c) && b in nodes && nodes[b].cow == Some(c)
      ensures Changed(old(nodes), old(Free()), nodes, Free(), Foot(l), Foot(m), c)
    {
      hide *;
      if leftFirst {
        a, b, m := MutableTwo(p, j, j + 1, l, c);
      } else {
        b, a, m := MutableTwo(p, j + 1, j, l, c);
      }
    }

    /** `mutableChild` for one child and then another. */
    method MutableTwo(p: Ref, u: nat, v: nat, ghost l: Loc, ghost c: Ctx) returns (a: Ref, b: Ref, ghost m: Loc)
      requires Valid() && Owned(nodes, Free(), l, c) && l.ref == p && u < |l.kids| && v < |l.kids| && u != v
      modifies `nodes, `free, `next
      ensures Valid()
      ensures m == l.(kids := l.kids[u := l.kids[u].(ref := a)][v := l.kids[v].(ref := b)])
      ensures Owned(nodes, Free(), m, c)
      ensures a in nodes && nodes[a].cow == Some(c) && b in nodes && nodes[b].cow == Some(c)
      ensures Changed(old(nodes), old(Free()), nodes, Free(), Foot(l), Foot(m), c)
    {
      FootHeld(nodes, l);
      hide Changed, Holds, Foot, Distinct;
      a, m := MutableChild(p, u, l, c);
      ghost var l1, n1, f1 := m, nodes, Free();
      b, m := MutableChild(p, v, l1, c);
      ChangedThen(old(nodes), old(Free()), n1, f1, nodes, Free(), Foot(l), Foot(l1), Foot(m), c);
      StillOwned(n1, f1, nodes, Free(), l1, m, a, u, c);
    }

    /** `growChildAndRemove`, first branch: child `j + 1` takes an item through the separator from its left neighbour. */
    method StealLeft(p: Ref, j: nat, ghost l: Loc, ghost c: Ctx) returns (a: Ref, b: Ref, ghost m: Loc)
      requires Valid() && Owned(nodes, Free(), l, c) && l.ref == p && CanSteal(l, j) && l.kids[j].items != []
      modifies `nodes, `free, `next
      ensures Valid()
      ensures m == FromLeft(l, j, a, b) && m.ref == p && Owned(nodes, Free(), m, c)
      ensures Changed(old(nodes), old(Free()), nodes, Free(), Foot(l), Foot(m), c)
    {
      hide Changed;
      FootHeld(nodes, l);
      ghost var l1;
      a, b, l1 := MutablePair(p, j, false, l, c);
      ghost var n1, f1 := nodes, Free();
      PairRecords(n1, f1, l1, j);
      assert nodes[p].items == l.items;
      hide Holds, Foot, Distinct;
      var ra, rb, rp := nodes[a], nodes[b], nodes[p];
      var stolen := ra.items[|ra.items| - 1];
      ra := ra.(items := ra.items[..|ra.items| - 1]);
      rb := rb.(items := [rp.items[j]] + rb.items);
      rp := rp.(items := rp.items[j := stolen]);
      if |ra.children| > 0 {
        rb := rb.(children := [ra.children[|ra.children| - 1]] + rb.children);
        ra := ra.(children := ra.children[..|ra.children| - 1]);
      }
      m := FromLeft(l, j, a, b);
      FromLeftIs(l, l1, j, a, b, ra.children, rb.children);
      Rebalance(n1, f1, l1, j, m.kids[j], stolen, m.kids[j + 1], c);
      nodes := nodes[a := ra][b := rb][p := rp];
      ChangedThen(old(nodes), old(Free()), n1, f1, nodes, Free(), Foot(l), Foot(l1), Foot(m), c);
    }

    /** Second branch: child `j` takes an item through the separator from its right neighbour. */
    method StealRight(p: Ref, j: nat, ghost l: Loc, ghost c: Ctx) returns (a: Ref, b: Ref, ghost m: Loc)
      requires Valid() && Owned(nodes, Free(), l, c) && l.ref == p && CanSteal(l, j) && l.kids[j + 1].items != []
      modifies `nodes, `free, `next
      ensures Valid()
      ensures m == FromRight(l, j, a, b) && m.ref == p && Owned(nodes, Free(), m, c)
      ensures Changed(old(nodes), old(Free()), nodes, Free(), Foot(l), Foot(m), c)
    {
      hide Changed;
      FootHeld(nodes, l);
      ghost var l1;
      a, b, l1 := MutablePair(p, j, true, l, c);
      ghost var n1, f1 := nodes, Free();
      PairRecords(n1, f1, l1, j);
      assert nodes[p].items == l.items;
      hide Holds, Foot, Distinct;
      var ra, rb, rp := nodes[a], nodes[b], nodes[p];
      var stolen := rb.items[0];
      rb := rb.(items := rb.items[1..]);
      ra := ra.(items := ra.items + [rp.items[j]]);
      rp := rp.(items := rp.items[j := stolen]);
      if |rb.children| > 0 {
        ra := ra.(children := ra.children + [rb.children[0]]);
        rb := rb.(children := rb.children[1..]);
      }
      m := FromRight(l, j, a, b);
      FromRightIs(l, l1, j, a, b, ra.children, rb.children);
      Rebalance(n1, f1, l1, j, m.kids[j], stolen, m.kids[j + 1], c);
      nodes := nodes[a := ra][b := rb][p := rp];
      ChangedThen(old(nodes), old(Free()), n1, f1, nodes, Free(), Foot(l), Foot(l1), Foot(m), c);
    }

    /** Third branch: child `j` absorbs the separator and its right neighbour, whose record is freed if owned. */
    method MergeRight(p: Ref, j: nat, ghost l: Loc, ghost c: Ctx) returns (a: Ref, ghost m: Loc)
      requires Valid() && Owned(nodes, Free(), l, c) && l.ref == p && CanSteal(l, j)
      modifies `nodes, `free, `next
      ensures Valid()
      ensures m == Merged(l, j, a) && m.ref == p && Owned(nodes, Free(), m, c)
      ensures Changed(old(nodes), old(Free()), nodes, Free(), Foot(l), Foot(m), c)
    {
      hide Changed;
      FootHeld(nodes, l);
      ghost var l1;
      a, l1 := MutableChild(p, j, l, c);
      ghost var n1, f1 := nodes, Free();
      PairRecords(n1, f1, l1, j);
      assert nodes[p].items == l.items && nodes[p].children == Refs(l1.kids) && l1.kids[j + 1] == l.kids[j + 1];
      Kid(n1, f1, l1, j + 1);
      assert l1.kids[j + 1].ref !in f1 && |l1.kids| == |l.kids|;
      m := Merged(l, j, a);
      ghost var room := |free| < cap;
      MergeChanged(n1, f1, l1, j, c, room);
      hide Holds, Foot, Distinct, Owned, Settled;
      var rp := nodes[p];
      var mergeItem, mergeChild := rp.items[j], rp.children[j + 1];
      nodes := nodes[p := rp.(items := rp.items[..j] + rp.items[j + 1..], children := rp.children[..j + 1] + rp.children[j + 2..])];
      nodes := nodes[a := nodes[a].(items := nodes[a].items + [mergeItem] + nodes[mergeChild].items,
                                    children := nodes[a].children + nodes[mergeChild].children)];
      ghost var n2 := nodes;
      MergedIs(l, l1, j, a, n2[p].children, n2[a].children);
      FreeNode(mergeChild, rp.cow.value);
      assert nodes == MergeNodes(n1, l1, j, c);
      assert Free() == if n1[mergeChild].cow == Some(c) && room then f1 + {mergeChild} else f1;
      ChangedThen(old(nodes), old(Free()), n1, f1, nodes, Free(), Foot(l), Foot(l1), Foot(m), c);
    }

    /** `growChildAndRemove` up to its final call. */
    method GrowChild(r: Ref, i: nat, minItems: nat, ghost l: Loc, ghost c: Ctx, ghost h: nat, ghost d: nat) returns (ghost m: Loc)
      requires Valid() && Owned(nodes, Free(), l, c) && l.ref == r
      requires CanGrow(Erase(l), i, h, d) && minItems == d - 1
      modifies `nodes, `free, `next
      ensures Valid()
      ensures Erase(m) == Grow(Erase(l), i, h, d) && m.ref == r && Owned(nodes, Free(), m, c)
      ensures Changed(old(nodes), old(Free()), nodes, Free(), Foot(l), Foot(m), c)
    {
      KidRecords(nodes, l);
      CanGrowShape(l, i, h, d);
      hide CanGrow, Wf, Holds, Foot, Distinct, Owned, Settled, Erase, Grow, FromLeft, FromRight, Merged, CanSteal, CanShift, CanMerge, ShiftAt, MergeAt, Refs, Changed;
      var children, items := nodes[r].children, nodes[r].items;
      if i > 0 && |nodes[children[i - 1]].items| > minItems {
        m := GrowFromLeft(r, i, l, c, h, d);
      } else if i < |items| && |nodes[children[i + 1]].items| > minItems {
        m := GrowFromRight(r, i, l, c, h, d);
      } else {
        m := GrowMerged(r, i, |items|, l, c, h, d);
      }
    }

    /** Its first branch. */
    method GrowFromLeft(r: Ref, i: nat, ghost l: Loc, ghost c: Ctx, ghost h: nat, ghost d: nat) returns (ghost m: Loc)
      requires Valid() && Owned(nodes, Free(), l, c) && l.ref == r
      requires CanGrow(Erase(l), i, h, d) && LeftSpares(l, i, d)
      modifies `nodes, `free, `next
      ensures Valid()
      ensures Erase(m) == Grow(Erase(l), i, h, d) && m.ref == r && Owned(nodes, Free(), m, c)
      ensures Changed(old(nodes), old(Free()), nodes, Free(), Foot(l), Foot(m), c)
    {
      CanGrowShape(l, i, h, d);
      hide CanGrow, Wf, Holds, Foot, Distinct, Owned, Settled, Erase, Grow, FromLeft, FromRight, Merged, CanSteal, CanShift, CanMerge, ShiftAt, MergeAt, Refs, Changed, GrowsByShift;
      ghost var n := |l.kids[i - 1].items| - 1;
      GrowsLeft(l, i, n, h, d);
      var a, b;
      a, b, m := StealLeft(r, i - 1, l, c);
      GrownLeft(l, i, n, a, b, h, d);
    }

    /** Its second branch. */
    method GrowFromRight(r: Ref, i: nat, ghost l: Loc, ghost c: Ctx, ghost h: nat, ghost d: nat) returns (ghost m: Loc)
      requires Valid() && Owned(nodes, Free(), l, c) && l.ref == r
      requires CanGrow(Erase(l), i, h, d) && !LeftSpares(l, i, d) && RightSpares(l, i, d)
      modifies `nodes, `free, `next
      ensures Valid()
      ensures Erase(m) == Grow(Erase(l), i, h, d) && m.ref == r && Owned(nodes, Free(), m, c)
      ensures Changed(old(nodes), old(Free()), nodes, Free(), Foot(l), Foot(m), c)
    {
      CanGrowShape(l, i, h, d);
      hide CanGrow, Wf, Holds, Foot, Distinct, Owned, Settled, Erase, Grow, FromLeft, FromRight, Merged, CanSteal, CanShift, CanMerge, ShiftAt, MergeAt, Refs, Changed;
      GrowsRight(l, i, h, d);
      var a, b;
      a, b, m := StealRight(r, i, l, c);
      EraseFromRight(l, i, a, b, h, d);
    }

    /** Its third branch. */
    method GrowMerged(r: Ref, i: nat, count: nat, ghost l: Loc, ghost c: Ctx, ghost h: nat, ghost d: nat) returns (ghost m: Loc)
      requires Valid() && Owned(nodes, Free(), l, c) && l.ref == r
      requires CanGrow(Erase(l), i, h, d) && !LeftSpares(l, i, d) && !RightSpares(l, i, d) && count == |l.items|
      modifies `nodes, `free, `next
      ensures Valid()
      ensures Erase(m) == Grow(Erase(l), i, h, d) && m.ref == r && Owned(nodes, Free(), m, c)
      ensures Changed(old(nodes), old(Free()), nodes, Free(), Foot(l), Foot(m), c)
    {
      CanGrowShape(l, i, h, d);
      hide CanGrow, Wf, Holds, Foot, Distinct, Owned, Settled, Erase, Grow, FromLeft, FromRight, Merged, CanSteal, CanShift, CanMerge, ShiftAt, MergeAt, Refs, Changed;
      var j := if i >= count then i - 1 else i;
      GrowsMerged(l, i, j, h, d);
      var a;
      a, m := MergeRight(r, j, l, c);
      EraseMerged(l, j, a, h, d);
    }

    /** `growChildAndRemove`. */
    method GrowChildAndRemove(r: Ref, i: nat, k: nat, minItems: nat, typ: Kind, ghost l: Loc, ghost c: Ctx, ghost h: nat, ghost d: nat)
      returns (out: Option<Item>, ghost m: Loc)
      requires Valid() && Owned(nodes, Free(), l, c) && l.ref == r
      requires minItems == d - 1 && Sorted(InOrder(Erase(l))) && i == Slot(Erase(l), k, typ) && CanGrow(Erase(l), i, h, d)
      modifies `nodes, `free, `next
      ensures Valid()
      ensures Outcome(Erase(m), out) == BTreeSpec.Remove(Erase(l), k, typ, h, d)
      ensures m.ref == r && Owned(nodes, Free(), m, c)
      ensures Changed(old(nodes), old(Free()), nodes, Free(), Foot(l), Foot(m), c)
      decreases h, 3
    {
      ghost var t := Erase(l);
      assert d >= 2;
      GrowKeeps(t, i, h, d);
      GrowFeeds(t, k, typ, h, d);
      hide Changed, Wf, InOrder, Grow, CanGrow;
      FootHeld(nodes, l);
      ghost var g := GrowChild(r, i, minItems, l, c, h, d);
      ghost var n1, f1 := nodes, Free();
      RegrownSame(t, k, typ, h, d);
      out, m := Remove(r, k, minItems, typ, g, c, h, d);
      ChangedThen(old(nodes), old(Free()), n1, f1, nodes, Free(), Foot(l), Foot(g), Foot(m), c);
    }

    /** `bnode.remove`. */
    method Remove(r: Ref, k: nat, minItems: nat, typ: Kind, ghost l: Loc, ghost c: Ctx, ghost h: nat, ghost d: nat)
      returns (out: Option<Item>, ghost m: Loc)
      requires Valid() && Owned(nodes, Free(), l, c) && l.ref == r
      requires d >= 2 && minItems == d - 1 && Removable(Erase(l), h, d) && Sorted(InOrder(Erase(l)))
      modifies `nodes, `free, `next
      ensures Valid()
      ensures Outcome(Erase(m), out) == BTreeSpec.Remove(Erase(l), k, typ, h, d)
      ensures m.ref == r && Owned(nodes, Free(), m, c)
      ensures Changed(old(nodes), old(Free()), nodes, Free(), Foot(l), Foot(m), c)
      decreases h, if h > 0 && Short(Erase(l).children[Slot(Erase(l), k, typ)], d) then 4 else 2
    {
      var i, found := 0, false;
      ItemsSorted(Erase(l));
      KidRecords(nodes, l);
      match typ {
        case RemoveMax => i := |nodes[r].items|;
        case RemoveMin => i := 0;
        case RemoveItem => i, found := Find(nodes[r].items, k);
      }
      assert nodes[r].children == [] <==> h == 0;
      if nodes[r].children == [] {
        out, m := RemoveInLeaf(r, k, typ, i, found, l, c);
        return;
      }
      assert i == Slot(Erase(l), k, typ);
      KidShape(l, i, h, d);
      if |nodes[nodes[r].children[i]].items| <= minItems {
        out, m := GrowChildAndRemove(r, i, k, minItems, typ, l, c, h, d);
        return;
      }
      out, m := RemoveInChild(r, i, k, minItems, typ, found, l, c, h, d);
    }

    method RemoveInLeaf(r: Ref, k: nat, typ: Kind, i: nat, found: bool, ghost l: Loc, ghost c: Ctx) returns (out: Option<Item>, ghost m: Loc)
      requires Valid() && Owned(nodes, Free(), l, c) && l.ref == r && l.items != [] && l.kids == []
      requires i == Slot(Erase(l), k, typ) && found == (typ == RemoveItem && Found(l.items, k))
      modifies `nodes
      ensures Valid()
      ensures Outcome(Erase(m), out) == RemoveFromLeaf(Erase(l), k, typ)
      ensures m.ref == r && Owned(nodes, Free(), m, c)
      ensures Changed(old(nodes), old(Free()), nodes, Free(), Foot(l), Foot(m), c)
    {
      hide Changed;
      var items := nodes[r].items;
      var rest;
      match typ {
        case RemoveMax => out, rest := Some(items[|items| - 1]), items[..|items| - 1];
        case RemoveMin => out, rest := Some(items[0]), items[1..];
        case RemoveItem =>
          if found {
            out, rest := Some(items[i]), items[..i] + items[i + 1..];
          } else {
            out, rest := None, items;
          }
      }
      EditItems(nodes, Free(), l, rest, c);
      nodes := nodes[r := nodes[r].(items := rest)];
      m := l.(items := rest);
    }

    method RemoveInChild(r: Ref, i: nat, k: nat, minItems: nat, typ: Kind, found: bool, ghost l: Loc, ghost c: Ctx, ghost h: nat, ghost d: nat)
      returns (out: Option<Item>, ghost m: Loc)
      requires Valid() && Owned(nodes, Free(), l, c) && l.ref == r && |l.kids| == |l.items| + 1 && h > 0
      requires d >= 2 && minItems == d - 1 && Sorted(InOrder(Erase(l))) && i == Slot(Erase(l), k, typ)
      requires Removable(Erase(l.kids[i]), h - 1, d) && found == (typ == RemoveItem && Found(l.items, k))
      modifies `nodes, `free, `next
      ensures Valid()
      ensures Outcome(Erase(m), out) == RemoveBelow(Erase(l), k, typ, h, d)
      ensures m.ref == r && Owned(nodes, Free(), m, c)
      ensures Changed(old(nodes), old(Free()), nodes, Free(), Foot(l), Foot(m), c)
      decreases h, 1
    {
      hide Changed, Wf, InOrder, Sorted;
      assert Erase(l).children[i] == Erase(l.kids[i]);
      var got;
      ghost var l1;
      got, l1 := RemoveFromKid(r, i, k, minItems, if found then RemoveMax else typ, l, c, h, d);
      out, m := got, l1;
      if found {
        FootHeld(old(nodes), l);
        ghost var n1 := nodes;
        out := Some(nodes[r].items[i]);
        m := SetItem(r, i, got.value, l1, c);
        ChangedThen(old(nodes), old(Free()), n1, Free(), nodes, Free(), Foot(l), Foot(l1), Foot(m), c);
      }
    }

    method RemoveFromKid(r: Ref, i: nat, k: nat, minItems: nat, typ: Kind, ghost l: Loc, ghost c: Ctx, ghost h: nat, ghost d: nat)
      returns (out: Option<Item>, ghost m: Loc)
      requires Valid() && Owned(nodes, Free(), l, c) && l.ref == r && |l.kids| == |l.items| + 1 && h > 0 && i < |l.kids|
      requires d >= 2 && minItems == d - 1 && Sorted(InOrder(Erase(l))) && Removable(Erase(l.kids[i]), h - 1, d)
      modifies `nodes, `free, `next
      ensures Valid()
      ensures out == BTreeSpec.Remove(Erase(l.kids[i]), k, typ, h - 1, d).out
      ensures Erase(m) == Erase(l).(children := Erase(l).children[i := BTreeSpec.Remove(Erase(l.kids[i]), k, typ, h - 1, d).tree])
      ensures m.ref == r && m.items == l.items && Owned(nodes, Free(), m, c)
      ensures Changed(old(nodes), old(Free()), nodes, Free(), Foot(l), Foot(m), c)
      decreases h, 0
    {
      SortedChild(Erase(l), i);
      hide Changed, Wf, InOrder, Sorted;
      var child;
      ghost var l1, x;
      child, l1 := MutableChild(r, i, l, c);
      ghost var n1, f1 := nodes, Free();
      Kid(n1, f1, l1, i);
      assert Erase(l1.kids[i]) == Erase(l.kids[i]);
      out, x := Remove(child, k, minItems, typ, l1.kids[i], c, h - 1, d);
      ChildDone(old(nodes), old(Free()), n1, f1, nodes, Free(), l, i, child, x, c);
      m := l.(kids := l.kids[i := x]);
    }

    method SetItem(r: Ref, i: nat, x: Item, ghost l: Loc, ghost c: Ctx) returns (ghost m: Loc)
      requires Valid() && Owned(nodes, Free(), l, c) && l.ref == r && i < |l.items|
      modifies `nodes
      ensures Valid()
      ensures m == l.(items := l.items[i := x]) && Erase(m) == Erase(l).(items := l.items[i := x])
      ensures Owned(nodes, Free(), m, c)
      ensures Changed(old(nodes), old(Free()), nodes, Free(), Foot(l), Foot(m), c)
    {
      hide Changed;
      EditItems(nodes, Free(), l, l.items[i := x], c);
      nodes := nodes[r := nodes[r].(items := nodes[r].items[i := x])];
      m := l.(items := l.items[i := x]);
    }
  }

  lemma {:induction false} RegrownSame(t: Tree, k: nat, typ: Kind, h: nat, d: nat)
    requires CanGrow(t, Slot(t, k, typ), h, d) && Sorted(InOrder(t))
    ensures var u := Grow(t, Slot(t, k, typ), h, d);
            && Removable(u, h, d) && !Short(u.children[Slot(u, k, typ)], d)
            && Remove(u, k, typ, h, d) == Remove(t, k, typ, h, d)
  {
    GrowFeeds(t, k, typ, h, d);
  }

  lemma {:induction false} CanGrowShape(l: Loc, i: nat, h: nat, d: nat)
    requires CanGrow(Erase(l), i, h, d)
    ensures |l.kids| == |l.items| + 1 && i < |l.kids| && l.items != [] && h > 0 && d >= 2
  {
  }

  // Which steal or merge the spec chooses, read off the located tree.

  ghost predicate LeftSpares(l: Loc, i: nat, d: nat) {
    0 < i <= |l.kids| && |l.kids[i - 1].items| > d - 1
  }

  ghost predicate RightSpares(l: Loc, i: nat, d: nat) {
    i < |l.items| && i + 1 < |l.kids| && |l.kids[i + 1].items| > d - 1
  }

  /** Growing child `i` is one shift between `j` and `j + 1`. */
  ghost predicate GrowsByShift(t: Tree, i: nat, j: nat, n: nat, h: nat, d: nat) {
    CanGrow(t, i, h, d) && CanShift(t, j, n, h, d) && Grow(t, i, h, d) == ShiftAt(t, j, n, h, d)
  }

  lemma {:induction false} GrowsLeft(l: Loc, i: nat, n: nat, h: nat, d: nat)
    requires CanGrow(Erase(l), i, h, d) && LeftSpares(l, i, d) && |l.kids[i - 1].items| == n + 1
    ensures CanSteal(l, i - 1) && GrowsByShift(Erase(l), i, i - 1, n, h, d)
  {
    KidShape(l, i, h, d);
    KidShape(l, i - 1, h, d);
    BothLeaves(l, i - 1, h, d);
    assert Plan(Erase(l), i, h, d) == ShiftStep(i - 1, n);
  }

  lemma {:induction false} GrownLeft(l: Loc, i: nat, n: nat, a: Ref, b: Ref, h: nat, d: nat)
    requires CanGrow(Erase(l), i, h, d) && LeftSpares(l, i, d) && |l.kids[i - 1].items| == n + 1
    requires CanSteal(l, i - 1) && GrowsByShift(Erase(l), i, i - 1, n, h, d)
    ensures Erase(FromLeft(l, i - 1, a, b)) == Grow(Erase(l), i, h, d)
  {
    hide Erase, Grow, CanGrow, CanShift, FromLeft, ShiftAt, CanSteal, Wf;
    CanGrowShape(l, i, h, d);
    EraseFromLeft(l, i - 1, a, b, h, d);
  }

  lemma {:induction false} GrowsRight(l: Loc, i: nat, h: nat, d: nat)
    requires CanGrow(Erase(l), i, h, d) && !LeftSpares(l, i, d) && RightSpares(l, i, d)
    ensures CanSteal(l, i) && l.kids[i + 1].items != []
    ensures CanShift(Erase(l), i, |l.kids[i].items| + 1, h, d)
    ensures Grow(Erase(l), i, h, d) == ShiftAt(Erase(l), i, |l.kids[i].items| + 1, h, d)
  {
    KidShape(l, i, h, d);
    KidShape(l, i + 1, h, d);
    BothLeaves(l, i, h, d);
    EraseFacts(l);
    assert Plan(Erase(l), i, h, d) == ShiftStep(i, |l.kids[i].items| + 1);
  }

  lemma {:induction false} GrowsMerged(l: Loc, i: nat, j: nat, h: nat, d: nat)
    requires CanGrow(Erase(l), i, h, d) && !LeftSpares(l, i, d) && !RightSpares(l, i, d)
    requires if i >= |l.items| then j + 1 == i else j == i
    ensures CanSteal(l, j) && CanMerge(Erase(l), j, h, d)
    ensures Grow(Erase(l), i, h, d) == MergeAt(Erase(l), j, h, d)
  {
    KidShape(l, j, h, d);
    KidShape(l, j + 1, h, d);
    BothLeaves(l, j, h, d);
    EraseFacts(l);
    assert Plan(Erase(l), i, h, d) == MergeStep(j);
  }

  lemma {:induction false} KidRecords(n: Nodes, l: Loc)
    requires Holds(n, l)
    ensures l.ref in n && n[l.ref].items == l.items && |n[l.ref].children| == |l.kids|
    ensures forall i :: 0 <= i < |l.kids| ==> n[l.ref].children[i] == l.kids[i].ref && l.kids[i].ref in n && n[l.kids[i].ref].items == l.kids[i].items
  {
  }

  lemma {:induction false} EraseFromLeft(l: Loc, j: nat, a: Ref, b: Ref, h: nat, d: nat)
    requires h > 0 && j + 1 < |l.kids| && l.kids[j].items != [] && CanShift(Erase(l), j, |l.kids[j].items| - 1, h, d)
    ensures CanSteal(l, j)
    ensures Erase(FromLeft(l, j, a, b)) == ShiftAt(Erase(l), j, |l.kids[j].items| - 1, h, d)
  {
    KidShape(l, j, h, d);
    KidShape(l, j + 1, h, d);
    BothLeaves(l, j, h, d);
    hide Wf;
    var t, m := Erase(l), FromLeft(l, j, a, b);
    EraseFacts(l);
    EraseLeftPair(l, j, a, b);
    hide Erase;
    var p := Shift(t.children[j], l.items[j], t.children[j + 1], |l.kids[j].items| - 1);
    hide Shift;
    EraseIs(m, Node(m.items, t.children[j := p.0][j + 1 := p.2]));
  }

  lemma {:induction false} EraseLeftPair(l: Loc, j: nat, a: Ref, b: Ref)
    requires CanSteal(l, j) && l.kids[j].items != []
    ensures var x, y := Erase(l.kids[j]), Erase(l.kids[j + 1]);
            var p := Shift(x, l.items[j], y, |x.items| - 1);
            var m := FromLeft(l, j, a, b);
            Erase(m.kids[j]) == p.0 && Erase(m.kids[j + 1]) == p.2 && m.items[j] == p.1
  {
    EraseLoseLast(l.kids[j], a);
    EraseGainFirst(l.kids[j + 1], b, l.items[j], l.kids[j]);
    ShiftLeftOne(Erase(l.kids[j]), l.items[j], Erase(l.kids[j + 1]));
  }

  lemma {:induction false} EraseLoseLast(x: Loc, a: Ref)
    requires ShapedLoc(x) && x.items != []
    ensures var t := Erase(x);
            Erase(LoseLast(x, a)) == Node(t.items[..|t.items| - 1], if t.children == [] then [] else t.children[..|t.items|])
  {
  }

  lemma {:induction false} EraseGainFirst(y: Loc, b: Ref, sep: Item, x: Loc)
    requires ShapedLoc(x) && (x.kids == [] <==> y.kids == [])
    ensures var s, t := Erase(x), Erase(y);
            Erase(GainFirst(y, b, sep, x)) == Node([sep] + t.items, if s.children == [] then [] else [s.children[|s.items|]] + t.children)
  {
  }

  lemma {:induction false} EraseGainLast(x: Loc, a: Ref, sep: Item, y: Loc)
    requires x.kids == [] <==> y.kids == []
    ensures var s, t := Erase(x), Erase(y);
            Erase(GainLast(x, a, sep, y)) == Node(s.items + [sep], if s.children == [] then [] else s.children + [t.children[0]])
  {
  }

  lemma {:induction false} EraseLoseFirst(y: Loc, b: Ref)
    requires ShapedLoc(y) && y.items != []
    ensures var t := Erase(y); Erase(LoseFirst(y, b)) == Node(t.items[1..], if t.children == [] then [] else t.children[1..])
  {
  }

  lemma {:induction false} EraseFacts(l: Loc)
    ensures Erase(l).items == l.items && |Erase(l).children| == |l.kids|
    ensures forall i :: 0 <= i < |l.kids| ==> Erase(l).children[i] == Erase(l.kids[i])
  {
  }

  lemma {:induction false} EraseIs(l: Loc, t: Tree)
    requires t.items == l.items && |t.children| == |l.kids| && forall i :: 0 <= i < |l.kids| ==> t.children[i] == Erase(l.kids[i])
    ensures Erase(l) == t
  {
    assert Erase(l).children == t.children;
  }

  lemma {:induction false} EraseFromRight(l: Loc, j: nat, a: Ref, b: Ref, h: nat, d: nat)
    requires h > 0 && j + 1 < |l.kids| && l.kids[j + 1].items != [] && CanShift(Erase(l), j, |l.kids[j].items| + 1, h, d)
    ensures CanSteal(l, j)
    ensures Erase(FromRight(l, j, a, b)) == ShiftAt(Erase(l), j, |l.kids[j].items| + 1, h, d)
  {
    KidShape(l, j, h, d);
    KidShape(l, j + 1, h, d);
    BothLeaves(l, j, h, d);
    hide Wf;
    var t, m := Erase(l), FromRight(l, j, a, b);
    EraseFacts(l);
    EraseRightPair(l, j, a, b);
    hide Erase;
    var p := Shift(t.children[j], l.items[j], t.children[j + 1], |l.kids[j].items| + 1);
    hide Shift;
    EraseIs(m, Node(m.items, t.children[j := p.0][j + 1 := p.2]));
  }

  lemma {:induction false} EraseRightPair(l: Loc, j: nat, a: Ref, b: Ref)
    requires CanSteal(l, j) && l.kids[j + 1].items != []
    ensures var x, y := Erase(l.kids[j]), Erase(l.kids[j + 1]);
            var p := Shift(x, l.items[j], y, |x.items| + 1);
            var m := FromRight(l, j, a, b);
            Erase(m.kids[j]) == p.0 && Erase(m.kids[j + 1]) == p.2 && m.items[j] == p.1
  {
    EraseGainLast(l.kids[j], a, l.items[j], l.kids[j + 1]);
    EraseLoseFirst(l.kids[j + 1], b);
    ShiftRightOne(Erase(l.kids[j]), l.items[j], Erase(l.kids[j + 1]));
  }

  lemma {:induction false} BothLeaves(l: Loc, j: nat, h: nat, d: nat)
    requires h > 0 && Wf(Erase(l), h, d) && j + 1 < |l.kids|
    ensures Erase(l.kids[j]).children == [] <==> Erase(l.kids[j + 1]).children == []
    ensures l.kids[j].kids == [] <==> l.kids[j + 1].kids == []
  {
    assert Wf(Erase(l).children[j], h - 1, d) && Wf(Erase(l).children[j + 1], h - 1, d);
  }

  lemma {:induction false} EraseMerged(l: Loc, j: nat, a: Ref, h: nat, d: nat)
    requires h > 0 && j + 1 < |l.kids| && CanMerge(Erase(l), j, h, d)
    ensures CanSteal(l, j)
    ensures Erase(Merged(l, j, a)) == MergeAt(Erase(l), j, h, d)
  {
    KidShape(l, j, h, d);
    KidShape(l, j + 1, h, d);
    hide Wf;
    var t, m := Erase(l), Merged(l, j, a);
    var z := Join(t.children[j], t.items[j], t.children[j + 1]);
    assert forall i :: 0 <= i < |l.kids| ==> t.children[i] == Erase(l.kids[i]);
    EraseIs(m.kids[j], z);
    EraseIs(m, Node(m.items, t.children[..j] + [z] + t.children[j + 2..]));
  }

  lemma {:induction false} MergedIs(l: Loc, l1: Loc, j: nat, a: Ref, cp: seq<Ref>, ca: seq<Ref>)
    requires j + 1 < |l.kids| && j < |l.items| && l1 == l.(kids := l.kids[j := l.kids[j].(ref := a)])
    requires cp == Refs(l1.kids)[..j + 1] + Refs(l1.kids)[j + 2..]
    requires ca == Refs(l.kids[j].kids) + Refs(l.kids[j + 1].kids)
    ensures Merged(l1, j, a) == Merged(l, j, a)
    ensures cp == Refs(Merged(l, j, a).kids) && ca == Refs(Merged(l, j, a).kids[j].kids)
  {
  }

  ghost function FromRight(l: Loc, j: nat, a: Ref, b: Ref): Loc
    requires CanSteal(l, j) && l.kids[j + 1].items != []
  {
    var x, y := l.kids[j], l.kids[j + 1];
    l.(items := l.items[j := y.items[0]],
       kids := l.kids[j := GainLast(x, a, l.items[j], y)][j + 1 := LoseFirst(y, b)])
  }

  ghost function Merged(l: Loc, j: nat, a: Ref): Loc
    requires j + 1 < |l.kids| && j < |l.items|
  {
    var x, y := l.kids[j], l.kids[j + 1];
    At(l.ref, l.items[..j] + l.items[j + 1..], l.kids[..j] + [At(a, x.items + [l.items[j]] + y.items, x.kids + y.kids)] + l.kids[j + 2..])
  }

  /** The records after a merge of children `j` and `j + 1`. */
  ghost function MergeNodes(n: Nodes, l: Loc, j: nat, c: Ctx): Nodes
    requires j + 1 < |l.kids| && j < |l.items| && l.kids[j + 1].ref in n
  {
    var m := Merged(l, j, l.kids[j].ref);
    var y := l.kids[j + 1].ref;
    var n1 := n[m.kids[j].ref := Rec(m.kids[j].items, Refs(m.kids[j].kids), Some(c))];
    var n2 := if n[y].cow == Some(c) then n1[y := Rec([], [], None)] else n1;
    n2[l.ref := Rec(m.items, Refs(m.kids), Some(c))]
  }

  lemma {:induction false} MergeChanged(n: Nodes, f: set<Ref>, l: Loc, j: nat, c: Ctx, room: bool)
    requires Owned(n, f, l, c) && j + 1 < |l.kids| && j < |l.items|
    requires l.kids[j].ref in n && n[l.kids[j].ref].cow == Some(c) && l.kids[j + 1].ref in n
    ensures var m := Merged(l, j, l.kids[j].ref);
            var f1 := if n[l.kids[j + 1].ref].cow == Some(c) && room then f + {l.kids[j + 1].ref} else f;
            Owned(MergeNodes(n, l, j, c), f1, m, c) && Changed(n, f, MergeNodes(n, l, j, c), f1, Foot(l), Foot(m), c)
  {
    hide Changed;
    var x, y := l.kids[j], l.kids[j + 1];
    var m := Merged(l, j, x.ref);
    var z := m.kids[j];
    var n1 := n[x.ref := Rec(z.items, Refs(z.kids), Some(c))];
    var n2 := if n[y.ref].cow == Some(c) then n1[y.ref := Rec([], [], None)] else n1;
    var f1 := if n[y.ref].cow == Some(c) && room then f + {y.ref} else f;
    assert Owned(n, f, x, c) && Settled(n, f, y) && Foot(x) !! Foot(y) && FootAll(l.kids[j..j + 2]) == Foot(x) + Foot(y) by {
      assert l.kids[j..j + 2] == [x, y];
      Two(x, y);
      Range(l, j, j + 2);
      Kid(n, f, l, j);
      Kid(n, f, l, j + 1);
    }
    Absorbed(n, f, n2, f1, x, y, z, c);
    One(z);
    assert Respliced(l, j, j + 2, m.items, [z]) == m;
    RangeChanged(n, f, n2, f1, l, j, j + 2, m.items, [z], c);
  }

  lemma {:induction false} Absorbed(n: Nodes, f: set<Ref>, n1: Nodes, f1: set<Ref>, x: Loc, y: Loc, z: Loc, c: Ctx)
    requires Owned(n, f, x, c) && Settled(n, f, y) && Foot(x) !! Foot(y)
    requires z.ref == x.ref && z.kids == x.kids + y.kids
    requires y.ref in n && n1 == var n0 := n[x.ref := Rec(z.items, Refs(z.kids), Some(c))];
                                 if n[y.ref].cow == Some(c) then n0[y.ref := Rec([], [], None)] else n0
    requires f1 == f || (f1 == f + {y.ref} && n[y.ref].cow == Some(c))
    ensures Settled(n1, f1, z) && Changed(n, f, n1, f1, Foot(x) + Foot(y), Foot(z), c)
  {
    FootHeld(n, x);
    FootHeld(n, y);
    Append(x.kids, y.kids);
    assert Foot(z) == Foot(x) + Foot(y) - {y.ref};
    AbsorbedHolds(n, n1, x, y, z, c);
    hide Holds;
  }

  lemma {:induction false} AbsorbedHolds(n: Nodes, n1: Nodes, x: Loc, y: Loc, z: Loc, c: Ctx)
    requires Holds(n, x) && Holds(n, y) && Distinct(x) && Distinct(y) && Foot(x) !! Foot(y)
    requires z.ref == x.ref && z.kids == x.kids + y.kids
    requires y.ref in n && n1 == var n0 := n[x.ref := Rec(z.items, Refs(z.kids), Some(c))];
                                 if n[y.ref].cow == Some(c) then n0[y.ref := Rec([], [], None)] else n0
    ensures Holds(n1, z)
  {
    Append(x.kids, y.kids);
    forall i | 0 <= i < |z.kids| ensures Holds(n, z.kids[i]) {
      assert z.kids[i] == if i < |x.kids| then x.kids[i] else y.kids[i - |x.kids|];
    }
    AllFramed(n, z.kids, n1);
  }

  ghost predicate CanSteal(l: Loc, j: nat) {
    && j + 1 < |l.kids| && j < |l.items|
    && (l.kids[j].kids == [] <==> l.kids[j + 1].kids == [])
    && (l.kids[j].kids == [] || |l.kids[j].kids| == |l.kids[j].items| + 1)
    && (l.kids[j + 1].kids == [] || |l.kids[j + 1].kids| == |l.kids[j + 1].items| + 1)
  }

  ghost predicate ShapedLoc(l: Loc) {
    l.kids == [] || |l.kids| == |l.items| + 1
  }

  ghost function LoseLast(x: Loc, a: Ref): Loc
    requires ShapedLoc(x) && x.items != []
  {
    At(a, x.items[..|x.items| - 1], if x.kids == [] then [] else x.kids[..|x.items|])
  }

  ghost function GainFirst(y: Loc, b: Ref, sep: Item, x: Loc): Loc
    requires ShapedLoc(x)
  {
    At(b, [sep] + y.items, if x.kids == [] then y.kids else [x.kids[|x.items|]] + y.kids)
  }

  ghost function GainLast(x: Loc, a: Ref, sep: Item, y: Loc): Loc {
    At(a, x.items + [sep], if y.kids == [] then x.kids else x.kids + [y.kids[0]])
  }

  ghost function LoseFirst(y: Loc, b: Ref): Loc
    requires ShapedLoc(y) && y.items != []
  {
    At(b, y.items[1..], if y.kids == [] then [] else y.kids[1..])
  }

  ghost function FromLeft(l: Loc, j: nat, a: Ref, b: Ref): Loc
    requires CanSteal(l, j) && l.kids[j].items != []
  {
    var x, y := l.kids[j], l.kids[j + 1];
    l.(items := l.items[j := x.items[|x.items| - 1]],
       kids := l.kids[j := LoseLast(x, a)][j + 1 := GainFirst(y, b, l.items[j], x)])
  }

  /** The children lists written by a steal are those of the two subtrees it leaves. */
  lemma {:induction false} FromLeftIs(l: Loc, l1: Loc, j: nat, a: Ref, b: Ref, ca: seq<Ref>, cb: seq<Ref>)
    requires CanSteal(l, j) && l.kids[j].items != []
    requires l1 == l.(kids := l.kids[j := l.kids[j].(ref := a)][j + 1 := l.kids[j + 1].(ref := b)])
    requires var rs, n := Refs(l.kids[j].kids), |l.kids[j].items|;
             if rs == [] then ca == [] && cb == Refs(l.kids[j + 1].kids)
             else ca == rs[..n] && cb == [rs[n]] + Refs(l.kids[j + 1].kids)
    ensures var m := FromLeft(l, j, a, b);
            && ca == Refs(m.kids[j].kids) && cb == Refs(m.kids[j + 1].kids)
            && m.kids[j].kids + m.kids[j + 1].kids == l1.kids[j].kids + l1.kids[j + 1].kids
            && m == l1.(items := m.items, kids := l1.kids[j := m.kids[j]][j + 1 := m.kids[j + 1]])
  {
    var x, y, m := l.kids[j], l.kids[j + 1], FromLeft(l, j, a, b);
    LeftKids(x, y, a, b, l.items[j], ca, cb);
    hide LoseLast, GainFirst, Refs;
    assert m.kids == l1.kids[j := m.kids[j]][j + 1 := m.kids[j + 1]];
  }

  lemma {:induction false} LeftKids(x: Loc, y: Loc, a: Ref, b: Ref, sep: Item, ca: seq<Ref>, cb: seq<Ref>)
    requires ShapedLoc(x) && ShapedLoc(y) && x.items != [] && (x.kids == [] <==> y.kids == [])
    requires var rs, n := Refs(x.kids), |x.items|;
             if rs == [] then ca == [] && cb == Refs(y.kids) else ca == rs[..n] && cb == [rs[n]] + Refs(y.kids)
    ensures var u, v := LoseLast(x, a), GainFirst(y, b, sep, x);
            ca == Refs(u.kids) && cb == Refs(v.kids) && u.kids + v.kids == x.kids + y.kids
  {
    var u, v := LoseLast(x, a), GainFirst(y, b, sep, x);
    if x.kids != [] {
      assert u.kids + v.kids == x.kids[..|x.items|] + [x.kids[|x.items|]] + y.kids;
      assert x.kids[..|x.items|] + [x.kids[|x.items|]] == x.kids;
      assert cb == Refs(v.kids);
    }
  }

  lemma {:induction false} FromRightIs(l: Loc, l1: Loc, j: nat, a: Ref, b: Ref, ca: seq<Ref>, cb: seq<Ref>)
    requires CanSteal(l, j) && l.kids[j + 1].items != []
    requires l1 == l.(kids := l.kids[j := l.kids[j].(ref := a)][j + 1 := l.kids[j + 1].(ref := b)])
    requires var rs := Refs(l.kids[j + 1].kids);
             if rs == [] then ca == Refs(l.kids[j].kids) && cb == []
             else ca == Refs(l.kids[j].kids) + [rs[0]] && cb == rs[1..]
    ensures var m := FromRight(l, j, a, b);
            && ca == Refs(m.kids[j].kids) && cb == Refs(m.kids[j + 1].kids)
            && m.kids[j].kids + m.kids[j + 1].kids == l1.kids[j].kids + l1.kids[j + 1].kids
            && m == l1.(items := m.items, kids := l1.kids[j := m.kids[j]][j + 1 := m.kids[j + 1]])
  {
    var x, y, m := l.kids[j], l.kids[j + 1], FromRight(l, j, a, b);
    var x', y' := m.kids[j], m.kids[j + 1];
    assert x' == GainLast(x, a, l.items[j], y) && y' == LoseFirst(y, b);
    assert l1.kids[j].kids == x.kids && l1.kids[j + 1].kids == y.kids;
    assert m.kids == l1.kids[j := x'][j + 1 := y'];
    if y.kids == [] {
      assert x'.kids + y'.kids == x.kids + y.kids;
    } else {
      assert [y.kids[0]] + y.kids[1..] == y.kids;
      assert x'.kids + y'.kids == x.kids + ([y.kids[0]] + y.kids[1..]);
      assert ca == Refs(x'.kids);
    }
  }

  /** The records of two neighbours and their parent are three different ones. */
  lemma {:induction false} PairRecords(n: Nodes, f: set<Ref>, l: Loc, j: nat)
    requires Settled(n, f, l) && j + 1 < |l.kids|
    ensures var a, b := l.kids[j], l.kids[j + 1];
            && a.ref != b.ref && a.ref != l.ref && b.ref != l.ref
            && a.ref in n && n[a.ref].items == a.items && n[a.ref].children == Refs(a.kids)
            && b.ref in n && n[b.ref].items == b.items && n[b.ref].children == Refs(b.kids)
  {
    assert Holds(n, l.kids[j]) && Holds(n, l.kids[j + 1]);
    assert l.kids[j..j + 2] == [l.kids[j], l.kids[j + 1]];
    Two(l.kids[j], l.kids[j + 1]);
    Range(l, j, j + 2);
  }

  /** A record in use that its context owned is still owned after more work of that context. */
  lemma {:induction false} StillOwned(n: Nodes, f: set<Ref>, n1: Nodes, f1: set<Ref>, l: Loc, m: Loc, r: Ref, j: nat, c: Ctx)
    requires Owned(n, f, l, c) && Owned(n1, f1, m, c) && Changed(n, f, n1, f1, Foot(l), Foot(m), c)
    requires j < |m.kids| && m.kids[j].ref == r && r in n && n[r].cow == Some(c)
    ensures r in n1 && n1[r].cow == Some(c)
  {
    FootIn(m.kids, j);
  }

  /** Two owned neighbours whose items and subtrees are redistributed between them. */
  lemma {:induction false} Rebalance(n: Nodes, f: set<Ref>, l: Loc, j: nat, a: Loc, sep: Item, b: Loc, c: Ctx)
    requires Owned(n, f, l, c) && j + 1 < |l.kids| && j < |l.items|
    requires a.ref == l.kids[j].ref && b.ref == l.kids[j + 1].ref && a.kids + b.kids == l.kids[j].kids + l.kids[j + 1].kids
    requires a.ref in n && n[a.ref].cow == Some(c) && b.ref in n && n[b.ref].cow == Some(c)
    ensures var m := l.(items := l.items[j := sep], kids := l.kids[j := a][j + 1 := b]);
            var n1 := n[a.ref := Rec(a.items, Refs(a.kids), Some(c))][b.ref := Rec(b.items, Refs(b.kids), Some(c))];
            var n2 := n1[l.ref := n[l.ref].(items := l.items[j := sep])];
            Owned(n2, f, m, c) && Changed(n, f, n2, f, Foot(l), Foot(m), c)
  {
    hide Changed;
    var a0, b0 := l.kids[j], l.kids[j + 1];
    var n1 := n[a.ref := Rec(a.items, Refs(a.kids), Some(c))][b.ref := Rec(b.items, Refs(b.kids), Some(c))];
    var m := l.(items := l.items[j := sep], kids := l.kids[j := a][j + 1 := b]);
    assert Owned(n, f, a0, c) && Owned(n, f, b0, c) && Foot(a0) !! Foot(b0) && FootAll(l.kids[j..j + 2]) == Foot(a0) + Foot(b0) by {
      assert l.kids[j..j + 2] == [a0, b0];
      Two(a0, b0);
      Range(l, j, j + 2);
      Kid(n, f, l, j);
      Kid(n, f, l, j + 1);
    }
    Redistributed(n, f, n1, a0, b0, a, b, c);
    Two(a, b);
    assert Respliced(l, j, j + 2, l.items[j := sep], [a, b]) == m;
    RangeChanged(n, f, n1, f, l, j, j + 2, l.items[j := sep], [a, b], c);
    assert Refs(m.kids) == Refs(l.kids);
  }

  lemma {:induction false} Redistributed(n: Nodes, f: set<Ref>, n1: Nodes, a0: Loc, b0: Loc, a: Loc, b: Loc, c: Ctx)
    requires Owned(n, f, a0, c) && Owned(n, f, b0, c) && Foot(a0) !! Foot(b0)
    requires a.ref == a0.ref && b.ref == b0.ref && a.kids + b.kids == a0.kids + b0.kids
    requires n1 == n[a.ref := Rec(a.items, Refs(a.kids), Some(c))][b.ref := Rec(b.items, Refs(b.kids), Some(c))]
    ensures Settled(n1, f, a) && Settled(n1, f, b) && Foot(a) !! Foot(b)
    ensures Changed(n, f, n1, f, Foot(a0) + Foot(b0), Foot(a) + Foot(b), c)
  {
    hide Changed;
    FootHeld(n, a0);
    FootHeld(n, b0);
    SameFeet(a0, b0, a, b);
    OwnTwo(n, f, Foot(a0) + Foot(b0), a.ref, n1[a.ref], b.ref, n1[b.ref], c);
    Append(a.kids, b.kids);
    BothHold(n, n1, a0, b0, a, b);
  }

  lemma {:induction false} SameFeet(a0: Loc, b0: Loc, a: Loc, b: Loc)
    requires Distinct(a0) && Distinct(b0) && Foot(a0) !! Foot(b0)
    requires a.ref == a0.ref && b.ref == b0.ref && a.kids + b.kids == a0.kids + b0.kids
    ensures Foot(a) + Foot(b) == Foot(a0) + Foot(b0) && Foot(a) !! Foot(b) && Distinct(a) && Distinct(b)
    ensures a.ref != b.ref && a.ref !in FootAll(a.kids + b.kids) && b.ref !in FootAll(a.kids + b.kids)
  {
    Append(a0.kids, b0.kids);
    Append(a.kids, b.kids);
  }

  lemma {:induction false} BothHold(n: Nodes, n1: Nodes, a0: Loc, b0: Loc, a: Loc, b: Loc)
    requires Holds(n, a0) && Holds(n, b0) && a.kids + b.kids == a0.kids + b0.kids
    requires forall x <- FootAll(a.kids + b.kids) :: x in n ==> x in n1 && n1[x] == n[x]
    requires a.ref in n1 && n1[a.ref].items == a.items && n1[a.ref].children == Refs(a.kids)
    requires b.ref in n1 && n1[b.ref].items == b.items && n1[b.ref].children == Refs(b.kids)
    ensures Holds(n1, a) && Holds(n1, b)
  {
    var ks := a.kids + b.kids;
    forall i | 0 <= i < |ks| ensures Holds(n, ks[i]) {
      assert ks[i] == if i < |a0.kids| then a0.kids[i] else b0.kids[i - |a0.kids|];
    }
    AllFramed(n, ks, n1);
    forall i | 0 <= i < |a.kids| ensures Holds(n1, a.kids[i]) {
      assert a.kids[i] == ks[i];
    }
    forall i | 0 <= i < |b.kids| ensures Holds(n1, b.kids[i]) {
      assert b.kids[i] == ks[|a.kids| + i];
    }
  }

  lemma {:induction false} OwnTwo(n: Nodes, f: set<Ref>, p: set<Ref>, r: Ref, rec: Rec, s: Ref, recs: Rec, c: Ctx)
    requires p <= n.Keys && p !! f && r in p && n[r].cow == Some(c) && s in p && n[s].cow == Some(c)
    requires rec.cow == Some(c) && recs.cow == Some(c)
    ensures Changed(n, f, n[r := rec][s := recs], f, p, p, c)
  {
  }

  /** Making child `i` mutable and then working on it, seen from the parent. */
  lemma {:induction false} ChildDone(n: Nodes, f: set<Ref>, n1: Nodes, f1: set<Ref>, n2: Nodes, f2: set<Ref>, l: Loc, i: nat, o: Ref, k: Loc, c: Ctx)
    requires Owned(n, f, l, c) && i < |l.kids|
    requires var l1 := l.(kids := l.kids[i := l.kids[i].(ref := o)]);
             && Owned(n1, f1, l1, c) && Changed(n, f, n1, f1, Foot(l), Foot(l1), c)
             && Settled(n2, f2, k) && k.ref == o && Changed(n1, f1, n2, f2, Foot(l1.kids[i]), Foot(k), c)
    ensures var m := l.(kids := l.kids[i := k]);
            && Owned(n2, f2, m, c) && Changed(n, f, n2, f2, Foot(l), Foot(m), c)
            && Erase(m) == Erase(l).(children := Erase(l).children[i := Erase(k)])
  {
    hide Changed;
    var l1 := l.(kids := l.kids[i := l.kids[i].(ref := o)]);
    var m := l.(kids := l.kids[i := k]);
    FootHeld(n, l);
    KidChanged(n1, f1, n2, f2, l1, i, k, c);
    assert m == l1.(kids := l1.kids[i := k]);
    assert n2[l.ref].children[i] == o;
    assert n2[l.ref].children[i := o] == n2[l.ref].children;
    assert n2[l.ref].(children := n2[l.ref].children[i := o]) == n2[l.ref];
    assert n2 == SetKid(n2, l.ref, i, k.ref);
    ChangedThen(n, f, n1, f1, n2, f2, Foot(l), Foot(l1), Foot(m), c);
  }

  /** Rewriting the items of an owned node. */
  lemma {:induction false} EditItems(n: Nodes, f: set<Ref>, l: Loc, its: seq<Item>, c: Ctx)
    requires Owned(n, f, l, c)
    ensures var n1 := n[l.ref := n[l.ref].(items := its)];
            Owned(n1, f, l.(items := its), c) && Changed(n, f, n1, f, Foot(l), Foot(l), c)
  {
    var n1 := n[l.ref := n[l.ref].(items := its)];
    FootHeld(n, l);
    AllFramed(n, l.kids, n1);
  }

  /** A split child linked into its parent. */
  lemma {:induction false} SplitLinked(n: Nodes, f: set<Ref>, n1: Nodes, f1: set<Ref>, l: Loc, i: nat, its: seq<Item>, a: Loc, b: Loc, c: Ctx)
    requires Owned(n, f, l, c) && i < |l.kids| && Settled(n1, f1, a) && Settled(n1, f1, b) && Foot(a) !! Foot(b) && a.ref == l.kids[i].ref
    requires Changed(n, f, n1, f1, Foot(l.kids[i]), Foot(a) + Foot(b), c)
    ensures l.ref in n1 && n1[l.ref] == n[l.ref] && |n1[l.ref].children| == |l.kids|
    ensures var m := Respliced(l, i, i + 1, its, [a, b]);
            var ch := n1[l.ref].children[..i + 1] + [b.ref] + n1[l.ref].children[i + 1..];
            var n2 := n1[l.ref := n1[l.ref].(items := its, children := ch)];
            Owned(n2, f1, m, c) && Changed(n, f, n2, f1, Foot(l), Foot(m), c)
  {
    hide Changed;
    assert FootAll(l.kids[i..i + 1]) == Foot(l.kids[i]) by {
      assert l.kids[i..i + 1] == [l.kids[i]];
      One(l.kids[i]);
    }
    Two(a, b);
    RangeChanged(n, f, n1, f1, l, i, i + 1, its, [a, b], c);
    assert Refs(Respliced(l, i, i + 1, its, [a, b]).kids) == n1[l.ref].children[..i + 1] + [b.ref] + n1[l.ref].children[i + 1..];
  }

  ghost function LinkSplit(l: Loc, i: nat, j: nat, first: Ref, second: Ref): Loc
    requires i < |l.kids| && i <= |l.items| && j < |l.kids[i].items|
    requires l.kids[i].kids == [] || |l.kids[i].kids| == |l.kids[i].items| + 1
  {
    var k := l.kids[i].(ref := first);
    Respliced(l, i, i + 1, l.items[..i] + [k.items[j]] + l.items[i..], [SplitA(k, j), SplitB(k, j, second)])
  }

  lemma {:induction false} EraseSplitChild(l: Loc, i: nat, first: Ref, second: Ref, h: nat, d: nat)
    requires d >= 2 && h > 0 && Wf(Erase(l), h, d) && i < |l.kids| && |Erase(l).children[i].items| == 2 * d - 1
    ensures |l.kids[i].items| == 2 * d - 1 && (l.kids[i].kids == [] || |l.kids[i].kids| == |l.kids[i].items| + 1)
    ensures Erase(LinkSplit(l, i, d - 1, first, second)) == SplitChild(Erase(l), i, h, d)
  {
    KidShape(l, i, h, d);
    hide Wf;
    var k := l.kids[i].(ref := first);
    assert Erase(k) == Erase(l).children[i];
    EraseSplit(k, d - 1, second);
    EraseSpliced(l, i, l.items[..i] + [k.items[d - 1]] + l.items[i..], SplitA(k, d - 1), SplitB(k, d - 1, second));
  }

  lemma {:induction false} EraseSpliced(l: Loc, i: nat, its: seq<Item>, a: Loc, b: Loc)
    requires i < |l.kids|
    ensures Erase(Respliced(l, i, i + 1, its, [a, b]))
         == Node(its, Erase(l).children[..i] + [Erase(a), Erase(b)] + Erase(l).children[i + 1..])
  {
  }

  lemma {:induction false} One(a: Loc)
    ensures FootAll([a]) == Foot(a) && (Apart([a]) <==> Distinct(a))
  {
    assert [a][1..] == [];
  }

  lemma {:induction false} Two(a: Loc, b: Loc)
    ensures FootAll([a, b]) == Foot(a) + Foot(b)
    ensures Apart([a, b]) <==> Distinct(a) && Distinct(b) && Foot(a) !! Foot(b)
  {
    One(b);
    assert [a, b][1..] == [b];
  }

  lemma {:induction false} EraseSplit(k: Loc, j: nat, second: Ref)
    requires j < |k.items| && (k.kids == [] || |k.kids| == |k.items| + 1)
    ensures Erase(SplitA(k, j)) == SplitLeft(Erase(k), j)
    ensures Erase(SplitB(k, j, second)) == SplitRight(Erase(k), j)
  {
  }

  ghost function SplitA(k: Loc, j: nat): Loc
    requires j < |k.items| && (k.kids == [] || |k.kids| == |k.items| + 1)
  {
    At(k.ref, k.items[..j], if k.kids == [] then [] else k.kids[..j + 1])
  }

  ghost function SplitB(k: Loc, j: nat, second: Ref): Loc
    requires j < |k.items| && (k.kids == [] || |k.kids| == |k.items| + 1)
  {
    At(second, k.items[j + 1..], if k.kids == [] then [] else k.kids[j + 1..])
  }

  lemma {:induction false} SplitChanged(n: Nodes, f: set<Ref>, k: Loc, j: nat, second: Ref, c: Ctx)
    requires Owned(n, f, k, c) && j < |k.items| && (k.kids == [] || |k.kids| == |k.items| + 1)
    requires second in n ==> second in f
    ensures var a, b := SplitA(k, j), SplitB(k, j, second);
            var n1 := n[second := Rec(b.items, Refs(b.kids), Some(c))][k.ref := Rec(a.items, Refs(a.kids), Some(c))];
            && Owned(n1, f - {second}, a, c) && Owned(n1, f - {second}, b, c) && Foot(a) !! Foot(b)
            && Changed(n, f, n1, f - {second}, Foot(k), Foot(a) + Foot(b), c)
  {
    hide Changed;
    var a, b := SplitA(k, j), SplitB(k, j, second);
    var n1 := n[second := Rec(b.items, Refs(b.kids), Some(c))][k.ref := Rec(a.items, Refs(a.kids), Some(c))];
    FootHeld(n, k);
    assert k.kids == a.kids + b.kids;
    Append(a.kids, b.kids);
    NewAndOwn(n, f, Foot(k), second, n1[second], k.ref, n1[k.ref], c);
    assert Foot(a) + Foot(b) == Foot(k) + {second};
    assert Holds(n1, a) by {
      AllFramed(n, a.kids, n1);
    }
    assert Holds(n1, b) by {
      assert forall i :: 0 <= i < |b.kids| ==> b.kids[i] == k.kids[|a.kids| + i];
      AllFramed(n, b.kids, n1);
    }
  }

  lemma {:induction false} NewAndOwn(n: Nodes, f: set<Ref>, p: set<Ref>, x: Ref, recx: Rec, r: Ref, rec: Rec, c: Ctx)
    requires p <= n.Keys && p !! f && r in p && n[r].cow == Some(c) && rec.cow == Some(c) && recx.cow == Some(c)
    requires x in n ==> x in f
    ensures Changed(n, f, n[x := recx][r := rec], f - {x}, p, p + {x}, c)
  {
  }

  lemma {:induction false} Copied(n: Nodes, n': Nodes, l: Loc, o: Ref)
    requires Holds(n, l) && o in n' && n'[o].items == l.items && n'[o].children == Refs(l.kids)
    requires forall x <- Foot(l) :: x in n ==> x in n' && n'[x] == n[x]
    ensures Holds(n', l.(ref := o))
  {
    Framed(n, l, n');
  }
}
