/**
  A tree and its clones, all of one degree, over one shared set of records and one shared free list.
  `Execute` is the main result: any sequence of insertions, deletions and clones, run in place
  with copy-on-write, leaves each tree with exactly the value it would have if every tree were
  a separate immutable value.
 */
module BTreeForest {
  import opened BTreeSpec
  import opened BTreeProofs
  import opened BTreeRuns
  import opened BTreeStore
  import opened Options

  /** The fields of a `BTree`. */
  datatype Handle = Handle(root: Option<Ref>, length: int, cow: Ctx)

  /** Context `c` owns no record of the tree. */
  ghost predicate OwnsNone(n: Nodes, c: Ctx, l: Loc) {
    forall x <- Foot(l) :: x in n ==> n[x].cow != Some(c)
  }

  /** Trees in `trees` are laid out in the records `n` as `locs` says, contexts are distinct, and a
      context owns records of its own tree only. */
  ghost predicate Separate(n: Nodes, f: set<Ref>, trees: seq<Handle>, locs: map<nat, Loc>, bound: Ctx) {
    && (forall i :: i in locs <==> 0 <= i < |trees| && trees[i].root.Some?)
    && (forall i <- locs :: locs[i].ref == trees[i].root.value && Settled(n, f, locs[i]))
    && (forall i :: 0 <= i < |trees| ==> trees[i].cow < bound)
    && (forall i, j :: 0 <= i < j < |trees| ==> trees[i].cow != trees[j].cow)
    && (forall r <- n :: n[r].cow.Some? ==> n[r].cow.value < bound)
    && (forall i, j :: i in locs && 0 <= j < |trees| && j != i ==> OwnsNone(n, trees[j].cow, locs[i]))
  }

  ghost function ValueAt(trees: seq<Handle>, locs: map<nat, Loc>, i: nat): Index
    requires i < |trees|
  {
    Index(if i in locs then Some(Erase(locs[i])) else None, trees[i].length)
  }

  ghost function Values(trees: seq<Handle>, locs: map<nat, Loc>): (s: seq<Index>)
    ensures |s| == |trees| && forall i :: 0 <= i < |trees| ==> s[i] == ValueAt(trees, locs, i)
  {
    seq(|trees|, i requires 0 <= i < |trees| => ValueAt(trees, locs, i))
  }

  /** The records of tree `i`: none for an empty tree. */
  ghost function FootOf(locs: map<nat, Loc>, i: nat): set<Ref> {
    if i in locs then Foot(locs[i]) else {}
  }

  /** An operation of one context leaves a tree alone in which it owns nothing. */
  lemma {:induction false} OtherUntouched(n: Nodes, f: set<Ref>, n1: Nodes, f1: set<Ref>, p: set<Ref>, p1: set<Ref>, c: Ctx, o: Loc)
    requires Changed(n, f, n1, f1, p, p1, c) && Settled(n, f, o) && OwnsNone(n, c, o)
    ensures Settled(n1, f1, o) && Foot(o) <= n.Keys && forall x <- Foot(o) :: x in n1 && n1[x] == n[x]
  {
    FootHeld(n, o);
    Framed(n, o, n1);
  }

  /** An operation on tree `i` in its own context keeps all trees apart. */
  lemma {:induction false} StillSeparate(n: Nodes, f: set<Ref>, n1: Nodes, f1: set<Ref>, trees: seq<Handle>, locs: map<nat, Loc>, bound: Ctx,
                        i: nat, h: Handle, m: Loc)
    requires Separate(n, f, trees, locs, bound) && i < |trees|
    requires Changed(n, f, n1, f1, FootOf(locs, i), Foot(m), trees[i].cow) && Settled(n1, f1, m)
    requires h.root == Some(m.ref) && h.cow == trees[i].cow
    ensures Separate(n1, f1, trees[i := h], locs[i := m], bound)
  {
    var c := trees[i].cow;
    BoundKept(n, f, n1, f1, FootOf(locs, i), Foot(m), c, bound);
    hide Changed, Settled, OwnsNone, Foot, FootOf;
    forall j | j in locs && j != i ensures Settled(n1, f1, locs[j]) {
      OtherUntouched(n, f, n1, f1, FootOf(locs, i), Foot(m), c, locs[j]);
    }
    forall j, k | j in locs && j != i && 0 <= k < |trees| && k != j ensures OwnsNone(n1, trees[k].cow, locs[j]) {
      OwnsNoneKept(n, f, n1, f1, FootOf(locs, i), Foot(m), c, locs[j], trees[k].cow);
    }
    forall k | 0 <= k < |trees| && k != i ensures OwnsNone(n1, trees[k].cow, m) {
      OwnsNoneAfter(n, f, n1, f1, locs, i, m, c, trees[k].cow);
    }
  }

  lemma {:induction false} BoundKept(n: Nodes, f: set<Ref>, n1: Nodes, f1: set<Ref>, p: set<Ref>, p1: set<Ref>, c: Ctx, bound: Ctx)
    requires Changed(n, f, n1, f1, p, p1, c) && c < bound && forall r <- n :: n[r].cow.Some? ==> n[r].cow.value < bound
    ensures forall r <- n1 :: n1[r].cow.Some? ==> n1[r].cow.value < bound
  {
  }

  lemma {:induction false} OwnsNoneKept(n: Nodes, f: set<Ref>, n1: Nodes, f1: set<Ref>, p: set<Ref>, p1: set<Ref>, c: Ctx, o: Loc, e: Ctx)
    requires Changed(n, f, n1, f1, p, p1, c) && Settled(n, f, o) && OwnsNone(n, c, o) && OwnsNone(n, e, o)
    ensures OwnsNone(n1, e, o)
  {
    OtherUntouched(n, f, n1, f1, p, p1, c, o);
  }

  lemma {:induction false} OwnsNoneAfter(n: Nodes, f: set<Ref>, n1: Nodes, f1: set<Ref>, locs: map<nat, Loc>, i: nat, m: Loc, c: Ctx, e: Ctx)
    requires Changed(n, f, n1, f1, FootOf(locs, i), Foot(m), c) && e != c
    requires i in locs ==> OwnsNone(n, e, locs[i])
    ensures OwnsNone(n1, e, m)
  {
  }

  /** Two new contexts own nothing, so the original and the clone can share all records. */
  lemma {:induction false} CloneSeparate(n: Nodes, f: set<Ref>, trees: seq<Handle>, locs: map<nat, Loc>, bound: Ctx, i: nat)
    requires Separate(n, f, trees, locs, bound) && i < |trees|
    ensures |trees| !in locs && Separate(n, f, CloneTrees(trees, bound, i), CloneLocs(trees, locs, i), bound + 2)
  {
    var ts, ls := CloneTrees(trees, bound, i), CloneLocs(trees, locs, i);
    assert |trees| !in locs;
    hide Settled, Foot;
    forall j, k | j in ls && 0 <= k < |ts| && k != j ensures OwnsNone(n, ts[k].cow, ls[j]) {
      CloneOwnsNone(n, f, trees, locs, bound, i, j, k);
    }
    hide OwnsNone;
    assert forall j <- ls :: ls[j] == locs[if j == |trees| then i else j] && ts[j].root == trees[if j == |trees| then i else j].root;
    assert forall j :: 0 <= j < |ts| ==> ts[j].cow == if j == i then bound else if j == |trees| then bound + 1 else trees[j].cow;
  }

  lemma {:induction false} CloneOwnsNone(n: Nodes, f: set<Ref>, trees: seq<Handle>, locs: map<nat, Loc>, bound: Ctx, i: nat, j: nat, k: nat)
    requires Separate(n, f, trees, locs, bound) && i < |trees| && |trees| !in locs
    requires j in CloneLocs(trees, locs, i) && k <= |trees| && k != j
    ensures OwnsNone(n, CloneTrees(trees, bound, i)[k].cow, CloneLocs(trees, locs, i)[j])
  {
    hide Settled, Foot;
    var ts, o := CloneTrees(trees, bound, i), if j == |trees| then i else j;
    assert CloneLocs(trees, locs, i)[j] == locs[o];
    if k == i || k == |trees| {
      assert ts[k].cow >= bound;
    } else {
      assert ts[k].cow == trees[k].cow && k != o;
      assert OwnsNone(n, trees[k].cow, locs[o]);
    }
  }

  function CloneTrees(trees: seq<Handle>, bound: Ctx, i: nat): seq<Handle>
    requires i < |trees|
  {
    trees[i := trees[i].(cow := bound)] + [trees[i].(cow := bound + 1)]
  }

  ghost function CloneLocs(trees: seq<Handle>, locs: map<nat, Loc>, i: nat): map<nat, Loc> {
    if i in locs then locs[|trees| := locs[i]] else locs
  }

  lemma {:induction false} CloneValues(trees: seq<Handle>, locs: map<nat, Loc>, bound: Ctx, i: nat)
    requires i < |trees| && |trees| !in locs
    ensures var ts, ls := CloneTrees(trees, bound, i), CloneLocs(trees, locs, i);
            |ts| == |trees| + 1 && Values(ts, ls) == Values(trees, locs) + [ValueAt(trees, locs, i)]
  {
    var ts, ls := CloneTrees(trees, bound, i), CloneLocs(trees, locs, i);
    forall j | 0 <= j < |ts| ensures ValueAt(ts, ls, j) == ValueAt(trees, locs, if j == |trees| then i else j) {
    }
  }

  class Forest {
    const store: Store
    const degree: nat
    var trees: seq<Handle>
    var nextCtx: Ctx
    ghost var locs: map<nat, Loc>

    ghost predicate Valid()
      reads this, store
    {
      && store.Valid() && degree >= 2
      && Separate(store.nodes, store.Free(), trees, locs, nextCtx)
      && forall i :: 0 <= i < |trees| ==> IndexOk(Value(i), degree)
    }

    /** Tree `i` as a value. */
    ghost function Value(i: nat): Index
      reads this
      requires i < |trees|
    {
      ValueAt(trees, locs, i)
    }

    ghost function View(): (w: World)
      reads this, store
      ensures |w.trees| == |trees| && w.vals == store.vals
      ensures forall i :: 0 <= i < |trees| ==> w.trees[i] == Value(i)
    {
      World(Values(trees, locs), store.vals)
    }

    /** `NewBtree`: one empty tree, with an empty free list of the given capacity. */
    constructor (d: nat, capacity: nat)
      requires d >= 2
      ensures Valid() && fresh(store) && degree == d && View() == World([Index(None, 0)], map[])
    {
      store := new Store(capacity);
      degree := d;
      trees := [Handle(None, 0, 0)];
      nextCtx := 1;
      locs := map[];
      new;
    }

    /** `Clone`: both trees get new contexts, so that neither owns a record any more. */
    method Clone(i: nat)
      requires Valid() && i < |trees|
      modifies this
      ensures Valid() && |trees| == old(|trees|) + 1
      ensures View() == Step(old(View()), CloneOp(i), degree)
    {
      ghost var w := View();
      var t := trees[i];
      assert Separate(store.nodes, store.Free(), trees, locs, nextCtx);
      assert forall j :: 0 <= j < |trees| ==> IndexOk(w.trees[j], degree);
      hide Separate, IndexOk, Step, CloneLocs, ValueAt, Values;
      CloneSeparate(store.nodes, store.Free(), trees, locs, nextCtx, i);
      CloneValues(trees, locs, nextCtx, i);
      CloneStep(w, i, degree);
      SetTrees(CloneTrees(trees, nextCtx, i), CloneLocs(trees, locs, i), nextCtx + 2);
    }

    method SetTrees(ts: seq<Handle>, ghost ls: map<nat, Loc>, ctx: Ctx)
      modifies `trees, `locs, `nextCtx
      ensures trees == ts && locs == ls && nextCtx == ctx
    {
      trees, locs, nextCtx := ts, ls, ctx;
    }

    /** A full root is split under a new one. */
    method SplitRoot(root: Ref, c: Ctx, ghost l: Loc) returns (r: Ref, ghost m: Loc)
      requires store.Valid() && Owned(store.nodes, store.Free(), l, c) && l.ref == root
      requires degree >= 2 && |l.items| == 2 * degree - 1 && (l.kids == [] || |l.kids| == |l.items| + 1)
      modifies store`nodes, store`free, store`next
      ensures store.Valid() && m.ref == r && Owned(store.nodes, store.Free(), m, c)
      ensures Erase(m) == Node([l.items[degree - 1]], [SplitLeft(Erase(l), degree - 1), SplitRight(Erase(l), degree - 1)])
      ensures Changed(old(store.nodes), old(store.Free()), store.nodes, store.Free(), Foot(l), Foot(m), c)
    {
      FootHeld(store.nodes, l);
      EraseSplit(l, degree - 1, 0);
      hide Changed, Holds, Foot, Distinct;
      var item, second;
      ghost var a, b;
      item, second, a, b := store.SplitNode(root, (2 * degree - 1) / 2, l, c);
      ghost var n1, f1 := store.nodes, store.Free();
      r, m := NewRootOver(item, root, second, c, a, b);
      ChangedThen(old(store.nodes), old(store.Free()), n1, f1, store.nodes, store.Free(), Foot(l), Foot(a) + Foot(b), Foot(m), c);
      EraseSplit(l, degree - 1, second);
    }

    method NewRootOver(item: Item, first: Ref, second: Ref, c: Ctx, ghost a: Loc, ghost b: Loc) returns (r: Ref, ghost m: Loc)
      requires store.Valid() && Settled(store.nodes, store.Free(), a) && Settled(store.nodes, store.Free(), b) && Foot(a) !! Foot(b)
      requires a.ref == first && b.ref == second
      modifies store`nodes, store`free, store`next
      ensures store.Valid() && m.ref == r && Owned(store.nodes, store.Free(), m, c)
      ensures Erase(m) == Node([item], [Erase(a), Erase(b)])
      ensures Changed(old(store.nodes), old(store.Free()), store.nodes, store.Free(), Foot(a) + Foot(b), Foot(m), c)
    {
      hide Changed, Holds, Foot, Distinct;
      r := store.NewNode(c);
      store.nodes := store.nodes[r := store.nodes[r].(items := [item], children := [first, second])];
      m := At(r, [item], [a, b]);
      NewTop(old(store.nodes), old(store.Free()), a, b, r, item, c);
      assert store.nodes == old(store.nodes)[r := Rec([item], [a.ref, b.ref], Some(c))] && store.Free() == old(store.Free()) - {r};
      EraseIs(m, Node([item], [Erase(a), Erase(b)]));
    }

    /** The root, owned by the tree's context and not full. */
    method RoomyRoot(root: Ref, c: Ctx, ghost l: Loc) returns (r: Ref, ghost m: Loc)
      requires store.Valid() && Settled(store.nodes, store.Free(), l) && l.ref == root
      requires degree >= 2 && TreeOk(Erase(l), degree)
      modifies store`nodes, store`free, store`next
      ensures store.Valid() && m.ref == r && Owned(store.nodes, store.Free(), m, c)
      ensures Erase(m) == RootSplit(Erase(l), degree)
      ensures Changed(old(store.nodes), old(store.Free()), store.nodes, store.Free(), Foot(l), Foot(m), c)
    {
      FootHeld(store.nodes, l);
      assert (l.kids == [] || |l.kids| == |l.items| + 1) && |l.items| <= 2 * degree - 1;
      hide Changed, Wf, Foot, Distinct, InOrder, Sorted, Depth;
      ghost var l1;
      r, l1 := store.MutableFor(root, c, l);
      assert Erase(l1) == Erase(l);
      m := l1;
      ghost var n1, f1 := store.nodes, store.Free();
      if |store.nodes[r].items| >= 2 * degree - 1 {
        r, m := SplitRoot(r, c, l1);
        ChangedThen(old(store.nodes), old(store.Free()), n1, f1, store.nodes, store.Free(), Foot(l), Foot(l1), Foot(m), c);
      }
    }

    /** `ReplaceOrInsert` on a tree that has a root. */
    method InsertAtRoot(root: Ref, c: Ctx, it: Item, ghost l: Loc) returns (r: Ref, out: Option<Item>, ghost m: Loc)
      requires store.Valid() && Settled(store.nodes, store.Free(), l) && l.ref == root
      requires degree >= 2 && TreeOk(Erase(l), degree)
      modifies store
      ensures store.Valid() && m.ref == r && Settled(store.nodes, store.Free(), m)
      ensures TreeOk(RootSplit(Erase(l), degree), degree)
      ensures var u := RootSplit(Erase(l), degree);
              && Outcome(Erase(m), out) == Insert(u, it, Depth(u), degree)
              && store.vals == (if out.Some? && !HitsMedian(u, it.key, Depth(u), degree)
                                then Merge(old(store.vals), out.value.val, it.val) else old(store.vals))
      ensures Changed(old(store.nodes), old(store.Free()), store.nodes, store.Free(), Foot(l), Foot(m), c)
    {
      RootSplitOk(Erase(l), degree);
      FootHeld(store.nodes, l);
      hide Changed, Wf, Holds, Foot, Distinct, InOrder, Sorted, RootSplit;
      ghost var l1;
      r, l1 := RoomyRoot(root, c, l);
      ghost var n1, f1 := store.nodes, store.Free();
      out, m := store.Insert(r, it, 2 * degree - 1, l1, c, Depth(Erase(l1)), degree);
      ChangedThen(old(store.nodes), old(store.Free()), n1, f1, store.nodes, store.Free(), Foot(l), Foot(l1), Foot(m), c);
    }

    /** `deleteItem` on a tree that has items; a root left without items is freed. */
    method RemoveAtRoot(root: Ref, c: Ctx, k: nat, typ: Kind, ghost l: Loc) returns (r: Ref, out: Option<Item>, ghost m: Loc)
      requires store.Valid() && Settled(store.nodes, store.Free(), l) && l.ref == root
      requires degree >= 2 && TreeOk(Erase(l), degree) && l.items != []
      modifies store`nodes, store`free, store`next
      ensures store.Valid() && m.ref == r && Settled(store.nodes, store.Free(), m)
      ensures var e := Remove(Erase(l), k, typ, Depth(Erase(l)), degree);
              && out == e.out
              && Erase(m) == (if e.tree.items == [] && e.tree.children != [] then e.tree.children[0] else e.tree)
      ensures Changed(old(store.nodes), old(store.Free()), store.nodes, store.Free(), Foot(l), Foot(m), c)
    {
      FootHeld(store.nodes, l);
      assert Erase(l).items != [];
      hide Changed, Wf, Foot, Distinct, InOrder, Sorted, Remove;
      ghost var l1, l2;
      r, l1 := store.MutableFor(root, c, l);
      ghost var n1, f1 := store.nodes, store.Free();
      assert Erase(l1) == Erase(l);
      out, l2 := store.Remove(r, k, degree - 1, typ, l1, c, Depth(Erase(l)), degree);
      ghost var n2, f2 := store.nodes, store.Free();
      ChangedThen(old(store.nodes), old(store.Free()), n1, f1, n2, f2, Foot(l), Foot(l1), Foot(l2), c);
      EraseFacts(l2);
      m := l2;
      if |store.nodes[r].items| == 0 && |store.nodes[r].children| > 0 {
        r, m := DropRoot(r, c, l2);
        ChangedThen(old(store.nodes), old(store.Free()), n2, f2, store.nodes, store.Free(), Foot(l), Foot(l2), Foot(m), c);
      }
    }

    method DropRoot(root: Ref, c: Ctx, ghost l: Loc) returns (r: Ref, ghost m: Loc)
      requires store.Valid() && Owned(store.nodes, store.Free(), l, c) && l.ref == root && l.kids != []
      modifies store`nodes, store`free
      ensures store.Valid() && m == l.kids[0] && m.ref == r && Settled(store.nodes, store.Free(), m)
      ensures Changed(old(store.nodes), old(store.Free()), store.nodes, store.Free(), Foot(l), Foot(m), c)
    {
      r := store.nodes[root].children[0];
      m := l.kids[0];
      ghost var room := |store.free| < store.cap;
      Kid(store.nodes, store.Free(), l, 0);
      RootDropped(store.nodes, store.Free(), l, c, room);
      hide Changed, Foot, Distinct, Holds;
      store.FreeNode(root, c);
      assert store.Free() == if room then old(store.Free()) + {root} else old(store.Free());
    }

    /** The new root and length of tree `i` are recorded; `n` and `f` are the records and the free list before. */
    method Relink(i: nat, h: Handle, ghost m: Loc, ghost n: Nodes, ghost f: set<Ref>)
      requires store.Valid() && degree >= 2 && i < |trees| && Separate(n, f, trees, locs, nextCtx)
      requires Changed(n, f, store.nodes, store.Free(), FootOf(locs, i), Foot(m), trees[i].cow) && Settled(store.nodes, store.Free(), m)
      requires h.root == Some(m.ref) && h.cow == trees[i].cow
      requires forall j :: 0 <= j < |trees| ==> IndexOk(Value(j), degree)
      requires IndexOk(Index(Some(Erase(m)), h.length), degree)
      modifies this
      ensures Valid() && |trees| == old(|trees|)
      ensures View() == old(View()).(trees := old(View()).trees[i := Index(Some(Erase(m)), h.length)])
    {
      StillSeparate(n, f, store.nodes, store.Free(), trees, locs, nextCtx, i, h, m);
      hide Separate, Changed, Settled, IndexOk, Foot, FootOf;
      ghost var w := View();
      trees, locs := trees[i := h], locs[i := m];
      assert Values(trees, locs) == w.trees[i := Index(Some(Erase(m)), h.length)];
    }

    method PutTree(i: nat, it: Item) returns (r: Ref, out: Option<Item>, ghost m: Loc)
      requires Valid() && i < |trees|
      modifies store
      ensures store.Valid() && m.ref == r && Settled(store.nodes, store.Free(), m)
      ensures Changed(old(store.nodes), old(store.Free()), store.nodes, store.Free(), FootOf(locs, i), Foot(m), trees[i].cow)
      ensures Put(Value(i), it, degree) == (Index(Some(Erase(m)), if out == None then trees[i].length + 1 else trees[i].length), out)
      ensures store.vals == if out.Some? && !Replaces(Value(i), it.key, degree) then Merge(old(store.vals), out.value.val, it.val) else old(store.vals)
    {
      var t := trees[i];
      assert IndexOk(Value(i), degree);
      hide Changed, InOrder, Wf, HitsMedian, OwnsNone;
      if t.root == None {
        r := store.NewNode(t.cow);
        store.nodes := store.nodes[r := store.nodes[r].(items := [it])];
        out, m := None, At(r, [it], []);
        FirstNode(old(store.nodes), old(store.Free()), r, it, t.cow);
        assert store.nodes == old(store.nodes)[r := Rec([it], [], Some(t.cow))] && store.Free() == old(store.Free()) - {r};
        EraseIs(m, Node([it], []));
      } else {
        r, out, m := InsertAtRoot(t.root.value, t.cow, it, locs[i]);
      }
    }

    /** `ReplaceOrInsert`. */
    method ReplaceOrInsert(i: nat, it: Item) returns (out: Option<Item>)
      requires Valid() && i < |trees|
      modifies this, store
      ensures Valid() && |trees| == old(|trees|)
      ensures View() == Step(old(View()), PutOp(i, it), degree)
      ensures out == Put(old(Value(i)), it, degree).1
    {
      ghost var w := View();
      assert store.Valid() && degree >= 2 && Separate(store.nodes, store.Free(), trees, locs, nextCtx);
      assert forall j :: 0 <= j < |trees| ==> IndexOk(Value(j), degree);
      hide *;
      PutStep(w, i, it, degree);
      var r;
      ghost var m;
      r, out, m := PutTree(i, it);
      assert View().trees == w.trees;
      var t := trees[i];
      Relink(i, Handle(Some(r), if out == None then t.length + 1 else t.length, t.cow), m, old(store.nodes), old(store.Free()));
    }

    /** `Delete`, `DeleteMin` and `DeleteMax`. */
    method DeleteItem(i: nat, k: nat, typ: Kind) returns (out: Option<Item>)
      requires Valid() && i < |trees|
      modifies this, store
      ensures Valid() && |trees| == old(|trees|)
      ensures View() == Step(old(View()), DropOp(i, k, typ), degree)
      ensures out == Drop(old(Value(i)), k, typ, degree).1
    {
      var t := trees[i];
      if t.root == None || |store.nodes[t.root.value].items| == 0 {
        hide InOrder, Wf;
        assert Drop(Value(i), k, typ, degree) == (Value(i), None);
        assert View().trees[i := Value(i)] == View().trees;
        return None;
      }
      out := DeletePresent(i, k, typ);
    }

    /** `deleteItem` past its guard. */
    method DeletePresent(i: nat, k: nat, typ: Kind) returns (out: Option<Item>)
      requires Valid() && i < |trees| && trees[i].root.Some? && trees[i].root.value in store.nodes
      requires |store.nodes[trees[i].root.value].items| > 0
      modifies this, store
      ensures Valid() && |trees| == old(|trees|)
      ensures View() == Step(old(View()), DropOp(i, k, typ), degree)
      ensures out == Drop(old(Value(i)), k, typ, degree).1
    {
      ghost var w, x := View(), Value(i);
      var t := trees[i];
      assert store.Valid() && degree >= 2 && Separate(store.nodes, store.Free(), trees, locs, nextCtx);
      assert forall j :: 0 <= j < |trees| ==> IndexOk(Value(j), degree);
      hide *;
      DropIs(i, k, typ);
      DropStep(w, i, k, typ, degree);
      var r;
      ghost var m;
      r, out, m := RemoveAtRoot(t.root.value, t.cow, k, typ, locs[i]);
      assert View().trees == w.trees;
      Relink(i, Handle(Some(r), if out == None then t.length else t.length - 1, t.cow), m, old(store.nodes), old(store.Free()));
    }

    lemma {:induction false} DropIs(i: nat, k: nat, typ: Kind)
      requires Valid() && i < |trees| && trees[i].root.Some? && |store.nodes[trees[i].root.value].items| > 0
      ensures i in locs && locs[i].ref == trees[i].root.value && Settled(store.nodes, store.Free(), locs[i])
      ensures TreeOk(Erase(locs[i]), degree) && locs[i].items != [] && Foot(locs[i]) == FootOf(locs, i)
      ensures Removable(Erase(locs[i]), Depth(Erase(locs[i])), degree)
      ensures var e := Remove(Erase(locs[i]), k, typ, Depth(Erase(locs[i])), degree);
              var root := if e.tree.items == [] && e.tree.children != [] then e.tree.children[0] else e.tree;
              Drop(Value(i), k, typ, degree) == (Index(Some(root), if e.out == None then trees[i].length else trees[i].length - 1), e.out)
    {
      hide InOrder, Remove;
      assert IndexOk(Value(i), degree);
    }

    /** Any run of the operations, in place and shared, against the same run on separate values. */
    method Execute(ops: seq<Op>)
      requires Valid()
      modifies this, store
      ensures Valid() && View() == Run(old(View()), ops, degree)
    {
      assert ops[..0] == [];
      for n := 0 to |ops|
        invariant Valid() && View() == Run(old(View()), ops[..n], degree)
      {
        assert ops[..n + 1] == ops[..n] + [ops[n]];
        RunThen(old(View()), ops[..n], ops[n], degree);
        if ops[n].tree < |trees| {
          match ops[n] {
            case PutOp(i, it) => var _ := ReplaceOrInsert(i, it);
            case DropOp(i, k, typ) => var _ := DeleteItem(i, k, typ);
            case CloneOp(i) => Clone(i);
          }
        }
      }
      assert ops[..|ops|] == ops;
    }
  }

  lemma {:induction false} PutStep(w: World, i: nat, it: Item, d: nat)
    requires d >= 2 && i < |w.trees| && forall j :: 0 <= j < |w.trees| ==> IndexOk(w.trees[j], d)
    ensures WorldOk(w, d)
    ensures var e := Put(w.trees[i], it, d);
            && IndexOk(e.0, d)
            && Step(w, PutOp(i, it), d) == World(w.trees[i := e.0], if e.1.Some? && !Replaces(w.trees[i], it.key, d) then Merge(w.vals, e.1.value.val, it.val) else w.vals)
  {
    PutOk(w.trees[i], it, d);
  }

  lemma {:induction false} CloneStep(w: World, i: nat, d: nat)
    requires d >= 2 && i < |w.trees| && forall j :: 0 <= j < |w.trees| ==> IndexOk(w.trees[j], d)
    ensures WorldOk(w, d) && Step(w, CloneOp(i), d) == w.(trees := w.trees + [w.trees[i]])
  {
  }

  lemma {:induction false} DropStep(w: World, i: nat, k: nat, typ: Kind, d: nat)
    requires d >= 2 && i < |w.trees| && forall j :: 0 <= j < |w.trees| ==> IndexOk(w.trees[j], d)
    ensures WorldOk(w, d)
    ensures var e := Drop(w.trees[i], k, typ, d);
            IndexOk(e.0, d) && Step(w, DropOp(i, k, typ), d) == w.(trees := w.trees[i := e.0])
  {
    DropOk(w.trees[i], k, typ, d);
  }

  lemma {:induction false} FirstNode(n: Nodes, f: set<Ref>, r: Ref, it: Item, c: Ctx)
    requires r in n ==> r in f
    ensures var n1 := n[r := Rec([it], [], Some(c))];
            Settled(n1, f - {r}, At(r, [it], [])) && Changed(n, f, n1, f - {r}, {}, Foot(At(r, [it], [])), c)
  {
  }

  lemma {:induction false} RootDropped(n: Nodes, f: set<Ref>, l: Loc, c: Ctx, room: bool)
    requires Owned(n, f, l, c) && l.kids != []
    ensures var n1, f1 := n[l.ref := Rec([], [], None)], if room then f + {l.ref} else f;
            Settled(n1, f1, l.kids[0]) && Changed(n, f, n1, f1, Foot(l), Foot(l.kids[0]), c)
  {
    FootHeld(n, l);
    Kid(n, f, l, 0);
    Framed(n, l.kids[0], n[l.ref := Rec([], [], None)]);
  }

  lemma {:induction false} NewTop(n: Nodes, f: set<Ref>, a: Loc, b: Loc, r: Ref, item: Item, c: Ctx)
    requires Settled(n, f, a) && Settled(n, f, b) && Foot(a) !! Foot(b) && (r in n ==> r in f)
    ensures var m, n1 := At(r, [item], [a, b]), n[r := Rec([item], [a.ref, b.ref], Some(c))];
            && Owned(n1, f - {r}, m, c)
            && Changed(n, f, n1, f - {r}, Foot(a) + Foot(b), Foot(m), c)
  {
    var m, n1 := At(r, [item], [a, b]), n[r := Rec([item], [a.ref, b.ref], Some(c))];
    FootHeld(n, a);
    FootHeld(n, b);
    Two(a, b);
    Framed(n, a, n1);
    Framed(n, b, n1);
    assert Refs(m.kids) == [a.ref, b.ref];
  }
}
