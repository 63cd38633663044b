/**
  Whole runs on B-tree values: what `ReplaceOrInsert`, `Delete`, `DeleteMin`, `DeleteMax` and
  `Clone` do to a collection of independent trees, the shape every run keeps, and the sorted map
  each tree stands for.
 */
module BTreeRuns {
  import opened BTreeSpec
  import opened BTreeProofs
  import opened Options

  /** A tree as its owner sees it. */
  datatype Index = Index(root: Option<Tree>, length: int)

  /** The invariant of every tree: balanced, every node within its bounds, keys strictly
      increasing in order, and `length` the number of keys. */
  predicate TreeOk(t: Tree, d: nat) {
    Wf(t, Depth(t), d) && (Depth(t) > 0 ==> t.items != []) && Sorted(InOrder(t))
  }

  predicate IndexOk(x: Index, d: nat) {
    match x.root
    case None => x.length == 0
    case Some(t) => TreeOk(t, d) && x.length == |InOrder(t)|
  }

  function Entries(x: Index): seq<Item> {
    match x.root
    case None => []
    case Some(t) => InOrder(t)
  }

  /** The root once a full one has been split under a new root. */
  function RootSplit(t: Tree, d: nat): Tree
    requires d >= 2 && Wf(t, Depth(t), d)
  {
    if |t.items| < 2 * d - 1 then t
    else Node([t.items[d - 1]], [SplitLeft(t, d - 1), SplitRight(t, d - 1)])
  }

  lemma {:induction false} RootSplitOk(t: Tree, d: nat)
    requires d >= 2 && TreeOk(t, d)
    ensures TreeOk(RootSplit(t, d), d) && InOrder(RootSplit(t, d)) == InOrder(t) && |RootSplit(t, d).items| < 2 * d - 1
  {
    hide Wf, InOrder, Sorted, Depth;
    if |t.items| >= 2 * d - 1 {
      RootSplitFull(t, Depth(t), d);
    }
  }

  lemma {:induction false} RootSplitFull(t: Tree, h: nat, d: nat)
    requires d >= 2 && Wf(t, h, d) && |t.items| >= 2 * d - 1
    ensures |t.items| == 2 * d - 1 && (t.children == [] || |t.children| == |t.items| + 1)
    ensures var u := Node([t.items[d - 1]], [SplitLeft(t, d - 1), SplitRight(t, d - 1)]);
            Wf(u, h + 1, d) && Depth(u) == h + 1 && InOrder(u) == InOrder(t)
  {
    SplitPartsWf(t, d - 1, h, d);
    SplitKeeps(t, d - 1);
    assert |t.items| == 2 * d - 1 && (t.children == [] || |t.children| == |t.items| + 1);
    hide Wf, InOrder, Depth;
    NewRoot(SplitLeft(t, d - 1), t.items[d - 1], SplitRight(t, d - 1), h, d);
  }

  lemma {:induction false} NewRoot(a: Tree, m: Item, b: Tree, h: nat, d: nat)
    requires d >= 1 && Wf(a, h, d) && Wf(b, h, d) && d - 1 <= |a.items| && d - 1 <= |b.items|
    ensures var u := Node([m], [a, b]);
            Wf(u, h + 1, d) && Depth(u) == h + 1 && InOrder(u) == InOrder(a) + [m] + InOrder(b)
  {
    var u := Node([m], [a, b]);
    DepthOfWf(a, h, d);
    hide Wf;
    assert u.children[1..] == [b] && [b][1..] == [];
    assert Tail(u.items, [b]) == [m] + InOrder(b) + Tail(u.items[1..], []);
  }

  lemma {:induction false} SplitPartsWf(t: Tree, j: nat, h: nat, d: nat)
    requires Wf(t, h, d) && j < |t.items|
    ensures Wf(SplitLeft(t, j), h, d) && |SplitLeft(t, j).items| == j
    ensures Wf(SplitRight(t, j), h, d) && |SplitRight(t, j).items| == |t.items| - 1 - j
  {
  }

  /** `ReplaceOrInsert`. */
  function Put(x: Index, it: Item, d: nat): (Index, Option<Item>)
    requires d >= 2 && IndexOk(x, d)
  {
    match x.root
    case None => (Index(Some(Node([it], [])), x.length + 1), None)
    case Some(t) =>
      var u := RootSplit(t, d);
      RootSplitOk(t, d);
      var r := Insert(u, it, Depth(u), d);
      (Index(Some(r.tree), if r.out == None then x.length + 1 else x.length), r.out)
  }

  /** Whether an insertion replaces the entry it finds instead of merging into its value map. */
  predicate Replaces(x: Index, k: nat, d: nat)
    requires d >= 2 && IndexOk(x, d)
  {
    match x.root
    case None => false
    case Some(t) => RootSplitOk(t, d); HitsMedian(RootSplit(t, d), k, Depth(RootSplit(t, d)), d)
  }

  /** `Delete`, `DeleteMin` and `DeleteMax`. */
  function Drop(x: Index, k: nat, typ: Kind, d: nat): (Index, Option<Item>)
    requires d >= 2 && IndexOk(x, d)
  {
    match x.root
    case None => (x, None)
    case Some(t) =>
      if t.items == [] then (x, None)
      else
        var r := Remove(t, k, typ, Depth(t), d);
        var root := if r.tree.items == [] && r.tree.children != [] then r.tree.children[0] else r.tree;
        (Index(Some(root), if r.out == None then x.length else x.length - 1), r.out)
  }

  lemma {:induction false} ListInsertLength(s: seq<Item>, it: Item, rep: bool)
    ensures |ListInsert(s, it, rep)| == if ListGet(s, it.key) == None then |s| + 1 else |s|
    requires Sorted(s)
  {
    if s != [] && s[0].key < it.key {
      ListInsertLength(s[1..], it, rep);
    } else if s != [] && it.key < s[0].key {
      AtGap(s, 0, it, rep);
    }
  }

  lemma {:induction false} ListInsertSorted(s: seq<Item>, it: Item, rep: bool)
    requires Sorted(s)
    ensures Sorted(ListInsert(s, it, rep))
    ensures forall x <- ListInsert(s, it, rep) :: x in s || x == it
  {
    if s != [] && s[0].key < it.key {
      ListInsertSorted(s[1..], it, rep);
      var r := ListInsert(s[1..], it, rep);
      forall i, j | 0 <= i < j < |r| + 1 ensures ([s[0]] + r)[i].key < ([s[0]] + r)[j].key {
        assert r[j - 1] in r;
      }
    }
  }

  lemma {:induction false} ListDeleteSorted(s: seq<Item>, k: nat)
    requires Sorted(s)
    ensures Sorted(ListDelete(s, k)) && forall x <- ListDelete(s, k) :: x in s
    ensures |ListDelete(s, k)| == if ListGet(s, k) == None then |s| else |s| - 1
  {
    if s != [] && s[0].key != k {
      ListDeleteSorted(s[1..], k);
      var r := ListDelete(s[1..], k);
      forall i, j | 0 <= i < j < |r| + 1 ensures ([s[0]] + r)[i].key < ([s[0]] + r)[j].key {
        assert r[j - 1] in r;
      }
    }
  }

  /** Every insertion keeps the invariant and inserts into the sorted list of entries. */
  lemma {:induction false} PutOk(x: Index, it: Item, d: nat)
    requires d >= 2 && IndexOk(x, d)
    ensures var r := Put(x, it, d);
            && IndexOk(r.0, d)
            && Entries(r.0) == ListInsert(Entries(x), it, Replaces(x, it.key, d))
            && r.1 == ListGet(Entries(x), it.key)
  {
    if x.root.Some? {
      var u := RootSplit(x.root.value, d);
      RootSplitOk(x.root.value, d);
      InsertOk(u, it, Depth(u), d);
      var r := Insert(u, it, Depth(u), d);
      DepthOfWf(r.tree, Depth(u), d);
      ListInsertSorted(InOrder(u), it, HitsMedian(u, it.key, Depth(u), d));
      ListInsertLength(InOrder(u), it, HitsMedian(u, it.key, Depth(u), d));
    }
  }

  /** Every removal keeps the invariant and removes from the sorted list of entries; the empty
      tree is left alone. */
  lemma {:induction false} DropOk(x: Index, k: nat, typ: Kind, d: nat)
    requires d >= 2 && IndexOk(x, d)
    ensures var r := Drop(x, k, typ, d);
            && IndexOk(r.0, d)
            && if Entries(x) == [] then r == (x, None)
               else var e := ListRemove(Entries(x), k, typ); Entries(r.0) == e.tree.items && r.1 == e.out
  {
    if x.root.Some? && x.root.value.items != [] {
      var t, h := x.root.value, Depth(x.root.value);
      var r := Remove(t, k, typ, h, d);
      RemoveOk(t, k, typ, h, d);
      DepthOfWf(r.tree, h, d);
      NonEmpty(t);
      ListRemoveSorted(InOrder(t), k, typ);
      if r.tree.items == [] && r.tree.children != [] {
        Collapse(r.tree, h, d);
      }
    }
  }

  lemma {:induction false} NonEmpty(t: Tree)
    requires t.items != [] && (t.children == [] || |t.children| == |t.items| + 1)
    ensures InOrder(t) != []
  {
    if t.children != [] {
      ItemStands(t, 0, t.items[0]);
    }
  }

  lemma {:induction false} ListRemoveSorted(s: seq<Item>, k: nat, typ: Kind)
    requires Sorted(s) && s != []
    ensures var e := ListRemove(s, k, typ);
            Sorted(e.tree.items) && |e.tree.items| == if e.out == None then |s| else |s| - 1
  {
    ListDeleteSorted(s, k);
  }

  /** A root left without items gives way to its only child. */
  lemma {:induction false} Collapse(t: Tree, h: nat, d: nat)
    requires d >= 2 && Wf(t, h, d) && t.items == [] && t.children != []
    ensures h > 0 && |t.children| == 1 && InOrder(t) == InOrder(t.children[0])
    ensures Wf(t.children[0], h - 1, d) && Depth(t.children[0]) == h - 1 && t.children[0].items != []
  {
    assert Tail(t.items, t.children[1..]) == [];
    DepthOfWf(t.children[0], h - 1, d);
  }

  // ----- The sorted map behind a tree -----

  function AsMap(s: seq<Item>): map<nat, nat> {
    if s == [] then map[] else AsMap(s[1..])[s[0].key := s[0].val]
  }

  lemma {:induction false} AsMapKeys(s: seq<Item>, k: nat)
    ensures k in AsMap(s) <==> exists x <- s :: x.key == k
  {
    if s != [] {
      AsMapKeys(s[1..], k);
      assert s == [s[0]] + s[1..];
    }
  }

  lemma {:induction false} GetIsMap(s: seq<Item>, k: nat)
    requires Sorted(s)
    ensures ListGet(s, k) == if k in AsMap(s) then Some(Item(k, AsMap(s)[k])) else None
  {
    if s != [] {
      GetIsMap(s[1..], k);
    }
  }

  lemma {:induction false} InsertIsMap(s: seq<Item>, it: Item, rep: bool)
    requires Sorted(s)
    ensures AsMap(ListInsert(s, it, rep)) == if it.key in AsMap(s) && !rep then AsMap(s) else AsMap(s)[it.key := it.val]
  {
    var m := AsMap(s);
    if s == [] || it.key < s[0].key {
      assert it.key !in m by {
        AtGap(s, 0, it, rep);
        GetIsMap(s, it.key);
      }
      assert ([it] + s)[1..] == s;
    } else if it.key == s[0].key {
      assert ([it] + s[1..])[1..] == s[1..];
      assert m[it.key := it.val] == AsMap(s[1..])[it.key := it.val];
    } else {
      var r := ListInsert(s[1..], it, rep);
      InsertIsMap(s[1..], it, rep);
      assert ([s[0]] + r)[1..] == r;
      assert AsMap([s[0]] + r) == AsMap(r)[s[0].key := s[0].val];
      assert AsMap(s[1..])[it.key := it.val][s[0].key := s[0].val] == m[it.key := it.val];
    }
  }

  lemma {:induction false} DeleteIsMap(s: seq<Item>, k: nat)
    requires Sorted(s)
    ensures AsMap(ListDelete(s, k)) == AsMap(s) - {k}
  {
    if s == [] {
    } else if s[0].key == k {
      forall x <- s[1..] ensures x.key != k {
      }
      AsMapKeys(s[1..], k);
    } else {
      DeleteIsMap(s[1..], k);
      assert ([s[0]] + ListDelete(s[1..], k))[1..] == ListDelete(s[1..], k);
    }
  }

  /** Insertion, against the map: a new key is added; a known one keeps its value map, unless the
      key is met as a promoted median and is given the new one. */
  lemma {:induction false} PutIsMap(x: Index, it: Item, d: nat)
    requires d >= 2 && IndexOk(x, d)
    ensures var m, r := AsMap(Entries(x)), Put(x, it, d);
            && AsMap(Entries(r.0)) == (if it.key in m && !Replaces(x, it.key, d) then m else m[it.key := it.val])
            && r.1 == (if it.key in m then Some(Item(it.key, m[it.key])) else None)
  {
    PutOk(x, it, d);
    EntriesSorted(x, d);
    InsertIsMap(Entries(x), it, Replaces(x, it.key, d));
    GetIsMap(Entries(x), it.key);
  }

  lemma {:induction false} EntriesSorted(x: Index, d: nat)
    requires IndexOk(x, d)
    ensures Sorted(Entries(x)) && x.length == |Entries(x)|
  {
  }

  /** Removal, against the map: the key asked for, the least key or the greatest key goes. */
  lemma {:induction false} DropIsMap(x: Index, k: nat, typ: Kind, d: nat)
    requires d >= 2 && IndexOk(x, d)
    ensures var m, r := AsMap(Entries(x)), Drop(x, k, typ, d);
            && AsMap(Entries(r.0)) == (if r.1.Some? then m - {r.1.value.key} else m)
            && (r.1.Some? ==> r.1.value.key in m && r.1.value.val == m[r.1.value.key])
            && (typ == RemoveItem ==> (r.1.Some? <==> k in m) && (r.1.Some? ==> r.1.value.key == k))
            && (typ == RemoveMin ==> (r.1.Some? <==> m != map[]) && (r.1.Some? ==> forall j <- m :: r.1.value.key <= j))
            && (typ == RemoveMax ==> (r.1.Some? <==> m != map[]) && (r.1.Some? ==> forall j <- m :: j <= r.1.value.key))
  {
    DropOk(x, k, typ, d);
    EntriesSorted(x, d);
    var s, r := Entries(x), Drop(x, k, typ, d);
    if s != [] {
      assert s[0].key in AsMap(s);
      GetIsMap(s, k);
      match typ
      case RemoveItem => DeleteIsMap(s, k); Missing(s, k);
      case RemoveMin => EndRemoved(s, 0);
      case RemoveMax => EndRemoved(s, |s| - 1);
    }
  }

  lemma {:induction false} Missing(s: seq<Item>, k: nat)
    ensures k !in AsMap(s) ==> AsMap(s) - {k} == AsMap(s)
  {
  }

  lemma {:induction false} EndRemoved(s: seq<Item>, p: nat)
    requires Sorted(s) && p < |s| && (p == 0 || p == |s| - 1)
    ensures AsMap(s[..p] + s[p + 1..]) == AsMap(s) - {s[p].key}
    ensures s[p].key in AsMap(s) && AsMap(s)[s[p].key] == s[p].val
    ensures p == 0 ==> s[..p] + s[p + 1..] == s[1..] && forall j <- AsMap(s) :: s[p].key <= j
    ensures p == |s| - 1 ==> s[..p] + s[p + 1..] == s[..p] && forall j <- AsMap(s) :: j <= s[p].key
  {
    AtPosition(s, p, s[p], false);
    DeleteIsMap(s, s[p].key);
    GetIsMap(s, s[p].key);
    hide AsMap, ListGet, ListDelete, ListInsert;
    Extremes(s);
  }

  lemma {:induction false} Extremes(s: seq<Item>)
    requires Sorted(s) && s != []
    ensures forall j <- AsMap(s) :: s[0].key <= j <= s[|s| - 1].key
  {
    hide AsMap;
    forall j <- AsMap(s) ensures s[0].key <= j <= s[|s| - 1].key {
      AsMapKeys(s, j);
      var x :| x in s && x.key == j;
      var i :| 0 <= i < |s| && s[i] == x;
    }
  }

  // ----- Runs on several trees -----

  datatype World = World(trees: seq<Index>, vals: map<nat, ValueMap>)

  datatype Op = PutOp(tree: nat, it: Item) | DropOp(tree: nat, key: nat, typ: Kind) | CloneOp(tree: nat)

  predicate WorldOk(w: World, d: nat) {
    forall i :: 0 <= i < |w.trees| ==> IndexOk(w.trees[i], d)
  }

  /** One operation on a world of independent trees; an unknown tree is left alone. */
  function Step(w: World, op: Op, d: nat): (w': World)
    requires d >= 2 && WorldOk(w, d)
    ensures WorldOk(w', d)
  {
    if op.tree >= |w.trees| then w
    else
      var x := w.trees[op.tree];
      match op
      case PutOp(i, it) =>
        var r := Put(x, it, d);
        PutOk(x, it, d);
        World(w.trees[i := r.0], if r.1.Some? && !Replaces(x, it.key, d) then Merge(w.vals, r.1.value.val, it.val) else w.vals)
      case DropOp(i, k, typ) =>
        DropOk(x, k, typ, d);
        w.(trees := w.trees[i := Drop(x, k, typ, d).0])
      case CloneOp(_) => w.(trees := w.trees + [x])
  }

  /** Every run of insertions, deletions and clones keeps every tree balanced, within its
      occupancy bounds, sorted, and with the right `length`. */
  function Run(w: World, ops: seq<Op>, d: nat): (w': World)
    requires d >= 2 && WorldOk(w, d)
    ensures WorldOk(w', d)
    decreases |ops|
  {
    if ops == [] then w else Run(Step(w, ops[0], d), ops[1..], d)
  }

  lemma {:induction false} RunThen(w: World, ops: seq<Op>, op: Op, d: nat)
    requires d >= 2 && WorldOk(w, d)
    ensures Run(w, ops + [op], d) == Step(Run(w, ops, d), op, d)
    decreases |ops|
  {
    if ops == [] {
      assert Run(Step(w, op, d), [], d) == Step(w, op, d);
    } else {
      assert (ops + [op])[1..] == ops[1..] + [op];
      RunThen(Step(w, ops[0], d), ops[1..], op, d);
    }
  }

  /** What a tree's key leads to. */
  function Contents(w: World, i: nat, k: nat): Option<ValueMap>
    requires i < |w.trees|
  {
    match ListGet(Entries(w.trees[i]), k)
    case None => None
    case Some(x) => Some(ValueOf(w.vals, x.val))
  }

  /** The documentation says an equal entry is replaced. The code replaces it exactly when the key is
      met as the median of a full child; otherwise it merges the new value map into the old one. */
  lemma {:induction false} PutContents(w: World, i: nat, it: Item, d: nat)
    requires d >= 2 && WorldOk(w, d) && i < |w.trees|
    ensures var was, more := Contents(w, i, it.key), ValueOf(w.vals, it.val);
            Contents(Step(w, PutOp(i, it), d), i, it.key) ==
            Some(if was.Some? && !Replaces(w.trees[i], it.key, d) then was.value + more else more)
  {
    var x, rep := w.trees[i], Replaces(w.trees[i], it.key, d);
    PutOk(x, it, d);
    EntriesSorted(x, d);
    GetAfterInsert(Entries(x), it, rep);
  }

  lemma {:induction false} GetAfterInsert(s: seq<Item>, it: Item, rep: bool)
    requires Sorted(s)
    ensures ListGet(ListInsert(s, it, rep), it.key) == if ListGet(s, it.key).Some? && !rep then ListGet(s, it.key) else Some(it)
  {
    ListInsertSorted(s, it, rep);
    InsertIsMap(s, it, rep);
    GetIsMap(s, it.key);
    GetIsMap(ListInsert(s, it, rep), it.key);
  }
}
