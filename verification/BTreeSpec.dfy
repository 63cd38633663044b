/**
  B-tree values: the tree operations of the index as functions on immutable trees.
  Nodes here carry no identity; `BTreeStore` runs the same operations in place on
  shared nodes and proves that they compute exactly these functions.
 */
module BTreeSpec {
  import opened Options
  import Records

  /** An entry: its time key and a reference to its (mutable, shared) value map. */
  datatype Item = Item(key: nat, val: nat)

  /** A value map: transaction hash to the record of the transaction. */
  type ValueMap = Records.Live

  function ValueOf(vals: map<nat, ValueMap>, a: nat): ValueMap {
    if a in vals then vals[a] else map[]
  }

  /** `InsertTxData`: the entries of map `b` are added to map `a`, in place. */
  function Merge(vals: map<nat, ValueMap>, a: nat, b: nat): map<nat, ValueMap> {
    vals[a := ValueOf(vals, a) + ValueOf(vals, b)]
  }

  datatype Tree = Node(items: seq<Item>, children: seq<Tree>)

  datatype Kind = RemoveItem | RemoveMin | RemoveMax

  datatype Outcome = Outcome(tree: Tree, out: Option<Item>)

  // ----- Reading a tree in key order -----

  function InOrder(t: Tree): seq<Item>
    decreases t, 1
  {
    if t.children == [] then t.items
    else InOrder(t.children[0]) + Tail(t.items, t.children[1..])
  }

  /** Separators and subtrees in turn, separator first. */
  function Tail(its: seq<Item>, kids: seq<Tree>): seq<Item>
    decreases kids, 0
  {
    if its == [] || kids == [] then [] else [its[0]] + InOrder(kids[0]) + Tail(its[1..], kids[1..])
  }

  /** Subtrees and separators in turn, subtree first. */
  function Lead(kids: seq<Tree>, its: seq<Item>): seq<Item>
    decreases kids, 0
  {
    if its == [] || kids == [] then [] else InOrder(kids[0]) + [its[0]] + Lead(kids[1..], its[1..])
  }

  predicate Sorted(s: seq<Item>) {
    forall i, j :: 0 <= i < j < |s| ==> s[i].key < s[j].key
  }

  // ----- Shape -----

  /** All leaves at depth `h`, at most 2d-1 items per node, at least d-1 below the root. */
  predicate Wf(t: Tree, h: nat, d: nat)
    decreases h
  {
    && |t.items| <= 2 * d - 1
    && if h == 0 then t.children == []
       else
         && |t.children| == |t.items| + 1
         && forall i :: 0 <= i < |t.children| ==> Wf(t.children[i], h - 1, d) && d - 1 <= |t.children[i].items|
  }

  function Depth(t: Tree): nat {
    if t.children == [] then 0 else 1 + Depth(t.children[0])
  }

  lemma {:induction false} DepthOfWf(t: Tree, h: nat, d: nat)
    requires Wf(t, h, d)
    ensures Depth(t) == h
  {
    if h > 0 {
      DepthOfWf(t.children[0], h - 1, d);
    }
  }

  // ----- Searching within a node -----

  /** The first index whose key exceeds `k`: what the binary search returns. */
  function Upper(s: seq<Item>, k: nat): (i: nat)
    ensures i <= |s|
    ensures forall j :: 0 <= j < i ==> s[j].key <= k
    ensures i < |s| ==> k < s[i].key
  {
    if s == [] || k < s[0].key then 0 else 1 + Upper(s[1..], k)
  }

  predicate Found(s: seq<Item>, k: nat) {
    Upper(s, k) > 0 && k <= s[Upper(s, k) - 1].key
  }

  function Index(s: seq<Item>, k: nat): (i: nat)
    ensures i <= |s|
    ensures Found(s, k) ==> i < |s| && s[i].key == k
    ensures !Found(s, k) && i < |s| ==> k < s[i].key
  {
    if Found(s, k) then Upper(s, k) - 1 else Upper(s, k)
  }

  // ----- Splitting and joining nodes -----

  function SplitLeft(t: Tree, j: nat): Tree
    requires j < |t.items|
    requires t.children == [] || |t.children| == |t.items| + 1
  {
    Node(t.items[..j], if t.children == [] then [] else t.children[..j + 1])
  }

  function SplitRight(t: Tree, j: nat): Tree
    requires j < |t.items|
    requires t.children == [] || |t.children| == |t.items| + 1
  {
    Node(t.items[j + 1..], if t.children == [] then [] else t.children[j + 1..])
  }

  function Join(a: Tree, sep: Item, b: Tree): Tree {
    Node(a.items + [sep] + b.items, a.children + b.children)
  }

  /** Parent `t` after its full child `i` is split around the median. */
  function SplitChild(t: Tree, i: nat, h: nat, d: nat): (u: Tree)
    requires d >= 1 && h > 0 && Wf(t, h, d) && i < |t.children| && |t.children[i].items| == 2 * d - 1
    ensures |u.items| == |t.items| + 1 && |u.children| == |u.items| + 1
  {
    var c := t.children[i];
    assert Wf(c, h - 1, d);
    Node(t.items[..i] + [c.items[d - 1]] + t.items[i..],
         t.children[..i] + [SplitLeft(c, d - 1), SplitRight(c, d - 1)] + t.children[i + 1..])
  }

  lemma {:induction false} SplitChildWf(t: Tree, i: nat, h: nat, d: nat)
    requires d >= 1 && h > 0 && Wf(t, h, d) && i < |t.children| && |t.children[i].items| == 2 * d - 1
    ensures var u := SplitChild(t, i, h, d);
            forall j :: 0 <= j < |u.children| ==> Wf(u.children[j], h - 1, d) && d - 1 <= |u.children[j].items|
  {
    assert Wf(t.children[i], h - 1, d);
  }

  // ----- Insertion -----

  /** `bnode.insert`: a found key leaves the tree alone (its value map is merged elsewhere);
      a key equal to a promoted median has its entry replaced. */
  function Insert(t: Tree, it: Item, h: nat, d: nat): Outcome
    requires d >= 2 && Wf(t, h, d)
    decreases h
  {
    var i := Index(t.items, it.key);
    if Found(t.items, it.key) then Outcome(t, Some(t.items[i]))
    else if h == 0 then Outcome(Node(t.items[..i] + [it] + t.items[i..], []), None)
    else if |t.children[i].items| < 2 * d - 1 then InsertChild(t, i, it, h, d)
    else
      assert Wf(t.children[i], h - 1, d);
      SplitChildWf(t, i, h, d);
      InsertAround(SplitChild(t, i, h, d), i, it, h, d)
  }

  /** Go on in the half of the split child where the key belongs, or replace the median. */
  function InsertAround(u: Tree, i: nat, it: Item, h: nat, d: nat): Outcome
    requires d >= 2 && h > 0 && i < |u.items| && i + 1 < |u.children|
    requires Wf(u.children[i], h - 1, d) && Wf(u.children[i + 1], h - 1, d)
    decreases h, 1
  {
    if it.key < u.items[i].key then InsertChild(u, i, it, h, d)
    else if u.items[i].key < it.key then InsertChild(u, i + 1, it, h, d)
    else Outcome(u.(items := u.items[i := it]), Some(u.items[i]))
  }

  function InsertChild(u: Tree, i: nat, it: Item, h: nat, d: nat): Outcome
    requires d >= 2 && h > 0 && i < |u.children| && Wf(u.children[i], h - 1, d)
    decreases h, 0
  {
    var r := Insert(u.children[i], it, h - 1, d);
    Outcome(u.(children := u.children[i := r.tree]), r.out)
  }

  /** The insertion meets its own key as the median of a full child it has to split. */
  predicate HitsMedian(t: Tree, k: nat, h: nat, d: nat)
    requires d >= 2 && Wf(t, h, d)
    decreases h
  {
    var i := Index(t.items, k);
    && !Found(t.items, k)
    && h > 0
    && if |t.children[i].items| < 2 * d - 1 then HitsMedian(t.children[i], k, h - 1, d)
       else
         assert Wf(t.children[i], h - 1, d);
         SplitChildWf(t, i, h, d);
         HitsAround(SplitChild(t, i, h, d), i, k, h, d)
  }

  predicate HitsAround(u: Tree, i: nat, k: nat, h: nat, d: nat)
    requires d >= 2 && h > 0 && i < |u.items| && i + 1 < |u.children|
    requires Wf(u.children[i], h - 1, d) && Wf(u.children[i + 1], h - 1, d)
    decreases h, 1
  {
    if k < u.items[i].key then HitsMedian(u.children[i], k, h - 1, d)
    else if u.items[i].key < k then HitsMedian(u.children[i + 1], k, h - 1, d)
    else true
  }

  // ----- Removal -----

  predicate Short(t: Tree, d: nat) {
    |t.items| <= d - 1
  }

  /** Two neighbours and their separator, re-divided so that the left one keeps `j` items. */
  function Shift(a: Tree, sep: Item, b: Tree, j: nat): (Tree, Item, Tree)
    requires a.children == [] || |a.children| == |a.items| + 1
    requires b.children == [] || |b.children| == |b.items| + 1
    requires (a.children == []) == (b.children == []) && j <= |a.items| + |b.items|
  {
    var m := Join(a, sep, b);
    (SplitLeft(m, j), m.items[j], SplitRight(m, j))
  }

  lemma {:induction false} ShiftWf(a: Tree, sep: Item, b: Tree, j: nat, h: nat, d: nat)
    requires d >= 2 && Wf(a, h, d) && Wf(b, h, d) && j <= |a.items| + |b.items|
    requires d - 1 <= j <= 2 * d - 1 && d - 1 <= |a.items| + |b.items| - j <= 2 * d - 1
    ensures var p := Shift(a, sep, b, j);
            Wf(p.0, h, d) && Wf(p.2, h, d) && |p.0.items| == j && |p.2.items| == |a.items| + |b.items| - j
  {
  }

  lemma {:induction false} JoinWf(a: Tree, sep: Item, b: Tree, h: nat, d: nat)
    requires d >= 2 && Wf(a, h, d) && Wf(b, h, d) && |a.items| + |b.items| + 1 <= 2 * d - 1
    ensures Wf(Join(a, sep, b), h, d)
  {
  }

  predicate CanGrow(t: Tree, i: nat, h: nat, d: nat) {
    d >= 2 && h > 0 && Wf(t, h, d) && i < |t.children| && t.items != [] && Short(t.children[i], d)
  }

  predicate CanShift(t: Tree, j: nat, n: nat, h: nat, d: nat) {
    && d >= 2 && h > 0 && Wf(t, h, d) && j < |t.items|
    && d - 1 <= n <= 2 * d - 1
    && d - 1 <= |t.children[j].items| + |t.children[j + 1].items| - n <= 2 * d - 1
  }

  predicate CanMerge(t: Tree, j: nat, h: nat, d: nat) {
    d >= 2 && h > 0 && Wf(t, h, d) && j < |t.items| && Short(t.children[j], d) && Short(t.children[j + 1], d)
  }

  datatype Move = ShiftStep(j: nat, n: nat) | MergeStep(j: nat)

  /** How `growChildAndRemove` feeds child `i`: steal from the left, else from the right, else merge. */
  function Plan(t: Tree, i: nat, h: nat, d: nat): (p: Move)
    requires CanGrow(t, i, h, d)
    ensures p.ShiftStep? ==> CanShift(t, p.j, p.n, h, d)
    ensures p.MergeStep? ==> CanMerge(t, p.j, h, d)
  {
    assert forall j :: 0 <= j < |t.children| ==> Wf(t.children[j], h - 1, d);
    if i > 0 && !Short(t.children[i - 1], d) then ShiftStep(i - 1, |t.children[i - 1].items| - 1)
    else if i < |t.items| && !Short(t.children[i + 1], d) then ShiftStep(i, |t.children[i].items| + 1)
    else MergeStep(if i >= |t.items| then i - 1 else i)
  }

  /** `growChildAndRemove` up to the point where it calls `remove` again. */
  function Grow(t: Tree, i: nat, h: nat, d: nat): (u: Tree)
    requires CanGrow(t, i, h, d)
    ensures Wf(u, h, d) && |t.items| - 1 <= |u.items|
  {
    match Plan(t, i, h, d)
    case ShiftStep(j, n) => ShiftAt(t, j, n, h, d)
    case MergeStep(j) => MergeAt(t, j, h, d)
  }

  /** Children `j` and `j + 1` re-divided so that the left one keeps `n` items. */
  function ShiftAt(t: Tree, j: nat, n: nat, h: nat, d: nat): (u: Tree)
    requires CanShift(t, j, n, h, d)
    ensures Wf(u, h, d) && |u.items| == |t.items| && |u.children[j].items| == n
    ensures |u.children[j + 1].items| == |t.children[j].items| + |t.children[j + 1].items| - n
  {
    assert Wf(t.children[j], h - 1, d) && Wf(t.children[j + 1], h - 1, d);
    var p := Shift(t.children[j], t.items[j], t.children[j + 1], n);
    ShiftWf(t.children[j], t.items[j], t.children[j + 1], n, h - 1, d);
    Node(t.items[j := p.1], t.children[j := p.0][j + 1 := p.2])
  }

  /** Children `j` and `j + 1` merged around their separator. */
  function MergeAt(t: Tree, j: nat, h: nat, d: nat): (u: Tree)
    requires CanMerge(t, j, h, d)
    ensures Wf(u, h, d) && |u.items| == |t.items| - 1
  {
    assert Wf(t.children[j], h - 1, d) && Wf(t.children[j + 1], h - 1, d);
    JoinWf(t.children[j], t.items[j], t.children[j + 1], h - 1, d);
    Node(t.items[..j] + t.items[j + 1..],
         t.children[..j] + [Join(t.children[j], t.items[j], t.children[j + 1])] + t.children[j + 2..])
  }

  /** The child that a removal of this kind goes through. */
  function Slot(t: Tree, k: nat, typ: Kind): (i: nat)
    ensures i <= |t.items|
  {
    match typ
    case RemoveMax => |t.items|
    case RemoveMin => 0
    case RemoveItem => Index(t.items, k)
  }

  predicate Removable(t: Tree, h: nat, d: nat) {
    Wf(t, h, d) && (t.items != [] || (h > 0 && !Short(t.children[0], d)))
  }

  /** The node once the child to descend into can spare an item. */
  function Ready(t: Tree, k: nat, typ: Kind, h: nat, d: nat): (u: Tree)
    requires d >= 2 && h > 0 && Removable(t, h, d)
    ensures |u.children| == |u.items| + 1 && |t.items| - 1 <= |u.items|
    ensures Wf(u, h, d)
    ensures forall j :: 0 <= j < |u.children| ==> Removable(u.children[j], h - 1, d)
  {
    var i := Slot(t, k, typ);
    if Short(t.children[i], d) then Grow(t, i, h, d) else t
  }

  /** `bnode.remove`. */
  function Remove(t: Tree, k: nat, typ: Kind, h: nat, d: nat): (r: Outcome)
    requires d >= 2 && Removable(t, h, d)
    ensures typ != RemoveItem ==> r.out.Some?
    decreases h
  {
    if h == 0 then RemoveFromLeaf(t, k, typ)
    else RemoveBelow(Ready(t, k, typ, h, d), k, typ, h, d)
  }

  /** The rest of `remove` once the child to descend into can spare an item; an item found in the
      node itself is replaced by its predecessor. */
  function RemoveBelow(u: Tree, k: nat, typ: Kind, h: nat, d: nat): (r: Outcome)
    requires d >= 2 && h > 0 && |u.children| == |u.items| + 1 && Removable(u.children[Slot(u, k, typ)], h - 1, d)
    ensures typ != RemoveItem ==> r.out.Some?
    ensures |r.tree.items| == |u.items|
    decreases h, 0
  {
    var i := Slot(u, k, typ);
    if typ == RemoveItem && Found(u.items, k) then
      var r := Remove(u.children[i], k, RemoveMax, h - 1, d);
      Outcome(Node(u.items[i := r.out.value], u.children[i := r.tree]), Some(u.items[i]))
    else
      var r := Remove(u.children[i], k, typ, h - 1, d);
      Outcome(u.(children := u.children[i := r.tree]), r.out)
  }

  function RemoveFromLeaf(t: Tree, k: nat, typ: Kind): (r: Outcome)
    requires t.items != []
    ensures typ != RemoveItem ==> r.out.Some?
  {
    var n := |t.items|;
    match typ
    case RemoveMax => Outcome(Node(t.items[..n - 1], t.children), Some(t.items[n - 1]))
    case RemoveMin => Outcome(Node(t.items[1..], t.children), Some(t.items[0]))
    case RemoveItem =>
      if Found(t.items, k) then
        var i := Index(t.items, k);
        Outcome(Node(t.items[..i] + t.items[i + 1..], t.children), Some(t.items[i]))
      else Outcome(t, None)
  }
}
