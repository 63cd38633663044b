/**
  What the B-tree functions do, in terms of the sorted sequence of entries of a tree:
  every insertion and removal keeps the shape of the tree and acts on that sequence
  exactly as an insertion into, or a removal from, a sorted list.
 */
module BTreeProofs {
  import opened BTreeSpec
  import opened Options

  // ----- Sorted lists: the reference -----

  /** Insert `it`; an entry with its key is kept, or replaced when `rep` holds. */
  function ListInsert(s: seq<Item>, it: Item, rep: bool): seq<Item> {
    if s == [] || it.key < s[0].key then [it] + s
    else if it.key == s[0].key then (if rep then [it] + s[1..] else s)
    else [s[0]] + ListInsert(s[1..], it, rep)
  }

  function ListDelete(s: seq<Item>, k: nat): seq<Item> {
    if s == [] then []
    else if s[0].key == k then s[1..]
    else [s[0]] + ListDelete(s[1..], k)
  }

  function ListGet(s: seq<Item>, k: nat): Option<Item> {
    if s == [] then None
    else if s[0].key == k then Some(s[0])
    else ListGet(s[1..], k)
  }

  function ListRemove(s: seq<Item>, k: nat, typ: Kind): Outcome
    requires typ != RemoveItem ==> s != []
  {
    match typ
    case RemoveMax => Outcome(Node(s[..|s| - 1], []), Some(s[|s| - 1]))
    case RemoveMin => Outcome(Node(s[1..], []), Some(s[0]))
    case RemoveItem => Outcome(Node(ListDelete(s, k), []), ListGet(s, k))
  }

  predicate AllBelow(s: seq<Item>, k: nat) {
    forall x <- s :: x.key < k
  }

  predicate AllAbove(s: seq<Item>, k: nat) {
    forall x <- s :: k < x.key
  }

  lemma {:induction false} SkipBelow(l: seq<Item>, m: seq<Item>, it: Item, rep: bool)
    requires AllBelow(l, it.key)
    ensures ListInsert(l + m, it, rep) == l + ListInsert(m, it, rep)
    ensures ListDelete(l + m, it.key) == l + ListDelete(m, it.key)
    ensures ListGet(l + m, it.key) == ListGet(m, it.key)
  {
    if l == [] {
      assert l + m == m;
    } else {
      assert (l + m)[1..] == l[1..] + m;
      SkipBelow(l[1..], m, it, rep);
    }
  }

  lemma {:induction false} InsertAbove(m: seq<Item>, r: seq<Item>, it: Item, rep: bool)
    requires AllAbove(r, it.key)
    ensures ListInsert(m + r, it, rep) == ListInsert(m, it, rep) + r
  {
    if m == [] {
      assert m + r == r;
    } else {
      var s := m + r;
      assert s[0] == m[0] && s[1..] == m[1..] + r;
      if m[0].key < it.key {
        InsertAbove(m[1..], r, it, rep);
        assert [m[0]] + (ListInsert(m[1..], it, rep) + r) == [m[0]] + ListInsert(m[1..], it, rep) + r;
      } else if it.key < m[0].key {
        assert [it] + s == [it] + m + r;
      } else {
        assert [it] + (m[1..] + r) == [it] + m[1..] + r;
      }
    }
  }

  lemma {:induction false} DeleteAbove(m: seq<Item>, r: seq<Item>, k: nat)
    requires AllAbove(r, k)
    ensures ListDelete(m + r, k) == ListDelete(m, k) + r
    ensures ListGet(m + r, k) == ListGet(m, k)
  {
    if m != [] {
      assert (m + r)[1..] == m[1..] + r;
      DeleteAbove(m[1..], r, k);
    } else if r != [] {
      assert (m + r)[1..] == m + r[1..];
      DeleteAbove(m, r[1..], k);
    }
  }

  /** Entries on either side of a key play no part in its insertion, removal or lookup. */
  lemma {:induction false} Skips(l: seq<Item>, m: seq<Item>, r: seq<Item>, it: Item, rep: bool)
    requires AllBelow(l, it.key) && AllAbove(r, it.key)
    ensures ListInsert(l + m + r, it, rep) == l + ListInsert(m, it, rep) + r
    ensures ListDelete(l + m + r, it.key) == l + ListDelete(m, it.key) + r
    ensures ListGet(l + m + r, it.key) == ListGet(m, it.key)
  {
    hide ListInsert, ListDelete, ListGet;
    InsertAbove(l + m, r, it, rep);
    DeleteAbove(l + m, r, it.key);
    SkipBelow(l, m, it, rep);
  }

  // ----- Cutting a node's sequence at a child or at a separator -----

  ghost predicate Shaped(t: Tree) {
    t.children == [] || |t.children| == |t.items| + 1
  }

  lemma {:induction false} Zoom(its: seq<Item>, ks: seq<Tree>, i: nat)
    requires |ks| == |its| + 1 && i < |ks|
    ensures InOrder(ks[0]) + Tail(its, ks[1..])
         == Lead(ks[..i], its[..i]) + InOrder(ks[i]) + Tail(its[i..], ks[i + 1..])
    decreases i
  {
    hide InOrder;
    if i > 0 {
      var c, s := InOrder(ks[0]), [its[0]];
      var l, m, r := Lead(ks[1..i], its[1..i]), InOrder(ks[i]), Tail(its[i..], ks[i + 1..]);
      var q := Tail(its[1..], ks[2..]);
      assert Tail(its, ks[1..]) == s + InOrder(ks[1]) + q by {
        assert ks[1..][1..] == ks[2..];
      }
      assert Lead(ks[..i], its[..i]) == c + s + l by {
        assert ks[..i][1..] == ks[1..i] && its[..i][1..] == its[1..i];
      }
      assert InOrder(ks[1]) + q == l + m + r by {
        hide Lead, Tail;
        Zoom(its[1..], ks[1..], i - 1);
        assert ks[1..][..i - 1] == ks[1..i] && its[1..][..i - 1] == its[1..i];
        assert ks[1..][i..] == ks[i + 1..] && its[1..][i - 1..] == its[i..] && ks[1..][1..] == ks[2..];
      }
      assert c + (s + InOrder(ks[1]) + q) == c + s + (InOrder(ks[1]) + q);
    }
  }

  lemma {:induction false} ZoomChild(t: Tree, i: nat)
    requires |t.children| == |t.items| + 1 && i < |t.children|
    ensures InOrder(t) == Lead(t.children[..i], t.items[..i]) + InOrder(t.children[i]) + Tail(t.items[i..], t.children[i + 1..])
  {
    Zoom(t.items, t.children, i);
  }

  lemma {:induction false} ZoomPair(t: Tree, i: nat)
    requires |t.children| == |t.items| + 1 && i < |t.items|
    ensures InOrder(t) == Lead(t.children[..i], t.items[..i])
                          + (InOrder(t.children[i]) + [t.items[i]] + InOrder(t.children[i + 1]))
                          + Tail(t.items[i + 1..], t.children[i + 2..])
  {
    ZoomChild(t, i);
    assert t.items[i..][1..] == t.items[i + 1..];
    assert t.children[i + 1..][1..] == t.children[i + 2..];
  }

  /** Splitting a node leaves its sequence as it was. */
  lemma {:induction false} SplitKeeps(t: Tree, j: nat)
    requires j < |t.items| && Shaped(t)
    ensures InOrder(t) == InOrder(SplitLeft(t, j)) + [t.items[j]] + InOrder(SplitRight(t, j))
  {
    if t.children != [] {
      var l, r := SplitLeft(t, j), SplitRight(t, j);
      assert InOrder(r) == InOrder(t.children[j + 1]) + Tail(t.items[j + 1..], t.children[j + 2..]) by {
        assert t.children[j + 1..][1..] == t.children[j + 2..];
      }
      assert Tail([], []) == [];
      hide InOrder, Tail, Lead;
      assert InOrder(l) == Lead(t.children[..j], t.items[..j]) + InOrder(t.children[j]) by {
        ZoomChild(l, j);
        assert l.children[..j] == t.children[..j] && l.items[..j] == t.items[..j];
        assert l.items[j..] == [] && l.children[j + 1..] == [];
      }
      ZoomPair(t, j);
    }
  }

  lemma {:induction false} JoinKeeps(a: Tree, sep: Item, b: Tree)
    requires Shaped(a) && Shaped(b) && (a.children == [] <==> b.children == [])
    ensures InOrder(Join(a, sep, b)) == InOrder(a) + [sep] + InOrder(b)
  {
    var m := Join(a, sep, b);
    SplitKeeps(m, |a.items|);
    assert SplitLeft(m, |a.items|) == a && SplitRight(m, |a.items|) == b;
  }

  lemma {:induction false} LeadEnds(kids: seq<Tree>, its: seq<Item>)
    requires |kids| == |its| > 0
    ensures Lead(kids, its) != [] && Lead(kids, its)[|Lead(kids, its)| - 1] == its[|its| - 1]
  {
    if |its| > 1 {
      LeadEnds(kids[1..], its[1..]);
    }
  }

  /** Child `i` of a sorted node, cut out at a key that belongs there. */
  lemma {:induction false} CutChild(t: Tree, i: nat, k: nat)
    requires |t.children| == |t.items| + 1 && i < |t.children| && Sorted(InOrder(t))
    requires i > 0 ==> t.items[i - 1].key < k
    requires i < |t.items| ==> k < t.items[i].key
    ensures AllBelow(Lead(t.children[..i], t.items[..i]), k)
    ensures AllAbove(Tail(t.items[i..], t.children[i + 1..]), k)
    ensures Sorted(InOrder(t.children[i]))
  {
    var l, m, r := Lead(t.children[..i], t.items[..i]), InOrder(t.children[i]), Tail(t.items[i..], t.children[i + 1..]);
    ZoomChild(t, i);
    SortedParts(l, m, r);
    if i > 0 {
      LeadEnds(t.children[..i], t.items[..i]);
    }
    if i < |t.items| {
      assert r[0] == t.items[i];
    }
  }

  lemma {:induction false} SortedParts(l: seq<Item>, m: seq<Item>, r: seq<Item>)
    requires Sorted(l + m + r)
    ensures Sorted(l) && Sorted(m) && Sorted(r)
    ensures forall i, j :: 0 <= i < |l| && 0 <= j < |m| ==> l[i].key < m[j].key
    ensures forall i, j :: 0 <= i < |m| && 0 <= j < |r| ==> m[i].key < r[j].key
  {
    var s := l + m + r;
    forall i, j | 0 <= i < j < |l| ensures l[i].key < l[j].key {
      assert s[i].key < s[j].key;
    }
    forall i, j | 0 <= i < j < |m| ensures m[i].key < m[j].key {
      assert s[|l| + i].key < s[|l| + j].key;
    }
    forall i, j | 0 <= i < j < |r| ensures r[i].key < r[j].key {
      assert s[|l| + |m| + i].key < s[|l| + |m| + j].key;
    }
    forall i, j | 0 <= i < |l| && 0 <= j < |m| ensures l[i].key < m[j].key {
      assert s[i].key < s[|l| + j].key;
    }
    forall i, j | 0 <= i < |m| && 0 <= j < |r| ensures m[i].key < r[j].key {
      assert s[|l| + i].key < s[|l| + |m| + j].key;
    }
  }

  /** The separators of a sorted node are sorted, and lie outside its children's ranges. */
  lemma {:induction false} SeparatorsSorted(t: Tree, i: nat)
    requires |t.children| == |t.items| + 1 && Sorted(InOrder(t)) && i < |t.items|
    ensures forall x <- InOrder(t.children[i]) :: x.key < t.items[i].key
    ensures forall x <- InOrder(t.children[i + 1]) :: t.items[i].key < x.key
    ensures i + 1 < |t.items| ==> t.items[i].key < t.items[i + 1].key
  {
    hide InOrder, Lead;
    var l, m, r := InOrder(t.children[i]), [t.items[i]], InOrder(t.children[i + 1]);
    var q := Tail(t.items[i + 1..], t.children[i + 2..]);
    ZoomPair(t, i);
    SortedParts(Lead(t.children[..i], t.items[..i]), l + m + r, q);
    SortedParts(l, m, r);
    assert m[0] == t.items[i];
    if i + 1 < |t.items| {
      assert q[0] == t.items[i + 1];
      assert (l + m + r)[|l|] == t.items[i];
    }
  }

  // ----- Insertion -----

  /** The list operations at a position that holds their key. */
  lemma {:induction false} AtPosition(s: seq<Item>, p: nat, it: Item, rep: bool)
    requires Sorted(s) && p < |s| && s[p].key == it.key
    ensures ListInsert(s, it, rep) == if rep then s[p := it] else s
    ensures ListDelete(s, it.key) == s[..p] + s[p + 1..]
    ensures ListGet(s, it.key) == Some(s[p])
  {
    var l, m, r := s[..p], [s[p]], s[p + 1..];
    assert s == l + m + r;
    assert ListInsert(m, it, rep) == (if rep then [it] else m) && ListDelete(m, it.key) == [] && ListGet(m, it.key) == Some(s[p]);
    hide ListInsert, ListDelete, ListGet;
    Skips(l, m, r, it, rep);
  }

  /** The list operations at a gap where their key would be. */
  lemma {:induction false} AtGap(s: seq<Item>, p: nat, it: Item, rep: bool)
    requires p <= |s| && AllBelow(s[..p], it.key) && AllAbove(s[p..], it.key)
    ensures ListInsert(s, it, rep) == s[..p] + [it] + s[p..]
    ensures ListDelete(s, it.key) == s && ListGet(s, it.key) == None
  {
    assert s == s[..p] + [] + s[p..];
    Skips(s[..p], [], s[p..], it, rep);
  }

  function ItemPosition(t: Tree, i: nat): nat
    requires Shaped(t) && i < |t.items|
  {
    if t.children == [] then i else |Lead(t.children[..i], t.items[..i])| + |InOrder(t.children[i])|
  }

  /** Where a node's own item stands in the sequence, and what replacing it does. */
  lemma {:induction false} ItemStands(t: Tree, i: nat, it: Item)
    requires Shaped(t) && i < |t.items|
    ensures var p := ItemPosition(t, i);
            && p < |InOrder(t)| && InOrder(t)[p] == t.items[i]
            && InOrder(t.(items := t.items[i := it])) == InOrder(t)[p := it]
  {
    if t.children != [] {
      var u := t.(items := t.items[i := it]);
      ZoomPair(t, i);
      ZoomPair(u, i);
      assert u.items[..i] == t.items[..i] && u.items[i + 1..] == t.items[i + 1..];
    }
  }

  /** Replacing a child by two that carry the same sequence around a new separator. */
  lemma {:induction false} TwoForOne(t: Tree, i: nat, l: Tree, m: Item, r: Tree)
    requires |t.children| == |t.items| + 1 && i < |t.children|
    requires InOrder(t.children[i]) == InOrder(l) + [m] + InOrder(r)
    ensures InOrder(Node(t.items[..i] + [m] + t.items[i..], t.children[..i] + [l, r] + t.children[i + 1..])) == InOrder(t)
  {
    var u := Node(t.items[..i] + [m] + t.items[i..], t.children[..i] + [l, r] + t.children[i + 1..]);
    ZoomChild(t, i);
    ZoomPair(u, i);
    assert u.children[..i] == t.children[..i] && u.items[..i] == t.items[..i];
    assert u.items[i + 1..] == t.items[i..] && u.children[i + 2..] == t.children[i + 1..];
  }

  lemma {:induction false} SplitChildKeeps(t: Tree, i: nat, h: nat, d: nat)
    requires d >= 2 && h > 0 && Wf(t, h, d) && i < |t.children| && |t.children[i].items| == 2 * d - 1
    ensures InOrder(SplitChild(t, i, h, d)) == InOrder(t)
  {
    var c := t.children[i];
    assert Wf(c, h - 1, d);
    SplitKeeps(c, d - 1);
    TwoForOne(t, i, SplitLeft(c, d - 1), c.items[d - 1], SplitRight(c, d - 1));
  }

  ghost predicate Inserted(t: Tree, r: Outcome, it: Item, rep: bool, h: nat, d: nat) {
    && Wf(r.tree, h, d) && |t.items| <= |r.tree.items|
    && InOrder(r.tree) == ListInsert(InOrder(t), it, rep)
    && r.out == ListGet(InOrder(t), it.key)
  }

  /** Inserting into a node with room inserts into its sequence, replacing exactly when the key
      is met as the median of a full child; the entry found is reported. */
  lemma {:induction false} InsertOk(t: Tree, it: Item, h: nat, d: nat)
    requires d >= 2 && Wf(t, h, d) && |t.items| < 2 * d - 1 && Sorted(InOrder(t))
    ensures Inserted(t, Insert(t, it, h, d), it, HitsMedian(t, it.key, h, d), h, d)
    decreases h
  {
    var i := Index(t.items, it.key);
    if Found(t.items, it.key) || h == 0 {
      InsertHereOk(t, it, h, d);
    } else {
      assert Wf(t.children[i], h - 1, d) && |t.children| == |t.items| + 1;
      assert i > 0 ==> t.items[i - 1].key < it.key;
      hide InOrder, Inserted, SplitChild, Sorted;
      if |t.children[i].items| < 2 * d - 1 {
        InsertChildOk(t, i, it, h, d);
      } else {
        InsertSplitOk(t, i, it, h, d);
      }
    }
  }

  lemma {:induction false} InsertHereOk(t: Tree, it: Item, h: nat, d: nat)
    requires d >= 2 && Wf(t, h, d) && |t.items| < 2 * d - 1 && Sorted(InOrder(t))
    requires Found(t.items, it.key) || h == 0
    ensures Inserted(t, Insert(t, it, h, d), it, HitsMedian(t, it.key, h, d), h, d)
  {
    var i := Index(t.items, it.key);
    assert h == 0 ==> InOrder(t) == t.items;
    if Found(t.items, it.key) {
      hide InOrder, ListInsert, ListGet;
      ItemStands(t, i, it);
      AtPosition(InOrder(t), ItemPosition(t, i), it, false);
    } else {
      hide ListInsert, ListGet;
      AtGap(t.items, i, it, false);
    }
  }

  lemma {:induction false} InsertChildOk(u: Tree, i: nat, it: Item, h: nat, d: nat)
    requires d >= 2 && h > 0 && Wf(u, h, d) && i < |u.children| && |u.children[i].items| < 2 * d - 1
    requires Sorted(InOrder(u))
    requires i > 0 ==> u.items[i - 1].key < it.key
    requires i < |u.items| ==> it.key < u.items[i].key
    ensures Wf(u.children[i], h - 1, d)
    ensures Inserted(u, InsertChild(u, i, it, h, d), it, HitsMedian(u.children[i], it.key, h - 1, d), h, d)
    decreases h, 0
  {
    hide InOrder, Lead, Tail, ListInsert, ListGet;
    var c := u.children[i];
    var w := Insert(c, it, h - 1, d);
    CutChild(u, i, it.key);
    InsertOk(c, it, h - 1, d);
    assert Wf(u.(children := u.children[i := w.tree]), h, d) by {
      SwapChildWf(u, i, u.items, w.tree, h, d);
    }
    ZoomChild(u, i);
    SwapChild(u, i, w.tree);
    Skips(Lead(u.children[..i], u.items[..i]), InOrder(c), Tail(u.items[i..], u.children[i + 1..]), it, HitsMedian(c, it.key, h - 1, d));
  }

  lemma {:induction false} InsertSplitOk(t: Tree, i: nat, it: Item, h: nat, d: nat)
    requires d >= 2 && h > 0 && Wf(t, h, d) && |t.items| < 2 * d - 1 && Sorted(InOrder(t))
    requires i == Index(t.items, it.key) && !Found(t.items, it.key) && |t.children[i].items| == 2 * d - 1
    ensures Inserted(t, Insert(t, it, h, d), it, HitsMedian(t, it.key, h, d), h, d)
    decreases h, 2
  {
    var u := SplitChild(t, i, h, d);
    SplitChildKeeps(t, i, h, d);
    SplitChildItems(t, i, h, d);
    SplitChildWf(t, i, h, d);
    InsertAroundOk(u, i, it, h, d);
  }

  lemma {:induction false} InsertAroundOk(u: Tree, i: nat, it: Item, h: nat, d: nat)
    requires d >= 2 && h > 0 && Wf(u, h, d) && Sorted(InOrder(u)) && i < |u.items|
    requires |u.children[i].items| < 2 * d - 1 && |u.children[i + 1].items| < 2 * d - 1
    requires i > 0 ==> u.items[i - 1].key < it.key
    requires i + 1 < |u.items| ==> it.key < u.items[i + 1].key
    ensures Wf(u.children[i], h - 1, d) && Wf(u.children[i + 1], h - 1, d)
    ensures Inserted(u, InsertAround(u, i, it, h, d), it, HitsAround(u, i, it.key, h, d), h, d)
    decreases h, 1
  {
    if it.key < u.items[i].key {
      InsertChildOk(u, i, it, h, d);
    } else if u.items[i].key < it.key {
      InsertChildOk(u, i + 1, it, h, d);
    } else {
      ItemStands(u, i, it);
      AtPosition(InOrder(u), ItemPosition(u, i), it, true);
    }
  }

  lemma {:induction false} SplitChildItems(t: Tree, i: nat, h: nat, d: nat)
    requires d >= 2 && h > 0 && Wf(t, h, d) && i < |t.children| && |t.children[i].items| == 2 * d - 1
    ensures var u := SplitChild(t, i, h, d);
            && (i > 0 ==> u.items[i - 1] == t.items[i - 1]) && (i < |t.items| ==> u.items[i + 1] == t.items[i])
            && |u.children[i].items| == d - 1 && |u.children[i + 1].items| == d - 1
  {
  }

  // ----- Removal -----

  /** Replacing a child, its separator and its right neighbour by others of the same sequence. */
  lemma {:induction false} PairForPair(t: Tree, j: nat, a: Tree, m: Item, b: Tree)
    requires |t.children| == |t.items| + 1 && j < |t.items|
    requires InOrder(a) + [m] + InOrder(b) == InOrder(t.children[j]) + [t.items[j]] + InOrder(t.children[j + 1])
    ensures InOrder(Node(t.items[j := m], t.children[j := a][j + 1 := b])) == InOrder(t)
  {
    var u := Node(t.items[j := m], t.children[j := a][j + 1 := b]);
    ZoomPair(t, j);
    ZoomPair(u, j);
    assert u.children[..j] == t.children[..j] && u.items[..j] == t.items[..j];
    assert u.items[j + 1..] == t.items[j + 1..] && u.children[j + 2..] == t.children[j + 2..];
  }

  lemma {:induction false} ShiftKeeps(a: Tree, sep: Item, b: Tree, j: nat)
    requires Shaped(a) && Shaped(b) && (a.children == [] <==> b.children == []) && j <= |a.items| + |b.items|
    ensures var p := Shift(a, sep, b, j);
            InOrder(p.0) + [p.1] + InOrder(p.2) == InOrder(a) + [sep] + InOrder(b)
  {
    JoinKeeps(a, sep, b);
    SplitKeeps(Join(a, sep, b), j);
  }

  /** Moving the boundary to the left by one is a steal: the last item goes up, the separator down. */
  lemma {:induction false} ShiftLeftOne(a: Tree, sep: Item, b: Tree)
    requires Shaped(a) && Shaped(b) && (a.children == [] <==> b.children == []) && a.items != []
    ensures var n, p := |a.items| - 1, Shift(a, sep, b, |a.items| - 1);
            && p.1 == a.items[n]
            && p.0 == Node(a.items[..n], if a.children == [] then [] else a.children[..n + 1])
            && p.2 == Node([sep] + b.items, if a.children == [] then [] else [a.children[n + 1]] + b.children)
  {
    var n, m := |a.items| - 1, Join(a, sep, b);
    assert m.items[..n] == a.items[..n] && m.items[n + 1..] == [sep] + b.items;
    if a.children != [] {
      assert m.children[..n + 1] == a.children[..n + 1] && m.children[n + 1..] == [a.children[n + 1]] + b.children;
    }
  }

  lemma {:induction false} ShiftRightOne(a: Tree, sep: Item, b: Tree)
    requires Shaped(a) && Shaped(b) && (a.children == [] <==> b.children == []) && b.items != []
    ensures var p := Shift(a, sep, b, |a.items| + 1);
            && p.1 == b.items[0]
            && p.0 == Node(a.items + [sep], if a.children == [] then [] else a.children + [b.children[0]])
            && p.2 == Node(b.items[1..], if a.children == [] then [] else b.children[1..])
  {
    var n, m := |a.items| + 1, Join(a, sep, b);
    assert m.items[..n] == a.items + [sep] && m.items[n + 1..] == b.items[1..];
    if a.children != [] {
      assert m.children[..n + 1] == a.children + [b.children[0]] && m.children[n + 1..] == b.children[1..];
    }
  }

  lemma {:induction false} ShiftAtKeeps(t: Tree, j: nat, n: nat, h: nat, d: nat)
    requires CanShift(t, j, n, h, d)
    ensures InOrder(ShiftAt(t, j, n, h, d)) == InOrder(t)
  {
    var a, b := t.children[j], t.children[j + 1];
    assert Wf(a, h - 1, d) && Wf(b, h - 1, d);
    ShiftKeeps(a, t.items[j], b, n);
    var p := Shift(a, t.items[j], b, n);
    PairForPair(t, j, p.0, p.1, p.2);
  }

  /** Replacing a child, its separator and its right neighbour by one node of the same sequence. */
  lemma {:induction false} OneForTwo(t: Tree, j: nat, m: Tree)
    requires |t.children| == |t.items| + 1 && j < |t.items|
    requires InOrder(m) == InOrder(t.children[j]) + [t.items[j]] + InOrder(t.children[j + 1])
    ensures InOrder(Node(t.items[..j] + t.items[j + 1..], t.children[..j] + [m] + t.children[j + 2..])) == InOrder(t)
  {
    var u := Node(t.items[..j] + t.items[j + 1..], t.children[..j] + [m] + t.children[j + 2..]);
    ZoomPair(t, j);
    ZoomChild(u, j);
    assert u.children[..j] == t.children[..j] && u.items[..j] == t.items[..j];
    assert u.items[j..] == t.items[j + 1..] && u.children[j + 1..] == t.children[j + 2..];
  }

  lemma {:induction false} MergeAtKeeps(t: Tree, j: nat, h: nat, d: nat)
    requires CanMerge(t, j, h, d)
    ensures InOrder(MergeAt(t, j, h, d)) == InOrder(t)
  {
    var a, b := t.children[j], t.children[j + 1];
    assert Wf(a, h - 1, d) && Wf(b, h - 1, d);
    JoinKeeps(a, t.items[j], b);
    OneForTwo(t, j, Join(a, t.items[j], b));
  }

  /** Stealing and merging leave the sequence as it was. */
  lemma {:induction false} GrowKeeps(t: Tree, i: nat, h: nat, d: nat)
    requires CanGrow(t, i, h, d)
    ensures InOrder(Grow(t, i, h, d)) == InOrder(t)
  {
    match Plan(t, i, h, d)
    case ShiftStep(j, n) => ShiftAtKeeps(t, j, n, h, d);
    case MergeStep(j) => MergeAtKeeps(t, j, h, d);
  }

  lemma {:induction false} UpperIs(s: seq<Item>, k: nat, p: nat)
    requires p <= |s|
    requires forall j :: 0 <= j < p ==> s[j].key <= k
    requires p < |s| ==> k < s[p].key
    ensures Upper(s, k) == p
  {
    if p > 0 {
      UpperIs(s[1..], k, p - 1);
    }
  }

  /** In sorted items, an index is found by its two neighbours. */
  lemma {:induction false} IndexIs(s: seq<Item>, k: nat, i: nat)
    requires Sorted(s) && i <= |s|
    requires i > 0 ==> s[i - 1].key < k
    requires i < |s| ==> k <= s[i].key
    ensures Index(s, k) == i && (Found(s, k) <==> i < |s| && s[i].key == k)
  {
    UpperIs(s, k, if i < |s| && s[i].key == k then i + 1 else i);
  }

  lemma {:induction false} ItemsSorted(t: Tree)
    requires Shaped(t) && Sorted(InOrder(t))
    ensures Sorted(t.items)
  {
    if t.children != [] {
      forall i | 0 <= i < |t.items| - 1 ensures t.items[i].key < t.items[i + 1].key {
        SeparatorsSorted(t, i);
      }
      SortedByNeighbours(t.items);
    }
  }

  lemma {:induction false} SortedByNeighbours(s: seq<Item>)
    requires forall i :: 0 <= i < |s| - 1 ==> s[i].key < s[i + 1].key
    ensures Sorted(s)
  {
    if |s| > 1 {
      SortedByNeighbours(s[1..]);
      assert s[1].key == s[1..][0].key;
      forall i, j | 0 <= i < j < |s| ensures s[i].key < s[j].key {
        if i > 0 {
          assert s[1..][i - 1].key < s[1..][j - 1].key;
        } else if j > 1 {
          assert s[1..][0].key < s[1..][j - 1].key;
        }
      }
    }
  }

  /** A separator moves down when its left child gives an item up, and up when it gains one. */
  lemma {:induction false} SeparatorMoves(t: Tree, j: nat, n: nat, h: nat, d: nat)
    requires CanShift(t, j, n, h, d) && Sorted(InOrder(t))
    ensures n < |t.children[j].items| ==> ShiftAt(t, j, n, h, d).items[j].key < t.items[j].key
    ensures n > |t.children[j].items| ==> t.items[j].key < ShiftAt(t, j, n, h, d).items[j].key
  {
    hide InOrder, Sorted;
    var a, b := t.children[j], t.children[j + 1];
    assert Wf(a, h - 1, d) && Wf(b, h - 1, d);
    SeparatorsSorted(t, j);
    if n < |a.items| {
      ItemStands(a, n, t.items[j]);
    } else if n > |a.items| {
      ItemStands(b, n - |a.items| - 1, t.items[j]);
    }
  }

  lemma {:induction false} ShiftFeeds(t: Tree, k: nat, typ: Kind, j: nat, n: nat, h: nat, d: nat)
    requires CanShift(t, j, n, h, d) && Sorted(InOrder(t))
    requires (Slot(t, k, typ) == j + 1 && n < |t.children[j].items|) || (Slot(t, k, typ) == j && n > |t.children[j].items|)
    ensures Slot(ShiftAt(t, j, n, h, d), k, typ) == Slot(t, k, typ)
  {
    if typ == RemoveItem {
      var u := ShiftAt(t, j, n, h, d);
      ShiftAtKeeps(t, j, n, h, d);
      ItemsSorted(t);
      ItemsSorted(u);
      SeparatorMoves(t, j, n, h, d);
      IndexIs(u.items, k, Slot(t, k, typ));
    }
  }

  lemma {:induction false} MergeFeeds(t: Tree, k: nat, typ: Kind, j: nat, h: nat, d: nat)
    requires CanMerge(t, j, h, d) && Sorted(InOrder(t))
    requires Slot(t, k, typ) == j || (Slot(t, k, typ) == j + 1 == |t.items|)
    ensures Slot(MergeAt(t, j, h, d), k, typ) == j
  {
    if typ == RemoveItem {
      MergeAtKeeps(t, j, h, d);
      ItemsSorted(t);
      ItemsSorted(MergeAt(t, j, h, d));
      IndexIs(MergeAt(t, j, h, d).items, k, j);
    }
  }

  /** After growing, the child the removal now goes through has an item to spare. */
  lemma {:induction false} GrowFeeds(t: Tree, k: nat, typ: Kind, h: nat, d: nat)
    requires CanGrow(t, Slot(t, k, typ), h, d) && Sorted(InOrder(t))
    ensures var u := Grow(t, Slot(t, k, typ), h, d); !Short(u.children[Slot(u, k, typ)], d)
  {
    match Plan(t, Slot(t, k, typ), h, d)
    case ShiftStep(j, n) => ShiftFeeds(t, k, typ, j, n, h, d);
    case MergeStep(j) =>
      assert Wf(t.children[j], h - 1, d) && Wf(t.children[j + 1], h - 1, d);
      MergeFeeds(t, k, typ, j, h, d);
  }

  ghost predicate Removed(t: Tree, r: Outcome, k: nat, typ: Kind, h: nat, d: nat) {
    && Wf(r.tree, h, d) && |t.items| - 1 <= |r.tree.items|
    && (typ != RemoveItem ==> InOrder(t) != [])
    && var e := ListRemove(InOrder(t), k, typ);
       InOrder(r.tree) == e.tree.items && r.out == e.out
  }

  /** Removing from a node removes from its sequence, and costs it at most one item. */
  lemma {:induction false} RemoveOk(t: Tree, k: nat, typ: Kind, h: nat, d: nat)
    requires d >= 2 && Removable(t, h, d) && Sorted(InOrder(t))
    ensures Removed(t, Remove(t, k, typ, h, d), k, typ, h, d)
    decreases h
  {
    if h == 0 {
      RemoveLeafOk(t, k, typ, d);
    } else {
      ReadyOk(t, k, typ, h, d);
      RemoveAtOk(Ready(t, k, typ, h, d), k, typ, h, d);
    }
  }

  lemma {:induction false} RemoveAtOk(u: Tree, k: nat, typ: Kind, h: nat, d: nat)
    requires d >= 2 && h > 0 && Wf(u, h, d) && Sorted(InOrder(u)) && !Short(u.children[Slot(u, k, typ)], d)
    requires Removable(u.children[Slot(u, k, typ)], h - 1, d)
    ensures Removed(u, RemoveBelow(u, k, typ, h, d), k, typ, h, d)
    decreases h, 0
  {
    var i := Slot(u, k, typ);
    assert |u.children| == |u.items| + 1;
    hide InOrder, Wf, Sorted, Removed;
    SortedChild(u, i);
    if typ == RemoveItem && Found(u.items, k) {
      RemoveOk(u.children[i], k, RemoveMax, h - 1, d);
      RemoveFoundOk(u, i, Remove(u.children[i], k, RemoveMax, h - 1, d), h, d);
    } else {
      RemoveOk(u.children[i], k, typ, h - 1, d);
      RemoveBelowOk(u, k, typ, Remove(u.children[i], k, typ, h - 1, d), h, d);
    }
  }

  lemma {:induction false} RemoveLeafOk(t: Tree, k: nat, typ: Kind, d: nat)
    requires Wf(t, 0, d) && t.items != [] && Sorted(t.items)
    ensures Removed(t, RemoveFromLeaf(t, k, typ), k, typ, 0, d)
  {
    if typ == RemoveItem {
      hide ListDelete, ListGet;
      var i := Index(t.items, k);
      if Found(t.items, k) {
        AtPosition(t.items, i, t.items[i], false);
      } else {
        AtGap(t.items, i, Item(k, 0), false);
      }
    }
  }

  lemma {:induction false} ReadyOk(t: Tree, k: nat, typ: Kind, h: nat, d: nat)
    requires d >= 2 && h > 0 && Removable(t, h, d) && Sorted(InOrder(t))
    ensures var u := Ready(t, k, typ, h, d);
            InOrder(u) == InOrder(t) && !Short(u.children[Slot(u, k, typ)], d)
  {
    if Short(t.children[Slot(t, k, typ)], d) {
      GrowKeeps(t, Slot(t, k, typ), h, d);
      GrowFeeds(t, k, typ, h, d);
    }
  }

  /** A child loses its last entry to the separator after it. */
  lemma {:induction false} PullUp(u: Tree, i: nat, c: Tree, x: Item)
    requires |u.children| == |u.items| + 1 && i < |u.items| && InOrder(u.children[i]) == InOrder(c) + [x]
    ensures var p := ItemPosition(u, i);
            && p < |InOrder(u)|
            && InOrder(Node(u.items[i := x], u.children[i := c])) == InOrder(u)[..p] + InOrder(u)[p + 1..]
  {
    var v := Node(u.items[i := x], u.children[i := c]);
    ZoomPair(u, i);
    ZoomPair(v, i);
    assert v.children[..i] == u.children[..i] && v.items[..i] == u.items[..i];
    assert v.children[i + 1] == u.children[i + 1] && v.children[i + 2..] == u.children[i + 2..];
    assert v.items[i + 1..] == u.items[i + 1..];
  }

  lemma {:induction false} SwapChild(u: Tree, i: nat, c: Tree)
    requires |u.children| == |u.items| + 1 && i < |u.children|
    ensures InOrder(u.(children := u.children[i := c]))
         == Lead(u.children[..i], u.items[..i]) + InOrder(c) + Tail(u.items[i..], u.children[i + 1..])
  {
    var v := u.(children := u.children[i := c]);
    ZoomChild(v, i);
    assert v.children[..i] == u.children[..i] && v.children[i + 1..] == u.children[i + 1..];
  }

  lemma {:induction false} SwapChildWf(u: Tree, i: nat, its: seq<Item>, c: Tree, h: nat, d: nat)
    requires h > 0 && Wf(u, h, d) && i < |u.children| && |its| == |u.items| && Wf(c, h - 1, d) && d - 1 <= |c.items|
    ensures Wf(Node(its, u.children[i := c]), h, d)
  {
  }

  lemma {:induction false} SortedChild(u: Tree, i: nat)
    requires |u.children| == |u.items| + 1 && i < |u.children| && Sorted(InOrder(u))
    ensures Sorted(InOrder(u.children[i]))
  {
    ZoomChild(u, i);
    SortedParts(Lead(u.children[..i], u.items[..i]), InOrder(u.children[i]), Tail(u.items[i..], u.children[i + 1..]));
  }

  lemma {:induction false} RemoveFoundOk(u: Tree, i: nat, r: Outcome, h: nat, d: nat)
    requires h > 0 && Wf(u, h, d) && Sorted(InOrder(u)) && i < |u.items| && !Short(u.children[i], d)
    requires Removed(u.children[i], r, u.items[i].key, RemoveMax, h - 1, d)
    ensures r.out.Some?
    ensures Removed(u, Outcome(Node(u.items[i := r.out.value], u.children[i := r.tree]), Some(u.items[i])),
                    u.items[i].key, RemoveItem, h, d)
  {
    var v := Node(u.items[i := r.out.value], u.children[i := r.tree]);
    assert Wf(v, h, d) by {
      SwapChildWf(u, i, u.items[i := r.out.value], r.tree, h, d);
    }
    assert InOrder(v) == ListDelete(InOrder(u), u.items[i].key) && ListGet(InOrder(u), u.items[i].key) == Some(u.items[i]) by {
      RemoveFoundSeq(u, i, r.tree, r.out.value);
    }
  }

  lemma {:induction false} RemoveFoundSeq(u: Tree, i: nat, c: Tree, x: Item)
    requires |u.children| == |u.items| + 1 && Sorted(InOrder(u)) && i < |u.items|
    requires InOrder(u.children[i]) == InOrder(c) + [x]
    ensures InOrder(Node(u.items[i := x], u.children[i := c])) == ListDelete(InOrder(u), u.items[i].key)
    ensures ListGet(InOrder(u), u.items[i].key) == Some(u.items[i])
  {
    ItemStands(u, i, u.items[i]);
    AtPosition(InOrder(u), ItemPosition(u, i), u.items[i], false);
    PullUp(u, i, c, x);
  }

  lemma {:induction false} RemoveBelowOk(u: Tree, k: nat, typ: Kind, r: Outcome, h: nat, d: nat)
    requires h > 0 && Wf(u, h, d) && Sorted(InOrder(u)) && !Short(u.children[Slot(u, k, typ)], d)
    requires typ == RemoveItem ==> !Found(u.items, k)
    requires Removed(u.children[Slot(u, k, typ)], r, k, typ, h - 1, d)
    ensures Removed(u, Outcome(u.(children := u.children[Slot(u, k, typ) := r.tree]), r.out), k, typ, h, d)
  {
    var i := Slot(u, k, typ);
    assert Wf(u.(children := u.children[i := r.tree]), h, d) by {
      SwapChildWf(u, i, u.items, r.tree, h, d);
    }
    RemoveBelowSeq(u, k, typ, r);
  }

  lemma {:induction false} RemoveBelowSeq(u: Tree, k: nat, typ: Kind, r: Outcome)
    requires |u.children| == |u.items| + 1 && Sorted(InOrder(u))
    requires typ == RemoveItem ==> !Found(u.items, k)
    requires typ != RemoveItem ==> InOrder(u.children[Slot(u, k, typ)]) != []
    requires var e := ListRemove(InOrder(u.children[Slot(u, k, typ)]), k, typ); InOrder(r.tree) == e.tree.items && r.out == e.out
    ensures typ != RemoveItem ==> InOrder(u) != []
    ensures var e := ListRemove(InOrder(u), k, typ);
            InOrder(u.(children := u.children[Slot(u, k, typ) := r.tree])) == e.tree.items && r.out == e.out
  {
    var i := Slot(u, k, typ);
    var l, m, q := Lead(u.children[..i], u.items[..i]), InOrder(u.children[i]), Tail(u.items[i..], u.children[i + 1..]);
    assert InOrder(u) == l + m + q by { ZoomChild(u, i); }
    assert InOrder(u.(children := u.children[i := r.tree])) == l + InOrder(r.tree) + q by { SwapChild(u, i, r.tree); }
    assert typ == RemoveMin ==> l == [];
    assert typ == RemoveMax ==> q == [];
    if typ == RemoveItem {
      CutChild(u, i, k);
    }
    RemoveSkips(l, m, q, k, typ);
  }

  lemma {:induction false} RemoveSkips(l: seq<Item>, m: seq<Item>, r: seq<Item>, k: nat, typ: Kind)
    requires typ == RemoveItem ==> AllBelow(l, k) && AllAbove(r, k)
    requires typ == RemoveMin ==> l == [] && m != []
    requires typ == RemoveMax ==> r == [] && m != []
    ensures var e, f := ListRemove(l + m + r, k, typ), ListRemove(m, k, typ);
            e.tree.items == l + f.tree.items + r && e.out == f.out
  {
    if typ == RemoveItem {
      Skips(l, m, r, Item(k, 0), false);
    }
  }
}
