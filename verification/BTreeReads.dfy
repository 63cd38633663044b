/**
  Reading a tree from its records: `Get`, `Min` and `Max`, each proved against the sorted list of
  the tree's entries.
 */
module BTreeReads {
  import opened BTreeSpec
  import opened BTreeProofs
  import opened BTreeStore
  import opened Options

  /** A laid out tree of height `h` with sorted entries. */
  ghost predicate Readable(n: Nodes, r: Ref, l: Loc, h: nat, d: nat) {
    Holds(n, l) && l.ref == r && Wf(Erase(l), h, d) && Sorted(InOrder(Erase(l)))
  }

  lemma {:induction false} ReadableKid(n: Nodes, r: Ref, l: Loc, h: nat, d: nat, i: nat)
    requires Readable(n, r, l, h, d) && h > 0 && i < |l.kids|
    ensures Readable(n, l.kids[i].ref, l.kids[i], h - 1, d)
    ensures n[r].children[i] == l.kids[i].ref && Erase(l).children[i] == Erase(l.kids[i])
  {
    KidShape(l, i, h, d);
    SortedChild(Erase(l), i);
  }

  lemma {:induction false} ReadableHere(n: Nodes, r: Ref, l: Loc, h: nat, d: nat)
    requires Readable(n, r, l, h, d)
    ensures r in n && n[r].items == l.items == Erase(l).items && |n[r].children| == |l.kids| == |Erase(l).children|
    ensures Sorted(l.items) && (h == 0 <==> l.kids == []) && (h > 0 ==> |l.kids| == |l.items| + 1)
    ensures h == 0 ==> InOrder(Erase(l)) == l.items
  {
    ItemsSorted(Erase(l));
  }

  /** `bnode.get`. */
  method Get(n: Nodes, r: Ref, k: nat, ghost l: Loc, ghost h: nat, ghost d: nat) returns (out: Option<Item>)
    requires Readable(n, r, l, h, d)
    ensures out == ListGet(InOrder(Erase(l)), k)
    decreases h
  {
    ReadableHere(n, r, l, h, d);
    ghost var t := Erase(l);
    hide Readable, InOrder, Erase, Wf;
    var i, found := Find(n[r].items, k);
    if found {
      ItemStands(t, i, t.items[i]);
      AtPosition(InOrder(t), ItemPosition(t, i), t.items[i], false);
      out := Some(n[r].items[i]);
    } else if |n[r].children| > 0 {
      ReadableKid(n, r, l, h, d, i);
      out := Get(n, n[r].children[i], k, l.kids[i], h - 1, d);
      GetBelow(t, i, k);
    } else {
      AtGap(t.items, i, Item(k, 0), false);
      out := None;
    }
  }

  lemma {:induction false} GetBelow(t: Tree, i: nat, k: nat)
    requires |t.children| == |t.items| + 1 && Sorted(InOrder(t)) && i == Index(t.items, k) && !Found(t.items, k)
    ensures ListGet(InOrder(t), k) == ListGet(InOrder(t.children[i]), k)
  {
    CutChild(t, i, k);
    ZoomChild(t, i);
    hide InOrder, ListGet;
    Skips(Lead(t.children[..i], t.items[..i]), InOrder(t.children[i]), Tail(t.items[i..], t.children[i + 1..]), Item(k, 0), false);
  }

  /** `min`: follow the first children down. */
  method Min(n: Nodes, r: Ref, ghost l: Loc, ghost h: nat, ghost d: nat) returns (out: Option<Item>)
    requires d >= 2 && Readable(n, r, l, h, d)
    ensures var s := InOrder(Erase(l)); out == if s == [] then None else Some(s[0])
  {
    var x := r;
    ghost var c, g := l, h;
    ReadableHere(n, x, c, g, d);
    while |n[x].children| > 0
      invariant Readable(n, x, c, g, d) && x in n && |n[x].children| == |c.kids|
      invariant InOrder(Erase(c)) <= InOrder(Erase(l)) && (c != l ==> c.items != [])
      invariant c == l || h > g
      decreases g
    {
      ReadableHere(n, x, c, g, d);
      ReadableKid(n, x, c, g, d, 0);
      KidShape(c, 0, g, d);
      FirstKid(Erase(c));
      x, c, g := n[x].children[0], c.kids[0], g - 1;
      ReadableHere(n, x, c, g, d);
    }
    ReadableHere(n, x, c, g, d);
    if |n[x].items| == 0 {
      return None;
    }
    return Some(n[x].items[0]);
  }

  lemma {:induction false} FirstKid(t: Tree)
    requires t.children != []
    ensures InOrder(t.children[0]) <= InOrder(t)
  {
  }

  /** `max`: follow the last children down. */
  method Max(n: Nodes, r: Ref, ghost l: Loc, ghost h: nat, ghost d: nat) returns (out: Option<Item>)
    requires d >= 2 && Readable(n, r, l, h, d)
    ensures var s := InOrder(Erase(l)); out == if s == [] then None else Some(s[|s| - 1])
  {
    hide *;
    var x := r;
    ghost var c, g := l, h;
    ReadableHere(n, x, c, g, d);
    SuffixEnds(InOrder(Erase(l)), InOrder(Erase(l)));
    while |n[x].children| > 0
      invariant Readable(n, x, c, g, d) && x in n && |n[x].children| == |c.kids| && (c.kids != [] ==> g > 0)
      invariant Suffix(InOrder(Erase(c)), InOrder(Erase(l))) && (c != l ==> c.items != [])
      decreases g
    {
      LastDown(n, x, c, g, d, l);
      x, c, g := n[x].children[|n[x].children| - 1], c.kids[|c.kids| - 1], g - 1;
      ReadableHere(n, x, c, g, d);
    }
    ReadableHere(n, x, c, g, d);
    SuffixEnds(c.items, InOrder(Erase(l)));
    if |n[x].items| == 0 {
      return None;
    }
    return Some(n[x].items[|n[x].items| - 1]);
  }

  lemma {:induction false} LastDown(n: Nodes, x: Ref, c: Loc, g: nat, d: nat, l: Loc)
    requires d >= 2 && Readable(n, x, c, g, d) && g > 0 && Suffix(InOrder(Erase(c)), InOrder(Erase(l)))
    ensures x in n && |n[x].children| == |c.kids| > 0
    ensures var k := c.kids[|c.kids| - 1];
            && n[x].children[|c.kids| - 1] == k.ref && Readable(n, k.ref, k, g - 1, d) && k.items != [] && k < c
            && Suffix(InOrder(Erase(k)), InOrder(Erase(l)))
  {
    ReadableHere(n, x, c, g, d);
    var i := |c.kids| - 1;
    ReadableKid(n, x, c, g, d, i);
    KidShape(c, i, g, d);
    LastKid(Erase(c));
    hide InOrder, Erase, Readable;
    SuffixOf(InOrder(Erase(c.kids[i])), InOrder(Erase(c)), InOrder(Erase(l)));
  }

  ghost predicate Suffix(a: seq<Item>, b: seq<Item>) {
    |a| <= |b| && b[|b| - |a|..] == a
  }

  lemma {:induction false} SuffixOf(a: seq<Item>, b: seq<Item>, c: seq<Item>)
    requires Suffix(a, b) && Suffix(b, c)
    ensures Suffix(a, c)
  {
  }

  lemma {:induction false} SuffixEnds(a: seq<Item>, b: seq<Item>)
    ensures Suffix(a, b) && a != [] ==> b != [] && a[|a| - 1] == b[|b| - 1]
    ensures a == b ==> Suffix(a, b)
  {
  }

  lemma {:induction false} LastKid(t: Tree)
    requires |t.children| == |t.items| + 1
    ensures Suffix(InOrder(t.children[|t.items|]), InOrder(t))
  {
    ZoomChild(t, |t.items|);
  }
}
