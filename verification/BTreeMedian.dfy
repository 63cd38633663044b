/**
  An insertion that replaces an entry instead of merging into it: the smallest tree of degree two in
  which a key is the median of a full node below the root.
 */
module BTreeMedian {
  import opened BTreeProofs
  import opened BTreeRuns
  import opened BTreeSpec
  import opened Options

  function It(k: nat): Item {
    Item(k, k)
  }

  /** What the insertion of 10, 20, 30, 40 and 50 leaves. */
  function Five(): Tree {
    Node([It(20)], [Node([It(10)], []), Node([It(30), It(40), It(50)], [])])
  }

  /** One insertion into a tree, step by step. */
  lemma {:induction false} PutOne(t: Tree, n: nat, it: Item, u: Tree)
    requires IndexOk(Index(Some(t), n), 2) && |t.items| < 3 && Insert(t, it, Depth(t), 2) == Outcome(u, None)
    ensures Put(Index(Some(t), n), it, 2) == (Index(Some(u), n + 1), None) && IndexOk(Index(Some(u), n + 1), 2)
  {
    PutOk(Index(Some(t), n), it, 2);
  }

  lemma {:induction false} Find(s: seq<Item>, k: nat, p: nat)
    requires p <= |s| && (forall j :: 0 <= j < p ==> s[j].key <= k) && (p < |s| ==> k < s[p].key)
    ensures Upper(s, k) == p
  {
    UpperIs(s, k, p);
  }

  lemma {:induction false} LeafInsert(s: seq<Item>, it: Item)
    requires |s| < 3 && forall j :: 0 <= j < |s| ==> s[j].key < it.key
    ensures Wf(Node(s, []), 0, 2) && Insert(Node(s, []), it, 0, 2) == Outcome(Node(s + [it], []), None)
  {
    Find(s, it.key, |s|);
    assert s[..|s|] == s && s[|s|..] == [];
  }

  lemma {:induction false} Grown()
    ensures IndexOk(Index(Some(Node([It(10)], [])), 1), 2)
    ensures Put(Index(None, 0), It(10), 2).0 == Index(Some(Node([It(10)], [])), 1)
    ensures Put(Index(Some(Node([It(10)], [])), 1), It(20), 2).0 == Index(Some(Node([It(10), It(20)], [])), 2)
    ensures IndexOk(Index(Some(Node([It(10), It(20)], [])), 2), 2)
    ensures Put(Index(Some(Node([It(10), It(20)], [])), 2), It(30), 2).0 == Index(Some(Node([It(10), It(20), It(30)], [])), 3)
    ensures IndexOk(Index(Some(Node([It(10), It(20), It(30)], [])), 3), 2)
  {
    LeafInsert([It(10)], It(20));
    LeafInsert([It(10), It(20)], It(30));
    assert [It(10)] + [It(20)] == [It(10), It(20)] && [It(10), It(20)] + [It(30)] == [It(10), It(20), It(30)];
    PutOne(Node([It(10)], []), 1, It(20), Node([It(10), It(20)], []));
    PutOne(Node([It(10), It(20)], []), 2, It(30), Node([It(10), It(20), It(30)], []));
  }

  /** A root with one separator below which two leaves stand. */
  function Two(right: seq<Item>): Tree {
    Node([It(20)], [Node([It(10)], []), Node(right, [])])
  }

  lemma {:induction false} TwoWf(right: seq<Item>)
    requires 1 <= |right| <= 3
    ensures Wf(Two(right), 1, 2) && Depth(Two(right)) == 1
  {
    assert Wf(Node([It(10)], []), 0, 2) && Wf(Node(right, []), 0, 2);
  }

  lemma {:induction false} TwoInsert(right: seq<Item>, it: Item)
    requires 1 <= |right| < 3 && it.key > 20 && forall j :: 0 <= j < |right| ==> right[j].key < it.key
    ensures Wf(Two(right), 1, 2) && Insert(Two(right), it, 1, 2) == Outcome(Two(right + [it]), None)
  {
    TwoWf(right);
    Find([It(20)], it.key, 1);
    LeafInsert(right, it);
  }

  lemma {:induction false} Split()
    ensures RootSplitOf(Node([It(10), It(20), It(30)], [])) == Two([It(30)])
  {
    var s := [It(10), It(20), It(30)];
    assert s[..1] == [It(10)] && s[2..] == [It(30)];
  }

  function RootSplitOf(t: Tree): Tree
    requires Wf(t, Depth(t), 2)
  {
    RootSplit(t, 2)
  }

  lemma {:induction false} PutSplit(t: Tree, n: nat, it: Item, u: Tree, v: Tree)
    requires IndexOk(Index(Some(t), n), 2) && RootSplit(t, 2) == u && Wf(u, Depth(u), 2) && Insert(u, it, Depth(u), 2) == Outcome(v, None)
    ensures Put(Index(Some(t), n), it, 2) == (Index(Some(v), n + 1), None) && IndexOk(Index(Some(v), n + 1), 2)
  {
    PutOk(Index(Some(t), n), it, 2);
  }

  lemma {:induction false} GrownFour()
    ensures IndexOk(Index(Some(Node([It(10), It(20), It(30)], [])), 3), 2) && IndexOk(Index(Some(Two([It(30), It(40)])), 4), 2)
    ensures Put(Index(Some(Node([It(10), It(20), It(30)], [])), 3), It(40), 2).0 == Index(Some(Two([It(30), It(40)])), 4)
  {
    Grown();
    Split();
    TwoInsert([It(30)], It(40));
    TwoWf([It(30)]);
    assert [It(30)] + [It(40)] == [It(30), It(40)];
    hide IndexOk, Put, Insert, Two;
    PutSplit(Node([It(10), It(20), It(30)], []), 3, It(40), Two([It(30)]), Two([It(30), It(40)]));
  }

  lemma {:induction false} GrownFive()
    ensures IndexOk(Index(Some(Two([It(30), It(40)])), 4), 2) && IndexOk(Index(Some(Five()), 5), 2)
    ensures Put(Index(Some(Two([It(30), It(40)])), 4), It(50), 2).0 == Index(Some(Five()), 5)
  {
    GrownFour();
    TwoInsert([It(30), It(40)], It(50));
    TwoWf([It(30), It(40)]);
    assert [It(30), It(40)] + [It(50)] == [It(30), It(40), It(50)];
    assert Two([It(30), It(40), It(50)]) == Five();
    assert |Two([It(30), It(40)]).items| == 1;
    hide IndexOk, Put, Insert, Two, Five;
    PutOne(Two([It(30), It(40)]), 4, It(50), Five());
  }

  lemma {:induction false} Median()
    ensures IndexOk(Index(Some(Five()), 5), 2) && Replaces(Index(Some(Five()), 5), 40, 2)
  {
    GrownFive();
    var right := [It(30), It(40), It(50)];
    TwoWf(right);
    assert Five() == Two(right);
    Find([It(20)], 40, 1);
    SplitChildWf(Five(), 1, 1, 2);
    assert SplitChild(Five(), 1, 1, 2).items[1] == It(40);
  }

  const TENS: seq<Op> := [PutOp(0, It(10)), PutOp(0, It(20)), PutOp(0, It(30)), PutOp(0, It(40)), PutOp(0, It(50))]

  /** An empty tree of degree two, 10, 20, 30, 40 and 50 inserted, and then 40 with other records: the records first
      inserted under 40 are gone. */
  lemma {:induction false} MedianReplaced(vals: map<nat, ValueMap>, other: nat)
    ensures var w := World([Index(Some(Five()), 5)], vals);
            && WorldOk(w, 2)
            && Contents(w, 0, 40) == Some(ValueOf(vals, 40))
            && Contents(BTreeRuns.Step(w, PutOp(0, Item(40, other)), 2), 0, 40) == Some(ValueOf(vals, other))
  {
    Median();
    var w := World([Index(Some(Five()), 5)], vals);
    PutContents(w, 0, Item(40, other), 2);
    InOrderFive();
  }

  lemma {:induction false} InOrderFive()
    ensures ListGet(InOrder(Five()), 40) == Some(It(40))
  {
    var t := Five();
    assert t.children[1..] == [t.children[1]] && t.items[1..] == [] && [t.children[1]][1..] == [];
    assert Tail(t.items, [t.children[1]]) == [It(20)] + t.children[1].items + Tail([], []);
    assert InOrder(t) == [It(10), It(20), It(30), It(40), It(50)];
    AtPosition(InOrder(t), 3, It(40), false);
  }

  lemma {:induction false} StepPut(w: World, x: BTreeRuns.Index, it: Item, y: BTreeRuns.Index)
    requires w.trees == [x] && IndexOk(x, 2) && Put(x, it, 2).0 == y
    ensures WorldOk(w, 2) && BTreeRuns.Step(w, PutOp(0, it), 2).trees == [y]
  {
    hide Put, IndexOk;
  }

  lemma {:induction false} RunPut(w: World, it: Item, ops: seq<Op>)
    requires WorldOk(w, 2)
    ensures Run(w, [PutOp(0, it)] + ops, 2) == Run(BTreeRuns.Step(w, PutOp(0, it), 2), ops, 2)
  {
    hide BTreeRuns.Step, IndexOk;
    assert ([PutOp(0, it)] + ops)[1..] == ops;
  }

  /** And that tree is what the five insertions build. */
  lemma {:induction false} Built(vals: map<nat, ValueMap>)
    ensures WorldOk(World([Index(None, 0)], vals), 2)
    ensures Run(World([Index(None, 0)], vals), TENS, 2).trees == [Index(Some(Five()), 5)]
  {
    hide *;
    NoneOk();
    Grown();
    GrownFour();
    GrownFive();
    var w0 := World([Index(None, 0)], vals);
    StepPut(w0, Index(None, 0), It(10), Index(Some(Node([It(10)], [])), 1));
    var w1 := BTreeRuns.Step(w0, PutOp(0, It(10)), 2);
    StepPut(w1, w1.trees[0], It(20), Index(Some(Node([It(10), It(20)], [])), 2));
    var w2 := BTreeRuns.Step(w1, PutOp(0, It(20)), 2);
    StepPut(w2, w2.trees[0], It(30), Index(Some(Node([It(10), It(20), It(30)], [])), 3));
    var w3 := BTreeRuns.Step(w2, PutOp(0, It(30)), 2);
    StepPut(w3, w3.trees[0], It(40), Index(Some(Two([It(30), It(40)])), 4));
    var w4 := BTreeRuns.Step(w3, PutOp(0, It(40)), 2);
    StepPut(w4, w4.trees[0], It(50), Index(Some(Five()), 5));
    var w5 := BTreeRuns.Step(w4, PutOp(0, It(50)), 2);
    var r4 := [PutOp(0, It(50))] + [];
    var r3 := [PutOp(0, It(40))] + r4;
    var r2 := [PutOp(0, It(30))] + r3;
    var r1 := [PutOp(0, It(20))] + r2;
    Tens();
    RunPut(w0, It(10), r1);
    RunPut(w1, It(20), r2);
    RunPut(w2, It(30), r3);
    RunPut(w3, It(40), r4);
    RunPut(w4, It(50), []);
    RunNone(w5);
  }

  lemma {:induction false} Tens()
    ensures TENS == [PutOp(0, It(10))] + ([PutOp(0, It(20))] + ([PutOp(0, It(30))] + ([PutOp(0, It(40))] + ([PutOp(0, It(50))] + []))))
  {
  }

  lemma {:induction false} NoneOk()
    ensures IndexOk(Index(None, 0), 2)
  {
  }

  lemma {:induction false} RunNone(w: World)
    requires WorldOk(w, 2)
    ensures Run(w, [], 2) == w
  {
  }
}
