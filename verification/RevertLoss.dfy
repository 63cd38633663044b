/**
  A commit that loses a record: five records under the times 10 to 50, and a sixth that waits for time
  40, which is the median of a full node.
 */
module RevertLoss {
  import opened BTreeMedian
  import BTreeRuns
  import opened BTreeSpec
  import opened Options
  import opened Records
  import opened RevertIndex
  import opened Reverts
  import opened TimeIndex

  function OfTime(t: nat): Record {
    Record(1, "MAN", t, Revocable, [Out(2, 5)])
  }

  const TIMES: set<nat> := {10, 20, 30, 40, 50}

  function FiveVals(): map<nat, Live> {
    map t | t in TIMES :: map[t := OfTime(t)]
  }

  function FiveTimes(): RawTree {
    RawTree(BTreeRuns.Index(Some(Five()), 5), FiveVals(), 51)
  }

  lemma {:induction false} FiveRefs()
    ensures TreeValid(FiveTimes()) && Refs(FiveTimes()) == map t | t in TIMES :: t
  {
    Median();
    var t := Five();
    assert t.children[1..] == [t.children[1]] && t.items[1..] == [] && [t.children[1]][1..] == [];
    assert Tail(t.items, [t.children[1]]) == [It(20)] + t.children[1].items + Tail([], []);
    assert InOrder(t) == [It(10), It(20), It(30), It(40), It(50)];
    RefsAre(InOrder(t));
  }

  lemma {:induction false} RefsAre(s: seq<Item>)
    requires s == [It(10), It(20), It(30), It(40), It(50)]
    ensures BTreeRuns.AsMap(s) == map t | t in TIMES :: t
  {
    var s1, s2, s3, s4 := [It(20), It(30), It(40), It(50)], [It(30), It(40), It(50)], [It(40), It(50)], [It(50)];
    assert s[1..] == s1 && s1[1..] == s2 && s2[1..] == s3 && s3[1..] == s4 && s4[1..] == [];
    assert BTreeRuns.AsMap(s4) == map[50 := 50];
    assert BTreeRuns.AsMap(s3) == map[50 := 50][40 := 40];
    assert BTreeRuns.AsMap(s2) == map[50 := 50][40 := 40][30 := 30];
    assert BTreeRuns.AsMap(s1) == map[50 := 50][40 := 40][30 := 30][20 := 20];
  }

  /** The tree as an index of times. */
  function Tree5(): TimeTree {
    FiveRefs();
    FiveTimes()
  }

  lemma {:induction false} FiveAt(t: nat, h: Hash)
    ensures At(Contents(Tree5()), t, h) == if t in TIMES && h == t then Some(OfTime(t)) else None
    ensures Contents(Tree5()) == map t | t in TIMES :: map[t := OfTime(t)]
  {
    FiveRefs();
    hide TreeValid, Refs;
    assert forall k | k in TIMES :: ValueOf(FiveVals(), k) == map[k := OfTime(k)];
  }

  /** The records: one under each time, and a sixth. */
  function Six(): Live {
    map h | h in TIMES + {60} :: OfTime(if h == 60 then 40 else h)
  }

  function Sixth(): seq<Queued> {
    [Queued(Revocable, 40, map[60 := OfTime(40)])]
  }

  lemma {:induction false} SixthWaits(t: nat, h: Hash)
    ensures Waiting(Sixth(), t, h) == if t == 40 && h == 60 then Some(OfTime(40)) else None
  {
    assert Sixth()[..0] == [];
    assert Waiting([], t, h) == None;
  }

  lemma {:induction false} SixHeld()
    ensures Exact(Tree5(), Sixth(), Six())
  {
    FiveAt(0, 0);
    var tree := Tree5();
    assert Full(Contents(tree)) by {
      forall t | t in TIMES ensures Contents(tree)[t] != map[] {
        assert t in Contents(tree)[t];
      }
    }
    hide Contents, Tree5, TreeValid;
    assert Once(tree, Sixth()) by {
      assert Sixth()[..0] == [];
      FiveAt(40, 60);
      assert Waiting([], 40, 60) == None;
      assert Once(tree, []);
    }
    forall t: nat, h: Hash ensures Held(tree, Sixth(), t, h) == Due(Six(), t, h) {
      SixthWaits(t, h);
      FiveAt(t, h);
    }
  }

  /** Index and queue hold the six records exactly; committing the queue loses the record first held for time 40. */
  lemma {:induction false} RecordLost()
    ensures Exact(Tree5(), Sixth(), Six()) && !Merges(Tree5(), Sixth())
    ensures 40 in Six() && At(Contents(Flush(Tree5(), Sixth(), Revocable)), 40, 40) == None
  {
    hide Tree5, TreeValid, Contents, Overwrites, Exact, Enter;
    SixHeld();
    MedianHit();
    var tree, q := Tree5(), Sixth();
    var data: Live := map[60 := OfTime(40)];
    assert q == [Queued(Revocable, 40, data)] && 60 in data && q[..0] == [];
    assert Flush(tree, [], Revocable) == tree;
    assert Flush(tree, q, Revocable) == Enter(tree, 40, data);
    EnterContents(tree, 40, data);
    EnteredAt(Contents(tree), 40, data, true, 40, 40);
  }

  lemma {:induction false} MedianHit()
    ensures Overwrites(Tree5(), 40)
  {
    Median();
    FiveRefs();
    hide BTreeRuns.Replaces, TreeValid, Refs;
  }
}
