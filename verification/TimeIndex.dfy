/**
  The time index of recorded transactions: a B-tree of degree two from creation times to the records
  of that time, and the map of maps it stands for.
 */
module TimeIndex {
  import opened BTreeSpec
  import opened BTreeRuns
  import opened Options
  import opened Records

  /** Records by creation time. */
  type Times = map<nat, Live>

  const DEGREE := 2

  /** A tree, the value maps its entries refer to, and a reference not yet used. */
  datatype RawTree = RawTree(tree: BTreeRuns.Index, vals: map<nat, Live>, unused: nat)

  /** Which value map a time leads to. */
  function Refs(t: RawTree): map<nat, nat> {
    AsMap(Entries(t.tree))
  }

  /** No two entries share a value map, and one reference is unused. */
  ghost predicate Apart(refs: map<nat, nat>, unused: nat) {
    && (forall k <- refs :: refs[k] < unused)
    && (forall j <- refs, k <- refs :: j != k ==> refs[j] != refs[k])
  }

  ghost predicate TreeValid(t: RawTree) {
    IndexOk(t.tree, DEGREE) && Apart(Refs(t), t.unused)
  }

  const EMPTY := RawTree(BTreeRuns.Index(None, 0), map[], 0)

  type TimeTree = t: RawTree | TreeValid(t) witness EMPTY

  function Look(refs: map<nat, nat>, vals: map<nat, Live>): Times {
    map k | k in refs :: ValueOf(vals, refs[k])
  }

  /** The records of each time. */
  function Contents(t: TimeTree): Times {
    Look(Refs(t), t.vals)
  }

  /** Does an insertion at this time throw away the records that are there? */
  predicate Overwrites(t: TimeTree, time: nat) {
    time in Refs(t) && Replaces(t.tree, time, DEGREE)
  }

  lemma {:induction false} LookNew(refs: map<nat, nat>, vals: map<nat, Live>, unused: nat, time: nat, data: Live)
    requires Apart(refs, unused)
    ensures Apart(refs[time := unused], unused + 1)
    ensures Look(refs[time := unused], vals[unused := data]) == Look(refs, vals)[time := data]
  {
  }

  lemma {:induction false} LookMerged(refs: map<nat, nat>, vals: map<nat, Live>, unused: nat, time: nat, data: Live)
    requires Apart(refs, unused) && time in refs
    ensures Apart(refs, unused + 1)
    ensures Look(refs, Merge(vals[unused := data], refs[time], unused)) == Look(refs, vals)[time := Look(refs, vals)[time] + data]
  {
  }

  function AfterPut(t: TimeTree, time: nat, data: Live): World {
    BTreeRuns.Step(World([t.tree], t.vals[t.unused := data]), PutOp(0, Item(time, t.unused)), DEGREE)
  }

  lemma {:induction false} AfterPutIs(t: TimeTree, time: nat, data: Live)
    ensures var w, merges := AfterPut(t, time, data), time in Refs(t) && !Overwrites(t, time);
            && |w.trees| == 1 && IndexOk(w.trees[0], DEGREE)
            && AsMap(Entries(w.trees[0])) == (if merges then Refs(t) else Refs(t)[time := t.unused])
            && w.vals == (if merges then Merge(t.vals[t.unused := data], Refs(t)[time], t.unused) else t.vals[t.unused := data])
  {
    PutIsMap(t.tree, Item(time, t.unused), DEGREE);
    hide Put, AsMap, Replaces, IndexOk, Entries, Merge;
  }

  /** `ReplaceOrInsert` of a new value map. */
  function Enter(t: TimeTree, time: nat, data: Live): TimeTree {
    var w := AfterPut(t, time, data);
    AfterPutIs(t, time, data);
    EnterValid(t, time, data);
    RawTree(w.trees[0], w.vals, t.unused + 1)
  }

  lemma {:induction false} EnterValid(t: TimeTree, time: nat, data: Live)
    ensures var w := AfterPut(t, time, data);
            |w.trees| == 1 && TreeValid(RawTree(w.trees[0], w.vals, t.unused + 1))
  {
    AfterPutIs(t, time, data);
    hide AfterPut, IndexOk, AsMap, Overwrites, Entries;
    LookNew(Refs(t), t.vals, t.unused, time, data);
    if time in Refs(t) {
      LookMerged(Refs(t), t.vals, t.unused, time, data);
    }
  }

  /** Records added to those of the same time, or put in their place. */
  function Entered(was: Times, time: nat, data: Live, lost: bool): Times {
    was[time := if time in was && !lost then was[time] + data else data]
  }

  /** Insertion adds the records to those of the same time, except where it overwrites them. */
  lemma {:induction false} EnterContents(t: TimeTree, time: nat, data: Live)
    ensures Contents(Enter(t, time, data)) == Entered(Contents(t), time, data, Overwrites(t, time))
    ensures Overwrites(t, time) ==> time in Contents(t)
  {
    AfterPutIs(t, time, data);
    assert Apart(Refs(t), t.unused);
    hide AfterPut, IndexOk, AsMap, Overwrites, Entries, TreeValid, Merge, Apart;
    LookNew(Refs(t), t.vals, t.unused, time, data);
    if time in Refs(t) {
      LookMerged(Refs(t), t.vals, t.unused, time, data);
    }
  }

  function AfterDrop(t: TimeTree, time: nat): World {
    BTreeRuns.Step(World([t.tree], t.vals), DropOp(0, time, RemoveItem), DEGREE)
  }

  lemma {:induction false} AfterDropIs(t: TimeTree, time: nat)
    ensures var w := AfterDrop(t, time);
            && |w.trees| == 1 && IndexOk(w.trees[0], DEGREE) && w.vals == t.vals
            && AsMap(Entries(w.trees[0])) == Refs(t) - {time}
  {
    DropIsMap(t.tree, time, RemoveItem, DEGREE);
    hide Drop, AsMap, IndexOk, Entries;
  }

  /** `Delete` of a time. */
  function Erase(t: TimeTree, time: nat): TimeTree {
    var w := AfterDrop(t, time);
    AfterDropIs(t, time);
    EraseValid(t, time);
    RawTree(w.trees[0], w.vals, t.unused)
  }

  lemma {:induction false} EraseValid(t: TimeTree, time: nat)
    ensures var w := AfterDrop(t, time);
            |w.trees| == 1 && TreeValid(RawTree(w.trees[0], w.vals, t.unused))
  {
    AfterDropIs(t, time);
    hide AfterDrop, IndexOk, AsMap, Entries;
  }

  lemma {:induction false} EraseContents(t: TimeTree, time: nat)
    ensures Contents(Erase(t, time)) == Contents(t) - {time}
  {
    AfterDropIs(t, time);
    hide AfterDrop, IndexOk, AsMap, Entries, TreeValid;
  }
}
