/**
  When a record that was reverted can be given back once more, at any moment and in terms of the
  blocks alone: the block that made it and the blocks that reverted it.
 */
module RevertTimes {
  import opened Ledger
  import opened Options
  import opened Records
  import opened Reverts

  /** The hashes that were reverted in a block. */
  ghost function RevertedIn(log: seq<Reversal>, block: nat): set<Hash> {
    set i | 0 <= i < |log| && log[i].block == block :: log[i].hash
  }

  /** The read cache holds what was reverted in this block, and nothing else that was reverted after the block that
      made it. */
  ghost predicate Recent(cache: Live, log: seq<Reversal>, used: map<Hash, Made>, block: nat) {
    && (forall h <- RevertedIn(log, block) :: h in cache)
    && (forall h <- RevertedLater(log, used) :: h in cache ==> h in RevertedIn(log, block))
  }

  ghost predicate RecentOk(w: World) {
    Recent(w.cache, w.log, w.used, w.block)
  }

  lemma {:induction false} InMore(log: seq<Reversal>, x: Reversal, block: nat)
    ensures RevertedIn(log + [x], block) == RevertedIn(log, block) + if x.block == block then {x.hash} else {}
  {
    var more := log + [x];
    assert forall i | 0 <= i < |log| :: more[i] == log[i];
    forall h | h in RevertedIn(log, block) ensures h in RevertedIn(more, block) {
      var i :| 0 <= i < |log| && log[i].block == block && log[i].hash == h;
      assert more[i].hash == h && more[i].block == block;
    }
    if x.block == block {
      assert more[|log|] == x;
    }
  }

  /** At any moment a record that was reverted can be given back again if and only if it was reverted in this block, or
      in no block but the one that made it. */
  lemma {:induction false} PayableAgain(w: World, h: Hash)
    requires StoreOk(w) && RecentOk(w) && h in Reverted(w.log)
    ensures Get(w, h).Some? <==> h in RevertedIn(w.log, w.block) || h !in RevertedLater(w.log, w.used)
    ensures Get(w, h).Some? <==> h in w.cache || h !in RevertedLater(w.log, w.used)
  {
    var i :| 0 <= i < |w.log| && w.log[i].hash == h;
    assert Rightful(w.log[i], w.used, w.block);
    hide Reverted, RevertedLater, RevertedIn, LiveOk;
    if h !in RevertedLater(w.log, w.used) && w.used[h].block == w.block {
      assert h in w.dirty;
    }
  }

  // ----- Every step keeps it -----

  lemma {:induction false} OneRecent(w: World, h: Hash, from: Addr, coin: Coin)
    requires StoreOk(w) && RecentOk(w)
    ensures RecentOk(RevertOne(w, h, from, coin))
  {
    hide Apply, Back, LiveOk, LogOk, CacheOk, Reverted, RevertedLater, RevertedIn;
    var g := Get(w, h);
    if h != NO_HASH && g.Some? && Effective(w, h, from, coin) {
      var x := Reversal(h, g.value, from, coin, w.block);
      LogMore(w.log, x, w.used);
      InMore(w.log, x, w.block);
    }
  }

  lemma {:induction false} AllRecent(w: World, hs: seq<Hash>, from: Addr, coin: Coin)
    requires StoreOk(w) && RecentOk(w)
    ensures RecentOk(RevertAll(w, hs, from, coin))
    decreases |hs|
  {
    hide StoreOk, RecentOk, RevertOne;
    if hs != [] {
      var n := |hs| - 1;
      AllRecent(w, hs[..n], from, coin);
      RevertStore(w, hs[..n], from, coin);
      OneRecent(RevertAll(w, hs[..n], from, coin), hs[n], from, coin);
    }
  }

  lemma {:induction false} MadeRecent(w: World, h: Hash, r: Record)
    requires StoreOk(w) && RecentOk(w) && h !in w.used
    ensures RecentOk(Create(w, h, r))
  {
    NotReverted(w.log, w.used, w.block, h, Made(r, w.block));
    assert h !in RevertedLater(w.log, w.used) by { hide *; NeverLater(w.log, w.used, h); }
    hide Apply, Aside, TrieOk, CacheOk, LiveOk, LogOk, RevertedLater, RevertedIn, Reverted;
  }

  lemma {:induction false} NeverLater(log: seq<Reversal>, used: map<Hash, Made>, h: Hash)
    requires h !in used
    ensures h !in RevertedLater(log, used)
  {
  }

  lemma {:induction false} EndRecent(w: World)
    requires StoreOk(w)
    ensures RecentOk(EndBlock(w))
  {
    EndKeeps(w);
    EndIs(w);
    assert RevertedIn(w.log, w.block + 1) == {} by {
      hide EndBlock, TrieOk, CacheOk, LiveOk;
      assert forall i | 0 <= i < |w.log| :: Rightful(w.log[i], w.used, w.block);
    }
    hide EndBlock, StoreOk, RevertedIn, RevertedLater;
  }

  lemma {:induction false} StepRecent(w: World, e: Event)
    requires StoreOk(w) && Possible(w, e) && RecentOk(w)
    ensures RecentOk(Step(w, e))
  {
    hide Create, EndBlock, RevertAll, TakeOutAll, Apply, StoreOk, Recent;
    match e
    case Created(h, r) => MadeRecent(w, h, r);
    case Reverting(hs, from, coin, order) =>
      if hs != [] {
        AllRecent(w, hs, from, coin);
        TakeOutStore(RevertAll(w, hs, from, coin), order, hs[|hs| - 1]);
      }
    case Moved(ds) =>
    case BlockEnd => EndRecent(w);
  }

  // ----- Reverts and runs in these terms -----

  /** The sender may revert the record: it is the sender's, revocable, and in the coin. */
  ghost predicate Callable(w: World, h: Hash, from: Addr, coin: Coin) {
    h in w.used && var r := w.used[h].record; r.from == from && r.coin == coin && r.kind == Revocable
  }

  /** Reverted in this block, or in no block but the one that made it. */
  ghost predicate Again(w: World, h: Hash) {
    h in Reverted(w.log) && (h in RevertedIn(w.log, w.block) || h !in RevertedLater(w.log, w.used))
  }

  /** Of the records that the sender may revert, none that could be given back again is named, and none twice unless it
      can no longer be given back. */
  ghost predicate Careful(w: World, hs: seq<Hash>, from: Addr, coin: Coin) {
    forall i :: 0 <= i < |hs| && Callable(w, hs[i], from, coin) ==> !Again(w, hs[i]) && (hs[i] in hs[..i] ==> hs[i] in Reverted(w.log))
  }

  /** A hash takes effect if and only if the sender may revert it and it was not reverted, or can be given back again. */
  lemma {:induction false} EffectiveIff(w: World, h: Hash, from: Addr, coin: Coin)
    requires StoreOk(w) && RecentOk(w)
    ensures Effective(w, h, from, coin) <==> Callable(w, h, from, coin) && (h in Reverted(w.log) ==> Again(w, h))
    ensures h in w.live <==> h in w.used && h !in Reverted(w.log)
  {
    if Effective(w, h, from, coin) {
      EffectiveUsed(w, h, from, coin);
    }
    if h in Reverted(w.log) {
      PayableAgain(w, h);
    } else if Callable(w, h, from, coin) {
      Unreverted(w, h);
    }
    if Get(w, h).Some? {
      Answered(w, h);
    }
    hide TrieOk, CacheOk, Reverted, RevertedLater, RevertedIn, Recent;
  }

  lemma {:induction false} Answered(w: World, h: Hash)
    requires StoreOk(w) && Get(w, h).Some?
    ensures h in w.used && Get(w, h).value == w.used[h].record && h != NO_HASH
  {
  }

  lemma {:induction false} Unreverted(w: World, h: Hash)
    requires StoreOk(w) && h in w.used && w.used[h].record.kind == Revocable && h !in Reverted(w.log)
    ensures Get(w, h).Some?
  {
    if w.used[h].block == w.block {
      assert h in w.dirty;
    } else {
      assert MadeBefore(w.used, h, w.block);
    }
  }

  lemma {:induction false} FreshIff(w: World, hs: seq<Hash>, from: Addr, coin: Coin)
    requires StoreOk(w) && RecentOk(w)
    ensures Fresh(w, hs, from, coin) <==> Careful(w, hs, from, coin)
  {
    forall h ensures Effective(w, h, from, coin) <==> Callable(w, h, from, coin) && (h in Reverted(w.log) ==> Again(w, h))
      ensures h in w.live <==> h in w.used && h !in Reverted(w.log)
    {
      EffectiveIff(w, h, from, coin);
    }
    hide StoreOk, RecentOk, Effective, Reverted;
  }

  ghost predicate CarefulStep(w: World, e: Event) {
    e.Reverting? ==> Careful(w, e.hashes, e.from, e.coin)
  }

  ghost predicate AllCareful(es: seq<Event>)
    decreases |es|
  {
    es != [] ==> var n := |es| - 1; AllCareful(es[..n]) && CarefulStep(Run(NOTHING, es[..n]), es[n])
  }

  lemma {:induction false} RunRecent(es: seq<Event>)
    requires AllPossible(es)
    ensures StoreOk(Run(NOTHING, es)) && RecentOk(Run(NOTHING, es))
    decreases |es|
  {
    RunKeeps(es, "", 0);
    hide StoreOk, RecentOk, Step, Possible;
    if es == [] {
      NothingRecent();
    } else {
      var n := |es| - 1;
      RunRecent(es[..n]);
      StepRecent(Run(NOTHING, es[..n]), es[n]);
    }
  }

  lemma {:induction false} NothingRecent()
    ensures RecentOk(NOTHING)
  {
  }

  lemma {:induction false} CarefulIsFresh(es: seq<Event>)
    requires AllPossible(es)
    ensures AllCareful(es) <==> AllFresh(es)
    decreases |es|
  {
    if es != [] {
      var n := |es| - 1;
      CarefulIsFresh(es[..n]);
      RunRecent(es[..n]);
      hide StoreOk, RecentOk, Step, Fresh, Careful, Run;
      if es[n].Reverting? {
        FreshIff(Run(NOTHING, es[..n]), es[n].hashes, es[n].from, es[n].coin);
      }
    }
  }

  /** Over all runs no record is given back twice, if and only if no revert names a record of its sender that was reverted
      in that block or in no block but the one that made it, or names one twice. */
  lemma {:induction false} OnceIff(es: seq<Event>)
    requires AllPossible(es)
    ensures OnceOk(Run(NOTHING, es)) <==> AllCareful(es)
  {
    RunOnce(es);
    CarefulIsFresh(es);
  }
}
