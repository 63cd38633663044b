/**
  Short runs of revocable transactions that go wrong: a record paid back twice, a record that outlives
  its own reversal, and records that stay in the time index.
 */
module RevertRuns {
  import opened Ledger
  import opened Options
  import opened Records
  import opened RevertIndex
  import opened Reverts
  import opened TimeIndex

  /** A record of five coins by account 1, created at time 7. */
  function Five(): Record {
    Record(1, "MAN", 7, Revocable, [Out(2, 5)])
  }

  const MADE: World := Create(NOTHING, 10, Five())

  lemma {:induction false} FiveOwes()
    ensures Total(Five().outs) == 5
  {
    assert Total([]) == 0 && [Out(2, 5)][..0] == [] && Total([Out(2, 5)]) == 5;
  }

  lemma {:induction false} MadeOk()
    ensures StoreOk(MADE) && WithdrawOk(MADE) && Agrees(MADE) && MADE.log == []
    ensures MADE.live == map[10 := Five()] && MADE.cache == map[10 := Five()] && MADE.trie == map[] && MADE.dirty == {10}
    ensures MADE.queue == [Queued(Revocable, 7, map[10 := Five()])] && MADE.revocable == EMPTY && MADE.block == 0
    ensures MADE.used == map[10 := Made(Five(), 0)]
  {
    NothingOwed();
    NothingHeld();
    CreateKeeps(NOTHING, 10, Five());
    CreateWithdraw(NOTHING, 10, Five());
    CreateAgrees(NOTHING, 10, Five());
    assert [] + [Queued(Revocable, 7, map[10 := Five()])] == [Queued(Revocable, 7, map[10 := Five()])];
    hide Apply, Aside, StoreOk, Exact;
  }

  lemma {:induction false} StaleTwice(w: World)
    requires Get(w, 10) == Some(Five()) && 10 in w.live
    ensures StaleSum(w, [10, 10], 1, "MAN") == 5
  {
    FiveOwes();
    assert Effective(w, 10, 1, "MAN");
    hide Get, Effective;
    assert [10, 10][..1] == [10] && [10][..0] == [];
    assert StaleSum(w, [], 1, "MAN") == 0;
    assert StaleSum(w, [10], 1, "MAN") == 0;
  }

  /** What a revert that is not fresh does to balances and log. */
  lemma {:induction false} Overpays(w: World, hs: seq<Hash>, from: Addr, coin: Coin, order: seq<nat>)
    requires hs != [] && StoreOk(w) && WithdrawOk(w) && OnceOk(w) && !Fresh(w, hs, from, coin)
    ensures var v := Revert(w, hs, from, coin, order);
            Bal(v.balances, Key(coin, Withdraw, from)) == Owed(v.live, coin, from) - StaleSum(w, hs, from, coin) && !OnceOk(v)
  {
    hide Bal, Owed, RevertAll, StaleSum, Revert, StoreOk, Fresh;
    RevertIs(w, hs, from, coin, order);
    RevertGap(w, hs, from, coin, coin, from);
    RevertOnce(w, hs, from, coin);
  }

  lemma {:induction false} NotFresh(w: World, hs: seq<Hash>, from: Addr, coin: Coin, i: nat)
    requires i < |hs| && Effective(w, hs[i], from, coin) && (hs[i] !in w.live || hs[i] in hs[..i])
    ensures !Fresh(w, hs, from, coin)
  {
  }

  lemma {:induction false} Effects(w: World)
    requires Get(w, 10) == Some(Five())
    ensures Effective(w, 10, 1, "MAN")
  {
  }

  /** Named twice in one revert, the record is paid back twice: the Withdraw balance is five below what is owed. */
  lemma {:induction false} PaidTwice(order: seq<nat>)
    ensures var v := Revert(MADE, [10, 10], 1, "MAN", order);
            Bal(v.balances, Key("MAN", Withdraw, 1)) == Owed(v.live, "MAN", 1) - 5 && !OnceOk(v)
  {
    MadeOk();
    var w := MADE;
    assert Get(w, 10) == Some(Five()) && OnceOk(w);
    hide *;
    StaleTwice(w);
    Effects(w);
    assert [10, 10][1] in [10, 10][..1];
    NotFresh(w, [10, 10], 1, "MAN", 1);
    Overpays(w, [10, 10], 1, "MAN", order);
  }

  // ----- Made and reverted in one block -----

  /** The record is reverted in the block that made it; time 7 is not in the index yet and is passed over. */
  const UNMADE: World := Revert(MADE, [10], 1, "MAN", [7])

  const NEXT: World := EndBlock(UNMADE)

  lemma {:induction false} UnmadeIs()
    ensures StoreOk(UNMADE) && WithdrawOk(UNMADE) && UNMADE.live == map[] && UNMADE.cache == map[10 := Five()] && UNMADE.dirty == {10}
    ensures UNMADE.trie == map[] && UNMADE.block == 0 && UNMADE.used == MADE.used
    ensures UNMADE.log == [Reversal(10, Five(), 1, "MAN", 0)]
    ensures UNMADE.queue == MADE.queue && UNMADE.revocable == EMPTY
  {
    MadeOk();
    NothingHeld();
    var u := RevertOne(MADE, 10, 1, "MAN");
    assert [10][..0] == [] && RevertAll(MADE, [], 1, "MAN") == MADE && RevertAll(MADE, [10], 1, "MAN") == u;
    assert [7][..0] == [] && TakeOutAll(u, [], 10) == u && UNMADE == TakeOut(u, 7, 10) == u;
    RevertIs(MADE, [10], 1, "MAN", [7]);
    assert Effective(MADE, 10, 1, "MAN") && Fresh(MADE, [10], 1, "MAN");
    RevertIff(MADE, [10], 1, "MAN", [7]);
    FreshPays(MADE, [10], 1, "MAN");
    hide Apply, Back, StoreOk, WithdrawOk, Revert;
  }

  lemma {:induction false} FlushOne(t: TimeTree, x: Queued)
    requires x.kind == Revocable && x.data != map[]
    ensures Flush(t, [x], Revocable) == Enter(t, x.time, x.data)
  {
    hide Enter;
    assert [x][..0] == [] && Flush(t, [], Revocable) == t;
  }

  lemma {:induction false} OneEntered(x: Queued)
    requires x == Queued(Revocable, 7, map[10 := Five()])
    ensures Contents(Flush(EMPTY, [x], Revocable)) == map[7 := map[10 := Five()]]
  {
    assert 10 in x.data;
    NothingHeld();
    FlushOne(EMPTY, x);
    EnterContents(EMPTY, 7, x.data);
    hide Enter, Contents, Flush;
  }

  lemma {:induction false} EndFlushes(w: World)
    ensures EndBlock(w).revocable == Flush(w.revocable, w.queue, Revocable)
  {
    hide Flush;
  }

  lemma {:induction false} NextIs()
    ensures StoreOk(NEXT) && WithdrawOk(NEXT) && NEXT.live == map[] && NEXT.cache == map[] && NEXT.trie == map[10 := Five()] && NEXT.log == UNMADE.log
    ensures Contents(NEXT.revocable) == map[7 := map[10 := Five()]]
  {
    UnmadeIs();
    MadeOk();
    var w := UNMADE;
    assert NEXT == EndBlock(w);
    hide *;
    NextOf(w);
  }

  lemma {:induction false} NextOf(w: World)
    requires StoreOk(w) && WithdrawOk(w) && w.trie == map[] && w.cache == map[10 := Five()] && w.dirty == {10} && w.live == map[]
    requires w.queue == [Queued(Revocable, 7, map[10 := Five()])] && w.revocable == EMPTY
    ensures var v := EndBlock(w);
            && StoreOk(v) && WithdrawOk(v) && v.live == map[] && v.cache == map[] && v.trie == map[10 := Five()] && v.log == w.log
            && Contents(v.revocable) == map[7 := map[10 := Five()]]
  {
    assert w.trie + Written(w.cache, w.dirty) == map[10 := Five()];
    hide StoreOk, Enter, Contents, Flush, EndBlock, Written;
    EndKeeps(w);
    EndIs(w);
    EndFlushes(w);
    OneEntered(Queued(Revocable, 7, map[10 := Five()]));
  }

  /** A record made and reverted in one block is written when the block ends. The next block gives it back again, so
      that five more come out of the Withdraw account than ever went in, although the first revert was fresh and the
      second names one hash once; and the time index has it, although it is not live. */
  lemma {:induction false} PaidAgain(order: seq<nat>)
    ensures Fresh(MADE, [10], 1, "MAN") && WithdrawOk(NEXT) && Get(NEXT, 10) == Some(Five()) && 10 in Reverted(NEXT.log)
    ensures At(Contents(NEXT.revocable), 7, 10) == Some(Five()) && 10 !in NEXT.live
    ensures var v := Revert(NEXT, [10], 1, "MAN", order);
            Bal(v.balances, Key("MAN", Withdraw, 1)) == Owed(v.live, "MAN", 1) - 5 && !OnceOk(v)
  {
    MadeOk();
    UnmadeIs();
    NextIs();
    assert Fresh(MADE, [10], 1, "MAN");
    var w := NEXT;
    assert Get(w, 10) == Some(Five()) && w.log[0].hash == 10 && OnceOk(w);
    StaleOnce(w);
    hide Get, Bal, Owed, StaleSum, Revert, StoreOk, Fresh, Contents, WithdrawOk, OnceOk;
    Effects(w);
    NotFresh(w, [10], 1, "MAN", 0);
    Overpays(w, [10], 1, "MAN", order);
  }

  lemma {:induction false} StaleOnce(w: World)
    requires Get(w, 10) == Some(Five()) && 10 !in w.live
    ensures StaleSum(w, [10], 1, "MAN") == 5
  {
    FiveOwes();
    Effects(w);
    hide Get, Effective;
    assert [10][..0] == [] && StaleSum(w, [], 1, "MAN") == 0;
  }

  // ----- Two records of one time -----

  const TWO: World := Create(MADE, 11, Five())

  const BOTH: World := EndBlock(TWO)

  lemma {:induction false} TwoIs()
    ensures StoreOk(TWO) && Agrees(TWO) && TWO.revocable == EMPTY && TWO.live == map[10 := Five(), 11 := Five()]
    ensures TWO.queue == [Queued(Revocable, 7, map[10 := Five()]), Queued(Revocable, 7, map[11 := Five()])]
  {
    MadeOk();
    CreateKeeps(MADE, 11, Five());
    CreateAgrees(MADE, 11, Five());
    CreateQueues(MADE, 11, Five());
    hide Create, StoreOk, Exact;
  }

  /** A leaf of one item is not full, so nothing is overwritten there. */
  lemma {:induction false} OneLeaf(data: Live)
    ensures !Overwrites(Enter(EMPTY, 7, data), 7)
  {
  }

  lemma {:induction false} TwoMerge(x: Queued, y: Queued)
    requires x == Queued(Revocable, 7, map[10 := Five()]) && y == Queued(Revocable, 7, map[11 := Five()])
    ensures Merges(EMPTY, [x, y])
  {
    OneLeaf(x.data);
    NothingHeld();
    EnterContents(EMPTY, 7, x.data);
    assert 10 in x.data;
    FlushOne(EMPTY, x);
    hide Enter, Contents, Overwrites;
    assert [x, y][..1] == [x] && [x][..0] == [] && Flush(EMPTY, [], Revocable) == EMPTY;
    assert Merges(EMPTY, []);
    assert Merges(EMPTY, [x]);
  }

  lemma {:induction false} BothIs()
    ensures StoreOk(BOTH) && Agrees(BOTH) && BOTH.queue == [] && BOTH.live == TWO.live && BOTH.log == TWO.log
  {
    TwoIs();
    var w := TWO;
    TwoMerge(w.queue[0], w.queue[1]);
    assert w.queue == [w.queue[0], w.queue[1]];
    assert BOTH == EndBlock(w);
    EndKeeps(w);
    EndAgrees(w);
    hide StoreOk, Exact, Merges, Flush, Create;
  }

  /** A time that is taken out is not there to be overwritten when its rest is put back. */
  lemma {:induction false} CleanAlone(w: World, time: nat, x: Hash)
    requires w.queue == []
    ensures CleanOut(w, time, x) && Clean(w, [time], x)
  {
    if time in Contents(w.revocable) {
      var e := Rest(w.revocable, time, x);
      EraseContents(w.revocable, time);
      EnterContents(Erase(w.revocable, time), time, e.data);
      hide Contents, Erase, Enter, Overwrites;
      assert w.queue + [e] == [e] && [e][..0] == [] && Flush(Erase(w.revocable, time), [], Revocable) == Erase(w.revocable, time);
      assert Merges(Erase(w.revocable, time), []);
    }
    hide CleanOut;
    assert [time][..0] == [] && TakeOutAll(w, [], x) == w && Clean(w, [], x);
  }

  /** Two records of one time reverted together in a later block: the first is given back and stays in the index. */
  lemma {:induction false} StaysIndexed()
    ensures Agrees(BOTH) && Fresh(BOTH, [10, 11], 1, "MAN")
    ensures var v := Revert(BOTH, [10, 11], 1, "MAN", [7]);
            !Agrees(v) && 10 !in v.live && Held(v.revocable, v.queue, 7, 10) == Some(Five())
  {
    TwoIs();
    BothIs();
    var w := BOTH;
    assert w.live == map[10 := Five(), 11 := Five()] && w.queue == [];
    hide *;
    StaysIn(w);
  }

  lemma {:induction false} StaysIn(w: World)
    requires StoreOk(w) && Agrees(w) && w.queue == [] && w.live == map[10 := Five(), 11 := Five()]
    ensures Fresh(w, [10, 11], 1, "MAN")
    ensures var v := Revert(w, [10, 11], 1, "MAN", [7]);
            !Agrees(v) && 10 !in v.live && Held(v.revocable, v.queue, 7, 10) == Some(Five())
  {
    var hs := [10, 11];
    FreshBoth(w);
    assert Held(w.revocable, w.queue, 7, 10) == Due(w.live, 7, 10) == Some(Five());
    hide StoreOk, Fresh, RevertAll, TakeOutAll, Clean, Get, Effective, Taken, Held, Once, Full, CleanOut;
    var u := RevertAll(w, hs, 1, "MAN");
    SameQueue(w, hs, 1, "MAN");
    CleanAlone(u, 7, 11);
    RevertLive(w, hs, 1, "MAN", 10);
    RevertIs(w, hs, 1, "MAN", [7]);
    StaysHeld(w, hs, 1, "MAN", [7], 10);
    TakeAllHeld(u, [7], 11, 7, 10);
  }

  lemma {:induction false} FreshBoth(w: World)
    requires StoreOk(w) && w.live == map[10 := Five(), 11 := Five()]
    ensures Fresh(w, [10, 11], 1, "MAN") && Taken(w, [10, 11], 1, "MAN", 10)
  {
    LiveEffective(w, 10);
    var hs := [10, 11];
    assert hs[..0] == [] && hs[..1] == [10] && hs[0] in hs;
    hide StoreOk, Effective, Get;
  }

  lemma {:induction false} LiveEffective(w: World, h: Hash)
    requires StoreOk(w) && h in w.live && w.live[h] == Five()
    ensures Effective(w, h, 1, "MAN")
  {
  }
}
