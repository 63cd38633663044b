/**
  Runs of revocable, timed and revert transactions: what the Withdraw sub-accounts hold, and which
  records can be reverted, again and again or not at all. Data written in a block reaches the trie and
  the time index when the block ends; a deletion reaches the trie at once and the read cache never.
 */
module Reverts {
  import opened Ledger
  import opened Options
  import opened Records
  import opened TimeIndex

  /** A record on its way into a time index. */
  datatype Queued = Queued(kind: Kind, time: nat, data: Live)

  /** A record that was made, and in which block. */
  datatype Made = Made(record: Record, block: nat)

  /** One record given back: who asked, in which coin and in which block. */
  datatype Reversal = Reversal(hash: Hash, record: Record, who: Addr, coin: Coin, block: nat)

  /** Balances; the block being run; the data store as its trie, its read cache and the hashes written in this
      block; the queue of index entries and the two time indexes; and for the record all records ever made,
      the live ones, and what was reverted. */
  datatype World = World(balances: Balances, block: nat, trie: Live, cache: Live, dirty: set<Hash>, queue: seq<Queued>,
                         revocable: TimeTree, timed: TimeTree, used: map<Hash, Made>, live: Live, log: seq<Reversal>)

  // ----- Steps -----

  /** `GetMatrixData`: the cache answers first. */
  function Get(w: World, h: Hash): Option<Record> {
    if h in w.cache then Some(w.cache[h]) else if h in w.trie then Some(w.trie[h]) else None
  }

  /** A revocable or timed transaction, after its gas: the index entry is queued, and a revocable record is
      written to the cache and marked as to be written. */
  function Create(w: World, h: Hash, r: Record): World {
    var v := w.(balances := Apply(w.balances, Aside(r.coin, r.from, r.outs)), used := w.used[h := Made(r, w.block)],
                live := w.live[h := r], queue := w.queue + [Queued(r.kind, r.time, map[h := r])]);
    if r.kind == Revocable then v.(cache := w.cache[h := r], dirty := w.dirty + {h}) else v
  }

  /** The queue entered into the index of one kind; empty entries are passed over. */
  function Flush(t: TimeTree, q: seq<Queued>, kind: Kind): TimeTree {
    if q == [] then t
    else
      var u, x := Flush(t, q[..|q| - 1], kind), q[|q| - 1];
      if x.kind == kind && x.data != map[] then Enter(u, x.time, x.data) else u
  }

  /** `CommitSaveTx`. */
  function Commit(w: World): World {
    w.(revocable := Flush(w.revocable, w.queue, Revocable), timed := Flush(w.timed, w.queue, Timed), queue := [])
  }

  /** Does a revert by `from` in `coin` give the money of `h` back? */
  predicate Effective(w: World, h: Hash, from: Addr, coin: Coin) {
    h != NO_HASH && var g := Get(w, h); g.Some? && g.value.from == from && g.value.kind == Revocable && g.value.coin == coin
  }

  /** One hash of a revert: the store keeps answering from its cache after the deletion. */
  function RevertOne(w: World, h: Hash, from: Addr, coin: Coin): World {
    var g := Get(w, h);
    if h == NO_HASH || g.None? then w
    else
      var r := g.value;
      var v := w.(cache := w.cache[h := r]);
      if Effective(w, h, from, coin)
      then v.(balances := Apply(w.balances, Back(r.coin, r.from, r.outs)), trie := w.trie - {h}, live := w.live - {h},
              log := w.log + [Reversal(h, r, from, coin, w.block)])
      else v
  }

  function RevertAll(w: World, hs: seq<Hash>, from: Addr, coin: Coin): World {
    if hs == [] then w else RevertOne(RevertAll(w, hs[..|hs| - 1], from, coin), hs[|hs| - 1], from, coin)
  }

  /** The creation times of the records given back. */
  function TimesOf(w: World, hs: seq<Hash>, from: Addr, coin: Coin): set<nat> {
    if hs == [] then {}
    else
      var h := hs[|hs| - 1];
      TimesOf(w, hs[..|hs| - 1], from, coin) + if Effective(w, h, from, coin) then {Get(w, h).value.time} else {}
  }

  /** `GetSaveTx`: a time that the index has not got yet is passed over; one that it has is taken out, and what is
      left of it without `x` is queued and the queue committed. */
  function TakeOut(w: World, time: nat, x: Hash): World {
    if time !in Contents(w.revocable) then w
    else
      Commit(w.(revocable := Erase(w.revocable, time), queue := w.queue + [Queued(Revocable, time, Contents(w.revocable)[time] - {x})]))
  }

  function TakeOutAll(w: World, order: seq<nat>, x: Hash): World {
    if order == [] then w else TakeOut(TakeOutAll(w, order[..|order| - 1], x), order[|order| - 1], x)
  }

  /** A revert transaction, after its gas: every effective hash is given back, but for each of their times, in some
      order, it is the last hash of the list that is taken out of the index. */
  function Revert(w: World, hs: seq<Hash>, from: Addr, coin: Coin, order: seq<nat>): World
    requires hs != []
  {
    TakeOutAll(RevertAll(w, hs, from, coin), order, hs[|hs| - 1])
  }

  /** The end of a block: what was written reaches the trie, the queue is committed, and the next block starts
      with an empty read cache. */
  function EndBlock(w: World): World {
    var v := Commit(w);
    v.(trie := w.trie + Written(w.cache, w.dirty), cache := map[], dirty := {}, block := w.block + 1)
  }

  // ----- Invariants -----

  /** The Withdraw balance of every address in every coin is the sum of its live records. */
  ghost predicate WithdrawOk(w: World) {
    forall coin, addr :: Bal(w.balances, Key(coin, Withdraw, addr)) == Owed(w.live, coin, addr)
  }

  /** The hashes that were reverted. */
  ghost function Reverted(log: seq<Reversal>): set<Hash> {
    set i | 0 <= i < |log| :: log[i].hash
  }

  /** The hashes that were reverted in a block after the one that made them. */
  ghost function RevertedLater(log: seq<Reversal>, used: map<Hash, Made>): set<Hash> {
    set i | 0 <= i < |log| && log[i].hash in used && used[log[i].hash].block < log[i].block :: log[i].hash
  }

  ghost predicate MadeBefore(used: map<Hash, Made>, h: Hash, block: nat) {
    h in used && used[h].record.kind == Revocable && used[h].block < block
  }

  ghost predicate MadeNow(used: map<Hash, Made>, h: Hash, block: nat) {
    h in used && used[h].record.kind == Revocable && used[h].block == block
  }

  /** The trie holds exactly the revocable records of earlier blocks that were not reverted after the block that
      made them. */
  ghost predicate TrieOk(trie: Live, used: map<Hash, Made>, later: set<Hash>, block: nat) {
    && (forall h: Hash {:trigger h in trie} :: h in trie <==> MadeBefore(used, h, block) && h !in later)
    && (forall h <- trie :: h in used && trie[h] == used[h].record)
  }

  /** The cache holds revocable records only, among them all that were made in this block. */
  ghost predicate CacheOk(cache: Live, dirty: set<Hash>, used: map<Hash, Made>, block: nat) {
    && (forall h <- cache :: h in used && cache[h] == used[h].record && cache[h].kind == Revocable)
    && (forall h: Hash {:trigger h in dirty} :: h in dirty <==> MadeNow(used, h, block))
    && dirty <= cache.Keys
  }

  /** Live is what was made and not reverted. */
  ghost predicate LiveOk(live: Live, used: map<Hash, Made>, reverted: set<Hash>) {
    && (forall h: Hash {:trigger h in live} :: h in live <==> h in used && h !in reverted)
    && (forall h <- live :: h in used && live[h] == used[h].record)
  }

  /** A reversal of a revocable record, by its creator and in its coin, not before it was made. */
  ghost predicate Rightful(x: Reversal, used: map<Hash, Made>, block: nat) {
    && x.hash in used && x.record == used[x.hash].record && used[x.hash].block <= x.block <= block
    && x.record.kind == Revocable && x.record.from == x.who && x.record.coin == x.coin
  }

  ghost predicate LogOk(log: seq<Reversal>, used: map<Hash, Made>, block: nat) {
    && (forall h <- used :: h != NO_HASH && used[h].block <= block)
    && forall i :: 0 <= i < |log| ==> Rightful(log[i], used, block)
  }

  ghost predicate StoreOk(w: World) {
    && TrieOk(w.trie, w.used, RevertedLater(w.log, w.used), w.block)
    && CacheOk(w.cache, w.dirty, w.used, w.block)
    && LiveOk(w.live, w.used, Reverted(w.log))
    && LogOk(w.log, w.used, w.block)
  }

  /** No record was reverted twice. */
  ghost predicate OnceOk(w: World) {
    forall i, j :: 0 <= i < j < |w.log| ==> w.log[i].hash != w.log[j].hash
  }

  // ----- New records -----

  lemma {:induction false} CreateWithdraw(w: World, h: Hash, r: Record)
    requires h !in w.live
    ensures forall coin, addr :: var k := Key(coin, Withdraw, addr);
              Bal(Create(w, h, r).balances, k) - Owed(Create(w, h, r).live, coin, addr) == Bal(w.balances, k) - Owed(w.live, coin, addr)
  {
    var v, ds := Create(w, h, r), Aside(r.coin, r.from, r.outs);
    assert v.balances == Apply(w.balances, ds) && v.live == w.live[h := r];
    hide Create, Apply, Aside, Owed, Bal;
    forall coin, addr
      ensures var k := Key(coin, Withdraw, addr); Bal(v.balances, k) - Owed(v.live, coin, addr) == Bal(w.balances, k) - Owed(w.live, coin, addr)
    {
      var k := Key(coin, Withdraw, addr);
      AsideSums(r.coin, r.from, r.outs, k, coin);
      ApplyBal(w.balances, ds, k);
      OwedAdd(w.live, h, r, coin, addr);
    }
  }

  lemma {:induction false} NotReverted(log: seq<Reversal>, used: map<Hash, Made>, block: nat, h: Hash, m: Made)
    requires LogOk(log, used, block) && h !in used
    ensures h !in Reverted(log) && RevertedLater(log, used[h := m]) == RevertedLater(log, used)
  {
  }

  lemma {:induction false} TrieSame(trie: Live, used: map<Hash, Made>, later: set<Hash>, block: nat, h: Hash, m: Made)
    requires TrieOk(trie, used, later, block) && h !in used && m.block == block
    ensures TrieOk(trie, used[h := m], later, block)
  {
    assert h !in trie;
  }

  lemma {:induction false} CacheMore(cache: Live, dirty: set<Hash>, used: map<Hash, Made>, block: nat, h: Hash, m: Made)
    requires CacheOk(cache, dirty, used, block) && h !in used && m.block == block
    ensures if m.record.kind == Revocable then CacheOk(cache[h := m.record], dirty + {h}, used[h := m], block)
            else CacheOk(cache, dirty, used[h := m], block)
  {
    assert h !in cache && h !in dirty;
  }

  lemma {:induction false} LiveMore(live: Live, used: map<Hash, Made>, reverted: set<Hash>, h: Hash, m: Made)
    requires LiveOk(live, used, reverted) && h !in used && h !in reverted
    ensures h !in live && LiveOk(live[h := m.record], used[h := m], reverted)
  {
  }

  lemma {:induction false} LogSame(log: seq<Reversal>, used: map<Hash, Made>, block: nat, h: Hash, m: Made)
    requires LogOk(log, used, block) && h !in used && m.block == block && h != NO_HASH
    ensures LogOk(log, used[h := m], block)
  {
    forall i | 0 <= i < |log| ensures Rightful(log[i], used[h := m], block) {
      assert Rightful(log[i], used, block);
    }
  }

  /** A new record keeps all of it. */
  lemma {:induction false} CreateKeeps(w: World, h: Hash, r: Record)
    requires StoreOk(w) && h != NO_HASH && h !in w.used
    ensures StoreOk(Create(w, h, r)) && h !in w.live && Create(w, h, r).log == w.log
  {
    var m := Made(r, w.block);
    hide Apply, Aside, TrieOk, CacheOk, LiveOk, LogOk, Reverted, RevertedLater;
    NotReverted(w.log, w.used, w.block, h, m);
    TrieSame(w.trie, w.used, RevertedLater(w.log, w.used), w.block, h, m);
    CacheMore(w.cache, w.dirty, w.used, w.block, h, m);
    LiveMore(w.live, w.used, Reverted(w.log), h, m);
    LogSame(w.log, w.used, w.block, h, m);
  }

  // ----- The end of a block -----

  /** What is written when a block ends. */
  function Written(cache: Live, dirty: set<Hash>): Live {
    map h | h in dirty && h in cache :: cache[h]
  }

  lemma {:induction false} TrieWritten(trie: Live, cache: Live, dirty: set<Hash>, log: seq<Reversal>, used: map<Hash, Made>, block: nat)
    requires TrieOk(trie, used, RevertedLater(log, used), block) && CacheOk(cache, dirty, used, block) && LogOk(log, used, block)
    ensures TrieOk(trie + Written(cache, dirty), used, RevertedLater(log, used), block + 1)
    ensures CacheOk(map[], {}, used, block + 1) && LogOk(log, used, block + 1)
  {
    forall h <- dirty ensures h !in RevertedLater(log, used) {
      assert MadeNow(used, h, block);
    }
    hide RevertedLater;
  }

  lemma {:induction false} EndIs(w: World)
    ensures var v := EndBlock(w);
            && v.balances == w.balances && v.used == w.used && v.live == w.live && v.log == w.log && v.block == w.block + 1
            && v.trie == w.trie + Written(w.cache, w.dirty) && v.cache == map[] && v.dirty == {}
  {
    hide Flush, Written;
  }

  lemma {:induction false} EndKeeps(w: World)
    requires StoreOk(w)
    ensures var v := EndBlock(w); StoreOk(v) && v.balances == w.balances && v.live == w.live && v.log == w.log && v.cache == map[] && v.used == w.used
  {
    EndIs(w);
    hide EndBlock, TrieOk, CacheOk, LiveOk, LogOk, Reverted, RevertedLater, Written;
    TrieWritten(w.trie, w.cache, w.dirty, w.log, w.used, w.block);
  }

  /** At a block boundary a record that was reverted can be given back again if and only if it was reverted in no
      block but the one that made it: its deletion then came before it was written. */
  lemma {:induction false} PayableLater(w: World, h: Hash)
    requires StoreOk(w) && w.cache == map[] && h in Reverted(w.log)
    ensures h in w.used && (Get(w, h).Some? <==> forall i :: 0 <= i < |w.log| && w.log[i].hash == h ==> w.log[i].block == w.used[h].block)
  {
    var i :| 0 <= i < |w.log| && w.log[i].hash == h;
    assert w.log[i].hash in w.used;
    assert h !in w.dirty;
    if h in RevertedLater(w.log, w.used) {
      var j :| 0 <= j < |w.log| && w.log[j].hash == h && w.used[h].block < w.log[j].block;
    } else {
      forall j | 0 <= j < |w.log| && w.log[j].hash == h
        ensures w.log[j].block == w.used[h].block
      {
      }
    }
  }

  // ----- Reverts -----

  /** Whatever a revert does, the store answers as before: effectiveness does not wear off within a block. */
  lemma {:induction false} AnswersStay(w: World, hs: seq<Hash>, from: Addr, coin: Coin, h: Hash)
    ensures Get(RevertAll(w, hs, from, coin), h) == Get(w, h)
    decreases |hs|
  {
    if hs != [] {
      AnswersStay(w, hs[..|hs| - 1], from, coin, h);
      AnswersStay(w, hs[..|hs| - 1], from, coin, hs[|hs| - 1]);
    }
  }

  /** Has `h` been given back among these? */
  ghost predicate Taken(w: World, hs: seq<Hash>, from: Addr, coin: Coin, h: Hash) {
    h in hs && Effective(w, h, from, coin)
  }

  /** What a revert pays out for records that are no longer live when their turn comes. */
  ghost function StaleSum(w: World, hs: seq<Hash>, from: Addr, coin: Coin): nat {
    if hs == [] then 0
    else
      var n := |hs| - 1;
      StaleSum(w, hs[..n], from, coin)
      + if Effective(w, hs[n], from, coin) && (hs[n] !in w.live || hs[n] in hs[..n]) then Total(Get(w, hs[n]).value.outs) else 0
  }

  lemma {:induction false} RevertLive(w: World, hs: seq<Hash>, from: Addr, coin: Coin, h: Hash)
    ensures var v := RevertAll(w, hs, from, coin);
            (h in v.live <==> h in w.live && !Taken(w, hs, from, coin, h)) && (h in v.live ==> v.live[h] == w.live[h])
    decreases |hs|
  {
    if hs != [] {
      var n := |hs| - 1;
      RevertLive(w, hs[..n], from, coin, h);
      AnswersStay(w, hs[..n], from, coin, hs[n]);
      assert hs == hs[..n] + [hs[n]];
    }
  }

  lemma {:induction false} LogMore(log: seq<Reversal>, x: Reversal, used: map<Hash, Made>)
    ensures Reverted(log + [x]) == Reverted(log) + {x.hash}
    ensures RevertedLater(log + [x], used)
            == RevertedLater(log, used) + if x.hash in used && used[x.hash].block < x.block then {x.hash} else {}
  {
    var more := log + [x];
    assert more[|log|] == x && forall i | 0 <= i < |log| :: more[i] == log[i];
    forall h <- Reverted(log) ensures h in Reverted(more) {
      var i :| 0 <= i < |log| && log[i].hash == h;
      assert more[i].hash == h;
    }
    forall h <- RevertedLater(log, used) ensures h in RevertedLater(more, used) {
      var i :| 0 <= i < |log| && log[i].hash == h && h in used && used[h].block < log[i].block;
      assert more[i].hash == h;
    }
  }

  lemma {:induction false} RevertOneStore(w: World, h: Hash, from: Addr, coin: Coin)
    requires StoreOk(w)
    ensures var v := RevertOne(w, h, from, coin); StoreOk(v) && v == w.(balances := v.balances, trie := v.trie, cache := v.cache, live := v.live, log := v.log)
  {
    if Get(w, h).Some? {
      var x := Reversal(h, Get(w, h).value, from, coin, w.block);
      Loaded(w, h, x);
      LogMore(w.log, x, w.used);
    }
    hide Apply, Back, TrieOk, CacheOk, LiveOk, LogOk, Reverted, RevertedLater;
  }

  lemma {:induction false} Loaded(w: World, h: Hash, x: Reversal)
    requires StoreOk(w) && Get(w, h) == Some(x.record) && x.hash == h && x.block == w.block
    ensures h in w.used && x.record == w.used[h].record && x.record.kind == Revocable
    ensures CacheOk(w.cache[h := x.record], w.dirty, w.used, w.block)
    ensures LiveOk(w.live - {h}, w.used, Reverted(w.log) + {h})
    ensures TrieOk(w.trie - {h}, w.used, RevertedLater(w.log, w.used) + if w.used[h].block < w.block then {h} else {}, w.block)
    ensures x.record.from == x.who && x.record.coin == x.coin ==> LogOk(w.log + [x], w.used, w.block)
  {
    hide Reverted, RevertedLater;
  }

  lemma {:induction false} RevertStore(w: World, hs: seq<Hash>, from: Addr, coin: Coin)
    requires StoreOk(w)
    ensures var v := RevertAll(w, hs, from, coin);
            StoreOk(v) && v == w.(balances := v.balances, trie := v.trie, cache := v.cache, live := v.live, log := v.log)
    decreases |hs|
  {
    hide StoreOk, RevertOne;
    if hs != [] {
      RevertStore(w, hs[..|hs| - 1], from, coin);
      RevertOneStore(RevertAll(w, hs[..|hs| - 1], from, coin), hs[|hs| - 1], from, coin);
    }
  }

  /** Taking hashes out of the index touches nothing else. */
  lemma {:induction false} TakeOutStore(w: World, order: seq<nat>, x: Hash)
    ensures var v := TakeOutAll(w, order, x); v == w.(revocable := v.revocable, timed := v.timed, queue := v.queue)
    decreases |order|
  {
    hide Flush, Erase, Contents;
    if order != [] {
      TakeOutStore(w, order[..|order| - 1], x);
    }
  }

  lemma {:induction false} GapOne(u: World, h: Hash, from: Addr, coin: Coin, c: Coin, a: Addr)
    requires Effective(u, h, from, coin) ==> Get(u, h).Some? && (h in u.live ==> Get(u, h) == Some(u.live[h]))
    ensures var v, k := RevertOne(u, h, from, coin), Key(c, Withdraw, a);
            Bal(v.balances, k) - Owed(v.live, c, a)
            == Bal(u.balances, k) - Owed(u.live, c, a) - if Effective(u, h, from, coin) && c == coin && a == from && h !in u.live then Total(Get(u, h).value.outs) else 0
  {
    if !Effective(u, h, from, coin) {
      return;
    }
    var v, r, k := RevertOne(u, h, from, coin), Get(u, h).value, Key(c, Withdraw, a);
    assert v.balances == Apply(u.balances, Back(r.coin, r.from, r.outs)) && v.live == u.live - {h} && r.coin == coin && r.from == from;
    hide RevertOne, Effective, Get, Bal, Owed, Apply, Back;
    BackSums(r.coin, r.from, r.outs, k, c);
    ApplyBal(u.balances, Back(r.coin, r.from, r.outs), k);
    if h in u.live {
      OwedDrop(u.live, h, c, a);
    } else {
      assert u.live - {h} == u.live;
    }
  }

  /** The gap between a Withdraw balance and the live records after a revert. */
  lemma {:induction false} RevertGap(w: World, hs: seq<Hash>, from: Addr, coin: Coin, c: Coin, a: Addr)
    requires StoreOk(w)
    ensures var v, k := RevertAll(w, hs, from, coin), Key(c, Withdraw, a);
            Bal(v.balances, k) - Owed(v.live, c, a)
            == Bal(w.balances, k) - Owed(w.live, c, a) - if c == coin && a == from then StaleSum(w, hs, from, coin) else 0
    decreases |hs|
  {
    hide StoreOk, Get, Bal, Owed, RevertOne, Effective;
    if hs != [] {
      var n := |hs| - 1;
      var h, u := hs[n], RevertAll(w, hs[..n], from, coin);
      RevertGap(w, hs[..n], from, coin, c, a);
      AnswersStay(w, hs[..n], from, coin, h);
      SameAnswer(w, u, h, from, coin);
      RevertLive(w, hs[..n], from, coin, h);
      LiveAnswers(w, h, from, coin);
      GapOne(u, h, from, coin, c, a);
    }
  }

  lemma {:induction false} SameAnswer(w: World, v: World, h: Hash, from: Addr, coin: Coin)
    requires Get(v, h) == Get(w, h)
    ensures Effective(v, h, from, coin) == Effective(w, h, from, coin)
  {
  }

  lemma {:induction false} LiveAnswers(w: World, h: Hash, from: Addr, coin: Coin)
    requires StoreOk(w)
    ensures Effective(w, h, from, coin) ==> Get(w, h).Some? && (h in w.live ==> Get(w, h) == Some(w.live[h]))
  {
    if Effective(w, h, from, coin) {
      EffectiveUsed(w, h, from, coin);
    }
  }

  lemma {:induction false} RevertIs(w: World, hs: seq<Hash>, from: Addr, coin: Coin, order: seq<nat>)
    requires hs != [] && StoreOk(w)
    ensures var u, v := RevertAll(w, hs, from, coin), Revert(w, hs, from, coin, order);
            && StoreOk(u) && StoreOk(v) && v == u.(revocable := v.revocable, timed := v.timed, queue := v.queue)
            && v.used == w.used && v.block == w.block
  {
    RevertStore(w, hs, from, coin);
    TakeOutStore(RevertAll(w, hs, from, coin), order, hs[|hs| - 1]);
    hide RevertAll, TakeOutAll;
  }

  /** A revert keeps Withdraw balances equal to the live records if and only if it pays nothing for records that
      were already given back. */
  lemma {:induction false} RevertIff(w: World, hs: seq<Hash>, from: Addr, coin: Coin, order: seq<nat>)
    requires hs != [] && StoreOk(w) && WithdrawOk(w)
    ensures WithdrawOk(Revert(w, hs, from, coin, order)) <==> StaleSum(w, hs, from, coin) == 0
  {
    var v := RevertAll(w, hs, from, coin);
    RevertIs(w, hs, from, coin, order);
    hide Revert, RevertAll, StoreOk;
    forall c, a
      ensures Bal(v.balances, Key(c, Withdraw, a)) - Owed(v.live, c, a) == 0 - if c == coin && a == from then StaleSum(w, hs, from, coin) else 0
    {
      RevertGap(w, hs, from, coin, c, a);
    }
    assert Bal(v.balances, Key(coin, Withdraw, from)) - Owed(v.live, coin, from) == 0 - StaleSum(w, hs, from, coin);
  }

  /** Every hash that takes effect is live and named once. */
  ghost predicate Fresh(w: World, hs: seq<Hash>, from: Addr, coin: Coin) {
    forall i :: 0 <= i < |hs| && Effective(w, hs[i], from, coin) ==> hs[i] in w.live && hs[i] !in hs[..i]
  }

  lemma {:induction false} FreshPart(w: World, hs: seq<Hash>, from: Addr, coin: Coin, n: nat)
    requires Fresh(w, hs, from, coin) && n <= |hs|
    ensures Fresh(w, hs[..n], from, coin)
  {
    forall i | 0 <= i < n && Effective(w, hs[..n][i], from, coin) ensures hs[..n][i] in w.live && hs[..n][i] !in hs[..n][..i] {
      assert hs[..n][..i] == hs[..i] && hs[..n][i] == hs[i];
    }
  }

  lemma {:induction false} FreshPays(w: World, hs: seq<Hash>, from: Addr, coin: Coin)
    requires Fresh(w, hs, from, coin)
    ensures StaleSum(w, hs, from, coin) == 0
    decreases |hs|
  {
    if hs != [] {
      FreshPart(w, hs, from, coin, |hs| - 1);
      FreshPays(w, hs[..|hs| - 1], from, coin);
    }
  }

  /** When all amounts are positive, fresh is also necessary. */
  lemma {:induction false} StaleShows(w: World, hs: seq<Hash>, from: Addr, coin: Coin)
    requires forall h <- hs :: Effective(w, h, from, coin) ==> Total(Get(w, h).value.outs) > 0
    ensures StaleSum(w, hs, from, coin) == 0 <==> Fresh(w, hs, from, coin)
    decreases |hs|
  {
    if Fresh(w, hs, from, coin) {
      FreshPays(w, hs, from, coin);
    } else {
      var n := |hs| - 1;
      var i :| 0 <= i < |hs| && Effective(w, hs[i], from, coin) && !(hs[i] in w.live && hs[i] !in hs[..i]);
      if i < n {
        StaleShows(w, hs[..n], from, coin);
        assert hs[..n][i] == hs[i] && hs[..n][..i] == hs[..i];
        assert !Fresh(w, hs[..n], from, coin);
      }
    }
  }

  /** The hashes a revert gives back, in order. */
  ghost function Logged(w: World, hs: seq<Hash>, from: Addr, coin: Coin): seq<Hash> {
    if hs == [] then []
    else
      var n := |hs| - 1;
      Logged(w, hs[..n], from, coin) + if Effective(w, hs[n], from, coin) then [hs[n]] else []
  }

  ghost function Names(log: seq<Reversal>): seq<Hash> {
    seq(|log|, i requires 0 <= i < |log| => log[i].hash)
  }

  lemma {:induction false} LogOne(u: World, h: Hash, from: Addr, coin: Coin)
    ensures u.log <= RevertOne(u, h, from, coin).log
    ensures Names(RevertOne(u, h, from, coin).log) == Names(u.log) + if Effective(u, h, from, coin) then [h] else []
  {
    hide Apply, Back;
  }

  lemma {:induction false} LogIs(w: World, hs: seq<Hash>, from: Addr, coin: Coin)
    ensures Names(RevertAll(w, hs, from, coin).log) == Names(w.log) + Logged(w, hs, from, coin)
    ensures w.log <= RevertAll(w, hs, from, coin).log
    decreases |hs|
  {
    if hs != [] {
      var n := |hs| - 1;
      var u := RevertAll(w, hs[..n], from, coin);
      LogIs(w, hs[..n], from, coin);
      AnswersStay(w, hs[..n], from, coin, hs[n]);
      LogOne(u, hs[n], from, coin);
      assert Effective(u, hs[n], from, coin) == Effective(w, hs[n], from, coin);
      hide Get, RevertOne, Effective;
    }
  }

  ghost predicate Distinct(s: seq<Hash>) {
    forall i, j :: 0 <= i < j < |s| ==> s[i] != s[j]
  }

  lemma {:induction false} LoggedIn(w: World, hs: seq<Hash>, from: Addr, coin: Coin, h: Hash)
    ensures h in Logged(w, hs, from, coin) <==> Taken(w, hs, from, coin, h)
    decreases |hs|
  {
    if hs != [] {
      assert hs == hs[..|hs| - 1] + [hs[|hs| - 1]];
      LoggedIn(w, hs[..|hs| - 1], from, coin, h);
    }
  }

  lemma {:induction false} DistinctMore(s: seq<Hash>, x: Hash)
    ensures Distinct(s + [x]) <==> Distinct(s) && x !in s
  {
    var t := s + [x];
    assert forall i | 0 <= i < |s| :: t[i] == s[i];
    if Distinct(t) {
      forall i | 0 <= i < |s| ensures s[i] != x {
        assert t[i] != t[|s|];
      }
    }
  }

  /** A revert reverts nothing that was reverted before, and nothing twice, if and only if it is fresh. */
  lemma {:induction false} RevertOnce(w: World, hs: seq<Hash>, from: Addr, coin: Coin)
    requires StoreOk(w) && OnceOk(w)
    ensures OnceOk(RevertAll(w, hs, from, coin)) <==> Fresh(w, hs, from, coin)
  {
    LogIs(w, hs, from, coin);
    assert Distinct(Names(w.log));
    LoggedOnce(w, hs, from, coin);
    var v := RevertAll(w, hs, from, coin);
    hide RevertAll, Logged, StoreOk, Fresh;
    NamesOnce(v.log);
  }

  lemma {:induction false} NamesOnce(log: seq<Reversal>)
    ensures Distinct(Names(log)) <==> forall i, j :: 0 <= i < j < |log| ==> log[i].hash != log[j].hash
  {
    if Distinct(Names(log)) {
      forall i, j | 0 <= i < j < |log| ensures log[i].hash != log[j].hash {
        assert Names(log)[i] != Names(log)[j];
      }
    }
  }

  lemma {:induction false} LoggedOnce(w: World, hs: seq<Hash>, from: Addr, coin: Coin)
    requires StoreOk(w) && Distinct(Names(w.log))
    ensures Distinct(Names(w.log) + Logged(w, hs, from, coin)) <==> Fresh(w, hs, from, coin)
    decreases |hs|
  {
    hide StoreOk, Distinct, Reverted, Names, Effective;
    if hs == [] {
      assert Names(w.log) + [] == Names(w.log);
    } else {
      hide Fresh;
      var n := |hs| - 1;
      LoggedOnce(w, hs[..n], from, coin);
      FreshLast(w, hs, from, coin);
      var s := Names(w.log) + Logged(w, hs[..n], from, coin);
      if Effective(w, hs[n], from, coin) {
        assert Names(w.log) + Logged(w, hs, from, coin) == s + [hs[n]];
        LiveUnreverted(w, hs[n], from, coin);
        hide Logged;
        DistinctMore(s, hs[n]);
        LoggedIn(w, hs[..n], from, coin, hs[n]);
        NamesAre(w.log, hs[n]);
      } else {
        assert Logged(w, hs, from, coin) == Logged(w, hs[..n], from, coin);
      }
    }
  }

  lemma {:induction false} LiveUnreverted(w: World, h: Hash, from: Addr, coin: Coin)
    requires StoreOk(w) && Effective(w, h, from, coin)
    ensures h in w.live <==> h !in Reverted(w.log)
  {
    EffectiveUsed(w, h, from, coin);
    hide TrieOk, CacheOk, LogOk, Reverted, Effective;
  }

  lemma {:induction false} EffectiveUsed(w: World, h: Hash, from: Addr, coin: Coin)
    requires StoreOk(w) && Effective(w, h, from, coin)
    ensures h in w.used && Get(w, h) == Some(w.used[h].record)
  {
  }

  lemma {:induction false} NamesAre(log: seq<Reversal>, h: Hash)
    ensures h in Names(log) <==> h in Reverted(log)
  {
    if h in Reverted(log) {
      var i :| 0 <= i < |log| && log[i].hash == h;
      assert Names(log)[i] == h;
    }
    if h in Names(log) {
      var i :| 0 <= i < |Names(log)| && Names(log)[i] == h;
      assert log[i].hash == h;
    }
  }

  lemma {:induction false} FreshLast(w: World, hs: seq<Hash>, from: Addr, coin: Coin)
    requires hs != []
    ensures var n := |hs| - 1;
            Fresh(w, hs, from, coin)
            <==> Fresh(w, hs[..n], from, coin) && (Effective(w, hs[n], from, coin) ==> hs[n] in w.live && hs[n] !in hs[..n])
  {
    var n := |hs| - 1;
    if Fresh(w, hs, from, coin) {
      FreshPart(w, hs, from, coin, n);
    }
    if Fresh(w, hs[..n], from, coin) && (Effective(w, hs[n], from, coin) ==> hs[n] in w.live && hs[n] !in hs[..n]) {
      forall i | 0 <= i < |hs| && Effective(w, hs[i], from, coin) ensures hs[i] in w.live && hs[i] !in hs[..i] {
        if i < n {
          assert hs[..n][i] == hs[i] && hs[..n][..i] == hs[..i];
        }
      }
    }
  }

  /** Was it reverted in the block that made it? */
  ghost predicate RevertedAtOnce(w: World, h: Hash) {
    h in w.used && exists i | 0 <= i < |w.log| :: w.log[i].hash == h && w.log[i].block == w.used[h].block
  }

  /** The first revert of a block is fresh if and only if it names no record twice and none that was reverted in the
      block that made it. */
  lemma {:induction false} FreshAfterBlock(w: World, hs: seq<Hash>, from: Addr, coin: Coin)
    requires StoreOk(w) && w.cache == map[]
    ensures Fresh(w, hs, from, coin)
            <==> forall i :: 0 <= i < |hs| && Effective(w, hs[i], from, coin) ==> hs[i] !in hs[..i] && !RevertedAtOnce(w, hs[i])
  {
    forall h | Effective(w, h, from, coin)
      ensures h in w.live <==> !RevertedAtOnce(w, h)
    {
      EffectiveUsed(w, h, from, coin);
      if h in Reverted(w.log) {
        PayableLater(w, h);
        var i :| 0 <= i < |w.log| && w.log[i].hash == h;
        assert w.log[i].block == w.used[h].block;
      }
    }
  }

  // ----- Whole runs -----

  /** A new record, a revert, balance changes on Main accounts (fees, ordinary transfers), and the end of a block. */
  datatype Event =
    | Created(hash: Hash, record: Record)
    | Reverting(hashes: seq<Hash>, from: Addr, coin: Coin, order: seq<nat>)
    | Moved(deltas: seq<Delta>)
    | BlockEnd

  function Step(w: World, e: Event): World {
    match e
    case Created(h, r) => Create(w, h, r)
    case Reverting(hs, from, coin, order) => if hs == [] then w else Revert(w, hs, from, coin, order)
    case Moved(ds) => w.(balances := Apply(w.balances, ds))
    case BlockEnd => EndBlock(w)
  }

  /** New records have hashes of their own, and other changes leave Withdraw accounts alone. */
  ghost predicate Possible(w: World, e: Event) {
    && (e.Created? ==> e.hash != NO_HASH && e.hash !in w.used)
    && (e.Moved? ==> forall i :: 0 <= i < |e.deltas| ==> e.deltas[i].key.sub == Main)
  }

  /** No revert of this step names a record twice or one that was already given back. */
  ghost predicate FreshStep(w: World, e: Event) {
    e.Reverting? ==> Fresh(w, e.hashes, e.from, e.coin)
  }

  function Run(w: World, es: seq<Event>): World {
    if es == [] then w else Step(Run(w, es[..|es| - 1]), es[|es| - 1])
  }

  ghost predicate AllPossible(es: seq<Event>)
    decreases |es|
  {
    es != [] ==> var n := |es| - 1; AllPossible(es[..n]) && Possible(Run(NOTHING, es[..n]), es[n])
  }

  ghost predicate AllFresh(es: seq<Event>)
    decreases |es|
  {
    es != [] ==> var n := |es| - 1; AllFresh(es[..n]) && FreshStep(Run(NOTHING, es[..n]), es[n])
  }

  /** What the reverts of a run paid to an address for records already given back. */
  ghost function Overpaid(es: seq<Event>, coin: Coin, addr: Addr): nat
    decreases |es|
  {
    if es == [] then 0
    else
      var n := |es| - 1;
      var e := es[n];
      Overpaid(es[..n], coin, addr)
      + if e.Reverting? && e.coin == coin && e.from == addr then StaleSum(Run(NOTHING, es[..n]), e.hashes, e.from, e.coin) else 0
  }

  const NOTHING: World := World(map[], 0, map[], map[], {}, [], EMPTY, EMPTY, map[], map[], [])

  lemma {:induction false} MainOnly(ds: seq<Delta>, coin: Coin, addr: Addr)
    requires forall i :: 0 <= i < |ds| ==> ds[i].key.sub == Main
    ensures KeySum(ds, Key(coin, Withdraw, addr)) == 0
    decreases |ds|
  {
    if ds != [] {
      MainOnly(ds[..|ds| - 1], coin, addr);
    }
  }

  lemma {:induction false} StepStore(w: World, e: Event)
    requires StoreOk(w) && Possible(w, e)
    ensures StoreOk(Step(w, e)) && w.log <= Step(w, e).log
  {
    match e
    case Created(h, r) => CreateKeeps(w, h, r);
    case Reverting(hs, from, coin, order) =>
      if hs != [] {
        RevertIs(w, hs, from, coin, order);
        LogIs(w, hs, from, coin);
      }
    case Moved(ds) => hide Apply;
    case BlockEnd => EndKeeps(w);
  }

  lemma {:induction false} StepGap(w: World, e: Event, c: Coin, a: Addr)
    requires StoreOk(w) && Possible(w, e)
    ensures var v, k := Step(w, e), Key(c, Withdraw, a);
            Bal(v.balances, k) - Owed(v.live, c, a) == Bal(w.balances, k) - Owed(w.live, c, a)
              - if e.Reverting? && e.coin == c && e.from == a then StaleSum(w, e.hashes, e.from, e.coin) else 0
  {
    match e {
      case Created(h, r) =>
        CreateKeeps(w, h, r);
        CreateWithdraw(w, h, r);
      case Reverting(hs, from, coin, order) =>
        if hs != [] {
          RevertIs(w, hs, from, coin, order);
          hide Revert, StoreOk, RevertAll, Bal, Owed;
          RevertGap(w, hs, from, coin, c, a);
        }
      case Moved(ds) =>
        hide Apply, Bal, Owed;
        MainOnly(ds, c, a);
        ApplyBal(w.balances, ds, Key(c, Withdraw, a));
      case BlockEnd =>
        EndKeeps(w);
        hide EndBlock, Bal, Owed;
    }
  }

  /** Over all runs: only revocable records are ever reverted, by their creator and in their coin; the store answers
      exactly for what `StoreOk` says; and every Withdraw balance falls short of the address's live records by exactly
      what was paid for records already given back. */
  lemma {:induction false} RunKeeps(es: seq<Event>, coin: Coin, addr: Addr)
    requires AllPossible(es)
    ensures var w := Run(NOTHING, es);
            StoreOk(w) && Bal(w.balances, Key(coin, Withdraw, addr)) == Owed(w.live, coin, addr) - Overpaid(es, coin, addr)
    decreases |es|
  {
    if es == [] {
      NothingOwed();
    } else {
      var n := |es| - 1;
      RunKeeps(es[..n], coin, addr);
      hide Step, StoreOk, Bal, Owed, StaleSum, Possible;
      StepStore(Run(NOTHING, es[..n]), es[n]);
      StepGap(Run(NOTHING, es[..n]), es[n], coin, addr);
    }
  }

  /** Over all runs: no record is reverted twice if and only if every revert was fresh. */
  lemma {:induction false} RunOnce(es: seq<Event>)
    requires AllPossible(es)
    ensures OnceOk(Run(NOTHING, es)) <==> AllFresh(es)
    decreases |es|
  {
    if es != [] {
      var n := |es| - 1;
      var w, e := Run(NOTHING, es[..n]), es[n];
      RunOnce(es[..n]);
      RunKeeps(es[..n], "", 0);
      StepStore(w, e);
      if OnceOk(w) {
        StepOnce(w, e);
      } else {
        hide Step, StoreOk;
        var i, j :| 0 <= i < j < |w.log| && w.log[i].hash == w.log[j].hash;
        assert Step(w, e).log[i] == w.log[i] && Step(w, e).log[j] == w.log[j];
      }
    }
  }

  lemma {:induction false} StepOnce(w: World, e: Event)
    requires StoreOk(w) && OnceOk(w)
    ensures OnceOk(Step(w, e)) <==> FreshStep(w, e)
  {
    match e
    case Reverting(hs, from, coin, order) =>
      if hs != [] {
        RevertIs(w, hs, from, coin, order);
        RevertOnce(w, hs, from, coin);
        hide Revert, RevertAll, Fresh, StoreOk;
      }
    case BlockEnd => EndKeeps(w);
    case _ =>
  }

  /** So, as long as every revert is fresh, every Withdraw balance is the sum of the address's live records. */
  lemma {:induction false} FreshRuns(es: seq<Event>)
    requires AllPossible(es) && AllFresh(es)
    ensures WithdrawOk(Run(NOTHING, es)) && OnceOk(Run(NOTHING, es))
  {
    RunOnce(es);
    hide Run, Bal, Owed, OnceOk;
    forall coin, addr
      ensures Bal(Run(NOTHING, es).balances, Key(coin, Withdraw, addr)) == Owed(Run(NOTHING, es).live, coin, addr)
    {
      RunKeeps(es, coin, addr);
      NothingOverpaid(es, coin, addr);
    }
  }

  lemma {:induction false} NothingOverpaid(es: seq<Event>, coin: Coin, addr: Addr)
    requires AllFresh(es)
    ensures Overpaid(es, coin, addr) == 0
    decreases |es|
  {
    if es != [] {
      var n := |es| - 1;
      var e := es[n];
      NothingOverpaid(es[..n], coin, addr);
      if e.Reverting? {
        FreshPays(Run(NOTHING, es[..n]), e.hashes, e.from, e.coin);
      }
    }
  }

  lemma {:induction false} NothingOwed()
    ensures WithdrawOk(NOTHING) && StoreOk(NOTHING) && OnceOk(NOTHING)
  {
    var none: Live := map[];
    assert none.Keys == {};
    forall coin, addr ensures Bal(NOTHING.balances, Key(coin, Withdraw, addr)) == Owed(NOTHING.live, coin, addr) {
    }
  }
}
