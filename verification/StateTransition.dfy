/**
  State transitions of normal, revocable, timed and revert transactions: gas is bought, money moves,
  what is left of the gas is given back, and the fee is paid.
 */
module StateTransition {
  import opened Ledger
  import opened Listings
  import Gas
  import opened Records
  import Releases
  import RevertIndex
  import opened Reverts
  import opened TimeIndex
  import opened Options

  /** `payer` is the account the gas is charged to. */
  datatype Tx = Tx(hash: Hash, from: Addr, payer: Addr, coin: Coin, nonce: nat, checkNonce: bool, gas: nat, value: nat, to: Option<Addr>,
                   data: Gas.Bytes, extra: seq<Gas.Extra>, time: nat)

  datatype CoinConfig = CoinConfig(coinType: Coin, coinRange: Coin, coinAddress: Addr, packNum: nat)

  const MAN_COIN: Coin := "MAN"
  const GAS_REWARD: Addr := 0x8000000000000000000000000000000000000001

  /** `getCoinAddress`: who receives the fee of a coin, and in which coin; `None` is a configuration that cannot be read. */
  function CoinAddress(coin: Coin, config: Option<seq<CoinConfig>>): (Addr, Coin) {
    if coin == MAN_COIN || coin == "" then (GAS_REWARD, coin)
    else
      match config
      case None => (GAS_REWARD, MAN_COIN)
      case Some(list) => FirstConfig(coin, list)
  }

  function FirstConfig(coin: Coin, list: seq<CoinConfig>): (Addr, Coin) {
    if list == [] then (NO_ADDR, "")
    else if list[0].packNum > 0 && list[0].coinType == coin then (list[0].coinAddress, list[0].coinRange)
    else FirstConfig(coin, list[1..])
  }

  /** All recipients, the outer one first. */
  function Outs(tx: Tx): seq<Out> {
    [Out(if tx.to.Some? then tx.to.value else NO_ADDR, tx.value)]
    + seq(|tx.extra|, i requires 0 <= i < |tx.extra| => Out(tx.extra[i].recipient, tx.extra[i].amount))
  }

  function RecordOf(tx: Tx, kind: Kind): Record {
    Record(tx.from, tx.coin, tx.time, kind, Outs(tx))
  }

  datatype Outcome = Rejected | Done(used: nat, failed: bool)

  /** What one contract call or transfer of the virtual machine leaves behind. */
  datatype EvmError = NoError | InsufficientBalance | OtherError

  datatype EvmResult = EvmResult(balances: Balances, gas: nat, error: EvmError)

  /** The virtual machine moves coins between Main accounts without making or losing any, and only uses gas up. */
  ghost predicate Conserving(b: Balances, gas: nat, r: EvmResult) {
    && r.gas <= gas
    && (forall c :: CoinTotal(r.balances, c) == CoinTotal(b, c))
    && (forall c, a :: Bal(r.balances, Key(c, Withdraw, a)) == Bal(b, Key(c, Withdraw, a)))
  }

  type Evm = (nat, Balances, nat) -> EvmResult

  /** The state that transitions work on. The records made, the live ones and the reversals are kept for the record. */
  class State {
    var balances: Balances
    var nonces: map<(Coin, Addr), nat>
    var block: nat
    var trie: Live
    var cache: Live
    var dirty: set<Hash>
    var queue: seq<Queued>
    var revocable: TimeTree
    var timed: TimeTree
    ghost var used: map<Hash, Made>
    ghost var live: Live
    ghost var log: seq<Reversal>

    ghost function View(): World
      reads `balances, `block, `trie, `cache, `dirty, `queue, `revocable, `timed, `used, `live, `log
    {
      World(balances, block, trie, cache, dirty, queue, revocable, timed, used, live, log)
    }

    /** `CommitSaveTx`. */
    method CommitSaveTx()
      modifies `queue, `revocable, `timed
      ensures View() == Commit(old(View()))
    {
      hide Enter, TreeValid;
      for i := 0 to |queue|
        invariant queue == old(queue)
        invariant revocable == Flush(old(revocable), queue[..i], Revocable) && timed == Flush(old(timed), queue[..i], Timed)
      {
        assert queue[..i + 1][..i] == queue[..i];
        var x := queue[i];
        if x.data != map[] {
          match x.kind
          case Revocable => revocable := Enter(revocable, x.time, x.data);
          case Timed => timed := Enter(timed, x.time, x.data);
        }
      }
      assert queue[..|queue|] == queue;
      queue := [];
    }

    /** `GetSaveTx` with deletion of the hashes. */
    method GetSaveTx(time: nat, xs: set<Hash>)
      modifies `queue, `revocable, `timed
      ensures View() == Releases.TakeOutSet(old(View()), time, xs)
    {
      hide Commit, Contents, Erase, TreeValid;
      if time !in Contents(revocable) {
        return;
      }
      var data := Contents(revocable)[time] - xs;
      revocable := Erase(revocable, time);
      queue := queue + [Queued(Revocable, time, data)];
      CommitSaveTx();
    }

    /** Every entry written since the state was loaded goes to the trie. */
    method WriteBack()
      modifies `trie
      ensures trie == old(trie) + Written(cache, dirty)
    {
      var rest := dirty;
      while rest != {}
        invariant rest <= dirty && trie == old(trie) + Written(cache, dirty - rest)
        decreases rest
      {
        var h :| h in rest;
        assert dirty - (rest - {h}) == dirty - rest + {h};
        if h in cache {
          trie := trie[h := cache[h]];
        }
        rest := rest - {h};
      }
      assert dirty - rest == dirty;
    }

    /** `Finalise` at the end of a block; the next block works on a state loaded anew. */
    method FinishBlock()
      modifies this
      ensures View() == EndBlock(old(View())) && nonces == old(nonces)
    {
      hide Commit, EndBlock, Written, TreeValid;
      ghost var w := View();
      WriteBack();
      CommitSaveTx();
      EndAfter(w, View());
      cache, dirty, block := map[], {}, block + 1;
    }

    /** The recipients of a due record. */
    method PayRecipients(r: Record)
      modifies `balances
      ensures balances == Releases.PayOuts(old(balances), r, r.outs)
    {
      hide Apply;
      for i := 0 to |r.outs|
        invariant balances == Releases.PayOuts(old(balances), r, r.outs[..i])
      {
        assert r.outs[..i + 1][..i] == r.outs[..i];
        var o := r.outs[i];
        if Bal(balances, Key(r.coin, Withdraw, r.from)) >= o.amount {
          ghost var b := balances;
          AddBalance(Key(r.coin, Withdraw, r.from), 0 - o.amount);
          AddBalance(Key(r.coin, Main, o.addr), o.amount);
          ApplyTwo(b, Delta(Key(r.coin, Withdraw, r.from), 0 - o.amount), Delta(Key(r.coin, Main, o.addr), o.amount));
        }
      }
      assert r.outs[..|r.outs|] == r.outs;
    }

    /** All that is held for a time is paid out and deleted, in some order. */
    method PayItem(time: nat, data: Live) returns (gone: set<Hash>, ghost x: Releases.Item)
      modifies `balances, `trie
      ensures x.time == time && x.data == data && Releases.Complete(x) && gone == Releases.Gone(x)
      ensures balances == Releases.PayAll(old(balances), data, x.hashes) && trie == old(trie) - gone
    {
      hide Releases.PayOuts;
      var rest := data.Keys;
      gone := {};
      x := Releases.Item(time, data, []);
      while rest != {}
        invariant rest <= data.Keys && x.time == time && x.data == data && Releases.CompleteUpTo(x, data.Keys - rest)
        invariant balances == Releases.PayAll(old(balances), data, x.hashes)
        invariant gone == Releases.Gone(x) && trie == old(trie) - gone
        decreases rest
      {
        var h :| h in rest;
        ghost var more := x.(hashes := x.hashes + [h]);
        Releases.CompleteMore(x, data.Keys - rest, h);
        assert data.Keys - (rest - {h}) == data.Keys - rest + {h};
        assert more.hashes[..|x.hashes|] == x.hashes;
        hide Releases.Gone;
        if data[h].kind == Revocable {
          PayRecipients(data[h]);
          gone := gone + {h};
          trie := trie - {h};
        }
        x := more;
        rest := rest - {h};
      }
      assert data.Keys - rest == data.Keys;
    }

    /** The records of one time, and then the time itself. */
    method ReleaseItem(time: nat, data: Live) returns (ghost x: Releases.Item)
      modifies `balances, `trie, `queue, `revocable, `timed
      ensures x.time == time && x.data == data && Releases.Complete(x)
      ensures View() == Releases.ReleaseTime(old(View()), x)
    {
      hide Releases.PayAll, Releases.Gone, Releases.TakeOutSet, TreeValid;
      var gone;
      gone, x := PayItem(time, data);
      GetSaveTx(time, gone);
    }

    /** `UpdateTxForBtree`: the times that have come, the latest first. */
    method UpdateTxForBtree(key: nat) returns (ghost xs: seq<Releases.Item>)
      modifies `balances, `trie, `queue, `revocable, `timed
      ensures Releases.DueItems(xs, Contents(old(revocable)), key) && Releases.AllComplete(xs)
      ensures View() == Releases.Release(old(View()), xs)
    {
      hide Releases.ReleaseTime, TreeValid, Contents;
      var held := Contents(revocable);
      var rest := set t | t in held && t <= key;
      xs := [];
      while rest != {}
        invariant rest <= held.Keys && Releases.PickedDown(xs, held, key, rest)
        invariant View() == Releases.Release(old(View()), xs)
        decreases rest
      {
        HasMax(rest);
        var t :| t in rest && forall u <- rest :: u <= t;
        ghost var x := ReleaseItem(t, held[t]);
        Releases.PickedMore(xs, held, key, rest, x);
        assert (xs + [x])[..|xs|] == xs;
        xs := xs + [x];
        rest := rest - {t};
      }
      Releases.PickedAll(xs, held, key);
    }

    /** `GetMatrixData`: a record found in the trie is kept in the cache. */
    method GetMatrixData(h: Hash) returns (r: Option<Record>)
      modifies `cache
      ensures r == Get(old(View()), h)
      ensures cache == if r.Some? then old(cache)[h := r.value] else old(cache)
    {
      hide TreeValid;
      if h in cache {
        return Some(cache[h]);
      }
      if h !in trie {
        return None;
      }
      cache := cache[h := trie[h]];
      return Some(trie[h]);
    }

    method AddBalance(k: Key, amount: int)
      modifies `balances
      ensures balances == Add(old(balances), Delta(k, amount))
    {
      balances := balances[k := (if k in balances then balances[k] else 0) + amount];
    }

    function GetNonce(coin: Coin, a: Addr): nat
      reads `nonces
    {
      if (coin, a) in nonces then nonces[(coin, a)] else 0
    }
  }

  /** The block is ended: `v` is what a commit makes of `w` once its writes are in the trie. */
  lemma {:induction false} EndAfter(w: World, v: World)
    requires v == Commit(w.(trie := w.trie + Written(w.cache, w.dirty)))
    ensures EndBlock(w) == v.(cache := map[], dirty := {}, block := v.block + 1)
  {
    hide Flush, Written, TreeValid;
  }

  // ----- What a successful transition does -----

  /** Gas bought from the payer. */
  ghost function Bought(w: World, tx: Tx): World {
    w.(balances := Apply(w.balances, Gas.BuyDeltas(tx.coin, tx.payer, tx.gas)))
  }

  /** Gas left given back, fee paid. */
  ghost function Settled(w: World, tx: Tx, config: Option<seq<CoinConfig>>, used: nat): World
    requires used <= tx.gas
  {
    var (feeTo, range) := CoinAddress(tx.coin, config);
    w.(balances := Apply(w.balances, Gas.SettleDeltas(range, tx.payer, feeTo, tx.gas - used, used)))
  }

  lemma {:induction false} CreateBalances(w: World, h: Hash, r: Record, b: Balances)
    requires b == Apply(w.balances, Aside(r.coin, r.from, r.outs))
    ensures Create(w, h, r) == Create(w.(balances := b), h, r).(balances := b)
  {
  }

  class Transition {
    const pool: Gas.GasPool
    const state: State
    var gas: nat
    var initialGas: nat

    constructor (pool: Gas.GasPool, state: State)
      ensures this.pool == pool && this.state == state && gas == 0 && initialGas == 0
    {
      this.pool, this.state, gas, initialGas := pool, state, 0, 0;
    }

    /** `BuyGas`. */
    method BuyGas(tx: Tx) returns (ok: bool)
      requires gas == 0
      modifies this, pool, state`balances
      ensures ok ==> pool.gas == old(pool.gas) - tx.gas && gas == initialGas == tx.gas
                     && state.balances == Apply(old(state.balances), Gas.BuyDeltas(tx.coin, tx.payer, tx.gas))
      ensures ok <==> Bal(old(state.balances), Key(tx.coin, Main, tx.from)) >= tx.gas * Gas.GAS_PRICE && old(pool.gas) >= tx.gas
                      && Bal(old(state.balances), Key(tx.coin, Main, tx.payer)) >= tx.gas * Gas.GAS_PRICE
      ensures pool.gas <= old(pool.gas)
    {
      var cost := tx.gas * Gas.GAS_PRICE;
      if Bal(state.balances, Key(tx.coin, Main, tx.from)) < cost {
        return false;
      }
      ok := pool.SubGas(tx.gas);
      if !ok {
        return;
      }
      gas, initialGas := gas + tx.gas, tx.gas;
      if Bal(state.balances, Key(tx.coin, Main, tx.payer)) < cost {
        return false;
      }
      state.AddBalance(Key(tx.coin, Main, tx.payer), -cost);
      ApplyOne(old(state.balances), Gas.BuyDeltas(tx.coin, tx.payer, tx.gas)[0]);
    }

    /** `PreCheck`. */
    method PreCheck(tx: Tx) returns (ok: bool)
      requires gas == 0
      modifies this, pool, state`balances
      ensures ok ==> (tx.checkNonce ==> state.GetNonce(tx.coin, tx.from) == tx.nonce)
      ensures ok ==> pool.gas == old(pool.gas) - tx.gas && gas == initialGas == tx.gas
                     && state.balances == Apply(old(state.balances), Gas.BuyDeltas(tx.coin, tx.payer, tx.gas))
      ensures pool.gas <= old(pool.gas)
    {
      if tx.checkNonce && state.GetNonce(tx.coin, tx.from) != tx.nonce {
        return false;
      }
      ok := BuyGas(tx);
    }

    /** `RefundGas` and the payment of the fee: the gas left, with the refund, goes back to the payer and to the pool. */
    method Settle(tx: Tx, range: Coin, feeTo: Addr, counter: nat) returns (charged: nat)
      requires gas <= initialGas && pool.gas + initialGas <= Gas.MAX_U64
      modifies this, pool, state`balances
      ensures charged == old(initialGas - gas) - Gas.Refund(old(initialGas - gas), counter)
      ensures initialGas == old(initialGas) && gas == initialGas - charged && pool.gas == old(pool.gas) + gas
      ensures state.balances == Apply(old(state.balances), Gas.SettleDeltas(range, tx.payer, feeTo, gas, charged))
    {
      var refund := (initialGas - gas) / 2;
      if refund > counter {
        refund := counter;
      }
      gas := gas + refund;
      ghost var b0 := state.balances;
      ghost var give: seq<Delta> := [];
      if gas != 0 {
        state.AddBalance(Key(range, Main, tx.payer), gas * Gas.GAS_PRICE);
        var fits := pool.AddGas(gas);
        give := [Delta(Key(range, Main, tx.payer), gas * Gas.GAS_PRICE)];
        ApplyOne(b0, give[0]);
      }
      charged := initialGas - gas;
      ghost var b1 := state.balances;
      state.AddBalance(Key(range, Main, feeTo), charged * Gas.GAS_PRICE);
      ghost var fee := Delta(Key(range, Main, feeTo), charged * Gas.GAS_PRICE);
      ApplyOne(b1, fee);
      ApplyConcat(b0, give, [fee]);
    }

    /** The pool gave exactly the gas reported as used, which is the gas consumed less the refund. */
    ghost predicate GasSettled(tx: Tx, pool0: nat, consumed: nat, counter: nat, o: Outcome)
      requires o.Done?
      reads pool
    {
      consumed <= tx.gas && o.used == consumed - Gas.Refund(consumed, counter) && o.used <= tx.gas && pool.gas == pool0 - o.used
    }

    /** The early return: the pool gave all the gas, and none is reported as used. */
    ghost predicate SlippedThrough(tx: Tx, pool0: nat, o: Outcome)
      requires o.Done?
      reads pool
    {
      o == Done(0, false) && pool.gas == pool0 - tx.gas
    }

    /** Money is set aside for every recipient. */
    method SetAside(tx: Tx)
      modifies state`balances
      ensures state.balances == Apply(old(state.balances), Aside(tx.coin, tx.from, Outs(tx)))
    {
      var outs := Outs(tx);
      for i := 0 to |outs|
        invariant state.balances == Apply(old(state.balances), Aside(tx.coin, tx.from, outs[..i]))
      {
        ghost var b := state.balances;
        var x, y := Delta(Key(tx.coin, Withdraw, tx.from), outs[i].amount), Delta(Key(tx.coin, Main, tx.from), 0 - outs[i].amount);
        state.AddBalance(x.key, x.amount);
        state.AddBalance(y.key, y.amount);
        assert outs[..i + 1][..i] == outs[..i];
        ApplyTwo(b, x, y);
        ApplyConcat(old(state.balances), Aside(tx.coin, tx.from, outs[..i]), [x, y]);
      }
      assert outs[..|outs|] == outs;
    }

    /** `SaveTx` and, for revocable transactions, `SetMatrixData`. */
    method SaveRecord(h: Hash, r: Record)
      modifies state
      ensures state.balances == old(state.balances) && state.nonces == old(state.nonces)
      ensures state.View() == Create(old(state.View()), h, r).(balances := state.balances)
    {
      hide Apply, Aside, TreeValid;
      state.live, state.used := state.live[h := r], state.used[h := Made(r, state.block)];
      state.queue := state.queue + [Queued(r.kind, r.time, map[h := r])];
      if r.kind == Revocable {
        state.cache, state.dirty := state.cache[h := r], state.dirty + {h};
      }
    }

    /** The head that all transitions share: checks, gas, intrinsic cost. `None` is a rejection; `Some(false)` is the
        early return for a payload whose cost overflows, which reports success and no gas used. */
    method Begin(tx: Tx) returns (r: Option<bool>)
      requires gas == 0
      modifies this, pool, state`balances
      ensures pool.gas <= old(pool.gas)
      ensures r.Some? ==> pool.gas == old(pool.gas) - tx.gas && initialGas == tx.gas
                          && state.balances == Apply(old(state.balances), Gas.BuyDeltas(tx.coin, tx.payer, tx.gas))
      ensures r.Some? ==> (r.value <==> Gas.PayloadsFit(tx.extra))
      ensures r == Some(true) ==> Gas.CostAll(tx.data, tx.extra) <= tx.gas && gas == tx.gas - Gas.CostAll(tx.data, tx.extra)
      ensures r.Some? ==> tx.from != NO_ADDR && (tx.checkNonce ==> state.GetNonce(tx.coin, tx.from) == tx.nonce)
    {
      var ok := PreCheck(tx);
      if !ok {
        return None;
      }
      if tx.from == NO_ADDR {
        return None;
      }
      var c := Gas.ChargeFor(tx.data, tx.extra);
      match c {
        case Refused => return None;
        case Overflows => return Some(false);
        case Charge(amount) =>
          if gas < amount {
            return None;
          }
          gas := gas - amount;
      }
      return Some(true);
    }

    method BumpNonce(tx: Tx)
      modifies state`nonces
      ensures state.nonces == old(state.nonces)[(tx.coin, tx.from) := old(state.GetNonce(tx.coin, tx.from)) + 1]
    {
      state.nonces := state.nonces[(tx.coin, tx.from) := state.GetNonce(tx.coin, tx.from) + 1];
    }

    /** `CallRevocableNormalTx`. */
    method CallRevocable(tx: Tx, config: Option<seq<CoinConfig>>, counter: nat) returns (o: Outcome)
      requires gas == 0 && pool.gas <= Gas.MAX_U64
      modifies this, pool, state
      ensures o.Done? && Gas.PayloadsFit(tx.extra) ==> GasSettled(tx, old(pool.gas), Gas.CostAll(tx.data, tx.extra), counter, o)
      ensures o.Done? && Gas.PayloadsFit(tx.extra) ==>
                state.View() == Settled(Create(Bought(old(state.View()), tx), tx.hash, RecordOf(tx, Revocable)), tx, config, o.used)
      ensures o.Done? && !Gas.PayloadsFit(tx.extra) ==> SlippedThrough(tx, old(pool.gas), o) && state.View() == Bought(old(state.View()), tx)
    {
      hide Apply, Aside, Gas.Cost, Gas.CostAll, Gas.PayloadsFit, Gas.BuyDeltas, Gas.SettleDeltas, Create, TreeValid;
      var r := Begin(tx);
      if r.None? {
        return Rejected;
      }
      if !r.value {
        return Done(0, false);
      }
      BumpNonce(tx);
      ghost var w := state.View();
      SetAside(tx);
      SaveRecord(tx.hash, RecordOf(tx, Revocable));
      assert state.View() == Create(w, tx.hash, RecordOf(tx, Revocable)) by { CreateBalances(w, tx.hash, RecordOf(tx, Revocable), state.balances); }
      var (feeTo, range) := CoinAddress(tx.coin, config);
      var used := Settle(tx, range, feeTo, counter);
      return Done(used, false);
    }

    /** `CallTimeNormalTx`: the fee is settled before the money is set aside, and nothing enters the data store. */
    method CallTime(tx: Tx, config: Option<seq<CoinConfig>>, counter: nat) returns (o: Outcome)
      requires gas == 0 && pool.gas <= Gas.MAX_U64
      modifies this, pool, state
      ensures o.Done? && Gas.PayloadsFit(tx.extra) ==> GasSettled(tx, old(pool.gas), Gas.CostAll(tx.data, tx.extra), counter, o)
      ensures o.Done? && Gas.PayloadsFit(tx.extra) ==>
                state.View() == Create(Settled(Bought(old(state.View()), tx), tx, config, o.used), tx.hash, RecordOf(tx, Timed))
      ensures o.Done? && !Gas.PayloadsFit(tx.extra) ==> SlippedThrough(tx, old(pool.gas), o) && state.View() == Bought(old(state.View()), tx)
    {
      hide Apply, Aside, Gas.Cost, Gas.CostAll, Gas.PayloadsFit, Gas.BuyDeltas, Gas.SettleDeltas, Create, TreeValid;
      var r := Begin(tx);
      if r.None? {
        return Rejected;
      }
      if !r.value {
        return Done(0, false);
      }
      BumpNonce(tx);
      var (feeTo, range) := CoinAddress(tx.coin, config);
      var used := Settle(tx, range, feeTo, counter);
      ghost var w := state.View();
      SetAside(tx);
      SaveRecord(tx.hash, RecordOf(tx, Timed));
      assert state.View() == Create(w, tx.hash, RecordOf(tx, Timed)) by { CreateBalances(w, tx.hash, RecordOf(tx, Timed), state.balances); }
      return Done(used, false);
    }

    /** One hash of a revert: read the record, and give it back if it is the sender's, revocable and in this coin. */
    method RevertHash(h: Hash, from: Addr, coin: Coin) returns (time: Option<nat>)
      modifies state
      ensures state.View() == RevertOne(old(state.View()), h, from, coin)
      ensures time == if Effective(old(state.View()), h, from, coin) then Some(Get(old(state.View()), h).value.time) else None
    {
      hide Apply, Back, Get, TreeValid;
      if h == NO_HASH {
        return None;
      }
      var g := state.GetMatrixData(h);
      if g.None? {
        return None;
      }
      var r := g.value;
      if r.from != from || r.kind != Revocable || r.coin != coin {
        return None;
      }
      GiveBack(r);
      state.trie := state.trie - {h};
      state.live := state.live - {h};
      state.log := state.log + [Reversal(h, r, from, coin, state.block)];
      return Some(r.time);
    }

    method GiveBack(r: Record)
      modifies state`balances
      ensures state.balances == Apply(old(state.balances), Back(r.coin, r.from, r.outs))
    {
      for i := 0 to |r.outs|
        invariant state.balances == Apply(old(state.balances), Back(r.coin, r.from, r.outs[..i]))
      {
        ghost var b := state.balances;
        var x, y := Delta(Key(r.coin, Main, r.from), r.outs[i].amount), Delta(Key(r.coin, Withdraw, r.from), 0 - r.outs[i].amount);
        state.AddBalance(x.key, x.amount);
        state.AddBalance(y.key, y.amount);
        assert r.outs[..i + 1][..i] == r.outs[..i];
        ApplyTwo(b, x, y);
        ApplyConcat(old(state.balances), Back(r.coin, r.from, r.outs[..i]), [x, y]);
      }
      assert r.outs[..|r.outs|] == r.outs;
    }

    /** The second loop of a revert: every time met is looked up in the index, in some order, and `h` taken out of it. */
    method TakeOutTimes(times: set<nat>, h: Hash) returns (ghost order: seq<nat>)
      modifies state`queue, state`revocable, state`timed
      ensures RevertIndex.Listing(order, times) && state.View() == TakeOutAll(old(state.View()), order, h)
    {
      hide TakeOut;
      var rest := times;
      order := [];
      while rest != {}
        invariant rest <= times && RevertIndex.Listing(order, times - rest) && state.View() == TakeOutAll(old(state.View()), order, h)
        decreases rest
      {
        var t :| t in rest;
        ghost var w := state.View();
        state.GetSaveTx(t, {h});
        OneOut(w, t, h);
        assert (order + [t])[..|order|] == order;
        ListingMore(order, times - rest, t);
        assert times - (rest - {t}) == times - rest + {t};
        order := order + [t];
        rest := rest - {t};
      }
      assert times - rest == times;
    }

    /** `CallRevertNormalTx`: the data and every payload name a hash. The hash that leaves the time index is always the
        last one named. */
    method CallRevert(tx: Tx, toHash: Gas.Bytes -> Hash, config: Option<seq<CoinConfig>>, counter: nat) returns (o: Outcome, ghost order: seq<nat>)
      requires gas == 0 && pool.gas <= Gas.MAX_U64
      modifies this, pool, state
      ensures o.Done? && Gas.PayloadsFit(tx.extra) ==> GasSettled(tx, old(pool.gas), Gas.CostAll(tx.data, tx.extra), counter, o)
      ensures o.Done? && Gas.PayloadsFit(tx.extra) ==>
                var w, hs := Settled(Bought(old(state.View()), tx), tx, config, o.used), HashList(tx, toHash);
                RevertIndex.Listing(order, TimesOf(w, hs, tx.from, tx.coin)) && state.View() == Revert(w, hs, tx.from, tx.coin, order)
      ensures o.Done? && !Gas.PayloadsFit(tx.extra) ==> SlippedThrough(tx, old(pool.gas), o) && state.View() == Bought(old(state.View()), tx)
    {
      hide Apply, Gas.Cost, Gas.CostAll, Gas.PayloadsFit, Gas.BuyDeltas, Gas.SettleDeltas, RevertOne, Effective, TakeOut, TakeOutAll, RevertIndex.Listing, TreeValid;
      order := [];
      var r := Begin(tx);
      if r.None? {
        return Rejected, order;
      }
      if !r.value {
        return Done(0, false), order;
      }
      BumpNonce(tx);
      var hashlist, hash := CollectHashes(tx, toHash);
      var (feeTo, range) := CoinAddress(tx.coin, config);
      var used := Settle(tx, range, feeTo, counter);
      var times := RevertHashes(hashlist, tx.from, tx.coin);
      order := TakeOutTimes(times, hash);
      return Done(used, false), order;
    }

    /** The hashes named; `hash` is left at the last of them. */
    method CollectHashes(tx: Tx, toHash: Gas.Bytes -> Hash) returns (hashlist: seq<Hash>, hash: Hash)
      ensures hashlist == HashList(tx, toHash) && hash == hashlist[|hashlist| - 1]
    {
      hash := toHash(tx.data);
      hashlist := [hash];
      for i := 0 to |tx.extra|
        invariant hashlist == HashList(tx.(extra := tx.extra[..i]), toHash) && hash == hashlist[|hashlist| - 1]
      {
        hash := toHash(tx.extra[i].payload);
        hashlist := hashlist + [hash];
      }
      assert tx.extra[..|tx.extra|] == tx.extra;
    }

    method RevertHashes(hashlist: seq<Hash>, from: Addr, coin: Coin) returns (times: set<nat>)
      modifies state
      ensures state.View() == RevertAll(old(state.View()), hashlist, from, coin)
      ensures times == TimesOf(old(state.View()), hashlist, from, coin)
    {
      hide RevertOne, Effective, Get;
      ghost var w := state.View();
      times := {};
      for i := 0 to |hashlist|
        invariant state.View() == RevertAll(w, hashlist[..i], from, coin) && times == TimesOf(w, hashlist[..i], from, coin)
      {
        assert hashlist[..i + 1][..i] == hashlist[..i];
        AnswersStay(w, hashlist[..i], from, coin, hashlist[i]);
        SameAnswer(w, state.View(), hashlist[i], from, coin);
        var t := RevertHash(hashlist[i], from, coin);
        if t.Some? {
          times := times + {t.value};
        }
      }
      assert hashlist[..|hashlist|] == hashlist;
    }

    /** `CallNormalTx`: one call of the virtual machine per recipient, until one fails. */
    method CallNormal(tx: Tx, evm: Evm, config: Option<seq<CoinConfig>>, counter: nat) returns (o: Outcome, ghost after: EvmResult)
      requires gas == 0 && pool.gas <= Gas.MAX_U64
      requires forall i, b, g :: Conserving(b, g, evm(i, b, g))
      modifies this, pool, state
      ensures o.Done? && Gas.PayloadsFit(tx.extra) ==>
                && after.error != InsufficientBalance && (o.failed <==> after.error == OtherError)
                && Gas.CostAll(tx.data, tx.extra) <= tx.gas
                && Conserving(Bought(old(state.View()), tx).balances, tx.gas - Gas.CostAll(tx.data, tx.extra), after)
                && GasSettled(tx, old(pool.gas), tx.gas - after.gas, counter, o)
                && state.View() == Settled(old(state.View()).(balances := after.balances), tx, config, o.used)
      ensures o.Done? && !Gas.PayloadsFit(tx.extra) ==> SlippedThrough(tx, old(pool.gas), o) && state.View() == Bought(old(state.View()), tx)
    {
      hide Apply, Gas.Cost, Gas.CostAll, Gas.PayloadsFit, Gas.BuyDeltas, Gas.SettleDeltas, Conserving, CoinTotal;
      after := EvmResult(state.balances, 0, NoError);
      var r := Begin(tx);
      if r.None? {
        return Rejected, after;
      }
      if !r.value {
        return Done(0, false), after;
      }
      if tx.to.Some? {
        state.nonces := state.nonces[(tx.coin, tx.from) := tx.nonce + 1];
      }
      ghost var b0, g0 := state.balances, gas;
      var error := RunEvm(tx, evm);
      if error == InsufficientBalance {
        return Rejected, after;
      }
      after := EvmResult(state.balances, gas, error);
      var (feeTo, range) := CoinAddress(tx.coin, config);
      assert after.gas <= g0 by { ConservingGas(b0, g0, after); }
      var used := Settle(tx, range, feeTo, counter);
      return Done(used, error != NoError), after;
    }

    method RunEvm(tx: Tx, evm: Evm) returns (error: EvmError)
      requires forall i, b, g :: Conserving(b, g, evm(i, b, g))
      modifies this`gas, state`balances
      ensures Conserving(old(state.balances), old(gas), EvmResult(state.balances, gas, error))
    {
      hide CoinTotal;
      var r := evm(0, state.balances, gas);
      assert Conserving(old(state.balances), old(gas), r);
      state.balances, gas, error := r.balances, r.gas, r.error;
      var i := 0;
      while i < |tx.extra| && error == NoError
        invariant 0 <= i <= |tx.extra| && Conserving(old(state.balances), old(gas), EvmResult(state.balances, gas, error))
      {
        r := evm(i + 1, state.balances, gas);
        assert Conserving(state.balances, gas, r);
        state.balances, gas, error := r.balances, r.gas, r.error;
        i := i + 1;
      }
    }
  }

  lemma {:induction false} ApplyTwo(b: Balances, x: Delta, y: Delta)
    ensures Apply(b, [x, y]) == Add(Add(b, x), y)
  {
    assert [x, y][..1] == [x];
    ApplyOne(b, x);
  }

  /** The hashes a revert names. */
  function HashList(tx: Tx, toHash: Gas.Bytes -> Hash): (hs: seq<Hash>)
    ensures hs != []
  {
    [toHash(tx.data)] + seq<Hash>(|tx.extra|, i requires 0 <= i < |tx.extra| => toHash(tx.extra[i].payload))
  }

  lemma {:induction false} OneOut(w: World, t: nat, h: Hash)
    ensures Releases.TakeOutSet(w, t, {h}) == TakeOut(w, t, h)
  {
    hide Commit, Contents, Erase;
  }

  lemma {:induction false} ListingMore(order: seq<nat>, times: set<nat>, t: nat)
    requires RevertIndex.Listing(order, times) && t !in times
    ensures RevertIndex.Listing(order + [t], times + {t})
  {
  }

  lemma {:induction false} ConservingGas(b: Balances, gas: nat, r: EvmResult)
    requires Conserving(b, gas, r)
    ensures r.gas <= gas
  {
  }

  // ----- What follows for gas and coins -----

  /** A transition conserves its coin if and only if the fee is paid in that coin, provided what it does in between
      does: buying gas, settling it, and moves that add up to nothing. */
  lemma {:induction false} TransitionConserves(b: Balances, moved: Balances, tx: Tx, config: Option<seq<CoinConfig>>, used: nat)
    requires used <= tx.gas
    requires CoinTotal(moved, tx.coin) == CoinTotal(Apply(b, Gas.BuyDeltas(tx.coin, tx.payer, tx.gas)), tx.coin)
    ensures var (feeTo, range) := CoinAddress(tx.coin, config);
            CoinTotal(Apply(moved, Gas.SettleDeltas(range, tx.payer, feeTo, tx.gas - used, used)), tx.coin) == CoinTotal(b, tx.coin)
            <==> range == tx.coin || tx.gas == 0
  {
    var (feeTo, range) := CoinAddress(tx.coin, config);
    hide CoinTotal, CoinSum, Apply, Gas.BuyDeltas, Gas.SettleDeltas;
    ApplyTotal(b, Gas.BuyDeltas(tx.coin, tx.payer, tx.gas), tx.coin);
    ApplyTotal(moved, Gas.SettleDeltas(range, tx.payer, feeTo, tx.gas - used, used), tx.coin);
    Gas.FeeConserves(tx.coin, range, tx.payer, feeTo, tx.gas - used, used);
  }

  /** Setting money aside and giving it back moves it between sub-accounts only. */
  lemma {:induction false} AsideConserves(b: Balances, coin: Coin, from: Addr, outs: seq<Out>, c: Coin)
    ensures CoinTotal(Apply(b, Aside(coin, from, outs)), c) == CoinTotal(b, c)
    ensures CoinTotal(Apply(b, Back(coin, from, outs)), c) == CoinTotal(b, c)
  {
    hide CoinTotal, Apply;
    ApplyTotal(b, Aside(coin, from, outs), c);
    ApplyTotal(b, Back(coin, from, outs), c);
    AsideSums(coin, from, outs, Key(coin, Main, from), c);
    BackSums(coin, from, outs, Key(coin, Main, from), c);
  }

  lemma {:induction false} RevertsConserve(w: World, hs: seq<Hash>, from: Addr, coin: Coin, c: Coin)
    ensures CoinTotal(RevertAll(w, hs, from, coin).balances, c) == CoinTotal(w.balances, c)
    decreases |hs|
  {
    hide CoinTotal, Apply, Back;
    if hs != [] {
      var n := |hs| - 1;
      var u := RevertAll(w, hs[..n], from, coin);
      RevertsConserve(w, hs[..n], from, coin, c);
      if Effective(u, hs[n], from, coin) {
        var r := Get(u, hs[n]).value;
        AsideConserves(u.balances, r.coin, r.from, r.outs, c);
      }
    }
  }

  ghost predicate FeeInCoin(tx: Tx, config: Option<seq<CoinConfig>>) {
    CoinAddress(tx.coin, config).1 == tx.coin
  }

  lemma {:induction false} SettledConserves(w: World, v: World, tx: Tx, config: Option<seq<CoinConfig>>, used: nat)
    requires used <= tx.gas && CoinTotal(v.balances, tx.coin) == CoinTotal(Bought(w, tx).balances, tx.coin)
    ensures CoinTotal(Settled(v, tx, config, used).balances, tx.coin) == CoinTotal(w.balances, tx.coin) <==> FeeInCoin(tx, config) || tx.gas == 0
  {
    hide CoinTotal, Apply, Gas.BuyDeltas, Gas.SettleDeltas;
    TransitionConserves(w.balances, v.balances, tx, config, used);
  }

  /** Every successful revocable, timed and revert transition conserves its coin over all addresses and sub-accounts
      if and only if the fee coin range is the transaction's own coin (a successful one has bought gas). */
  lemma {:induction false} TransfersConserve(w: World, tx: Tx, config: Option<seq<CoinConfig>>, used: nat, hs: seq<Hash>, order: seq<nat>)
    requires used <= tx.gas && hs != []
    ensures var same := FeeInCoin(tx, config) || tx.gas == 0; var total := CoinTotal(w.balances, tx.coin);
            && (CoinTotal(Settled(Create(Bought(w, tx), tx.hash, RecordOf(tx, Revocable)), tx, config, used).balances, tx.coin) == total <==> same)
            && (CoinTotal(Create(Settled(Bought(w, tx), tx, config, used), tx.hash, RecordOf(tx, Timed)).balances, tx.coin) == total <==> same)
            && (CoinTotal(Revert(Settled(Bought(w, tx), tx, config, used), hs, tx.from, tx.coin, order).balances, tx.coin) == total <==> same)
  {
    var b, r, t := Bought(w, tx), RecordOf(tx, Revocable), RecordOf(tx, Timed);
    var s := Settled(b, tx, config, used);
    var x, y := Create(b, tx.hash, r), Create(s, tx.hash, t);
    assert x.balances == Apply(b.balances, Aside(r.coin, r.from, r.outs)) && y.balances == Apply(s.balances, Aside(t.coin, t.from, t.outs));
    hide CoinTotal, Apply, Aside, Create, Bought, Settled, RevertAll, TakeOutAll;
    TakeOutStore(RevertAll(s, hs, tx.from, tx.coin), order, hs[|hs| - 1]);
    AsideConserves(b.balances, r.coin, r.from, r.outs, tx.coin);
    SettledConserves(w, x, tx, config, used);
    SettledConserves(w, b, tx, config, used);
    AsideConserves(s.balances, t.coin, t.from, t.outs, tx.coin);
    RevertsConserve(s, hs, tx.from, tx.coin, tx.coin);
  }

  /** A successful normal transition conserves its coin on the same condition, given a virtual machine that does. */
  lemma {:induction false} NormalConserves(w: World, tx: Tx, config: Option<seq<CoinConfig>>, used: nat, after: EvmResult, gas: nat)
    requires used <= tx.gas && Conserving(Bought(w, tx).balances, gas, after)
    ensures CoinTotal(Settled(w.(balances := after.balances), tx, config, used).balances, tx.coin) == CoinTotal(w.balances, tx.coin)
            <==> FeeInCoin(tx, config) || tx.gas == 0
  {
    hide CoinTotal, Bought, Settled;
    SettledConserves(w, w.(balances := after.balances), tx, config, used);
  }
}
