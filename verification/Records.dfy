/**
  Revocable and timed transfers: money goes to the sender's Withdraw sub-account and a record of it is
  kept, revocable records also in the state's data store. A revert gives the money of revocable records
  back. The data store answers from a read cache that a deletion does not touch.
 */
module Records {
  import opened Ledger

  type Hash = nat

  const NO_HASH: Hash := 0

  datatype Kind = Revocable | Timed

  datatype Out = Out(addr: Addr, amount: nat)

  datatype Record = Record(from: Addr, coin: Coin, time: nat, kind: Kind, outs: seq<Out>)

  function Total(outs: seq<Out>): nat {
    if outs == [] then 0 else Total(outs[..|outs| - 1]) + outs[|outs| - 1].amount
  }

  /** Setting the money of a record aside. */
  function Aside(coin: Coin, from: Addr, outs: seq<Out>): seq<Delta> {
    if outs == [] then []
    else
      var a := outs[|outs| - 1].amount;
      Aside(coin, from, outs[..|outs| - 1]) + [Delta(Key(coin, Withdraw, from), a), Delta(Key(coin, Main, from), 0 - a)]
  }

  /** Giving the money of a record back. */
  function Back(coin: Coin, from: Addr, outs: seq<Out>): seq<Delta> {
    if outs == [] then []
    else
      var a := outs[|outs| - 1].amount;
      Back(coin, from, outs[..|outs| - 1]) + [Delta(Key(coin, Main, from), a), Delta(Key(coin, Withdraw, from), 0 - a)]
  }

  lemma {:induction false} PairSums(x: Delta, y: Delta, k: Key, c: Coin)
    ensures KeySum([x, y], k) == (if x.key == k then x.amount else 0) + (if y.key == k then y.amount else 0)
    ensures CoinSum([x, y], c) == (if x.key.coin == c then x.amount else 0) + (if y.key.coin == c then y.amount else 0)
  {
    assert [x, y] == [x] + [y];
    SumsConcat([x], [y], k, c);
    SumsOne(x, k, c);
    SumsOne(y, k, c);
  }

  /** Both move exactly the total between the two sub-accounts, and no coin is made or lost. */
  lemma {:induction false} AsideSums(coin: Coin, from: Addr, outs: seq<Out>, k: Key, c: Coin)
    ensures CoinSum(Aside(coin, from, outs), c) == 0
    ensures KeySum(Aside(coin, from, outs), k)
            == if k == Key(coin, Withdraw, from) then Total(outs) else if k == Key(coin, Main, from) then 0 - Total(outs) else 0
    decreases |outs|
  {
    if outs != [] {
      var n := |outs| - 1;
      var x, y := Delta(Key(coin, Withdraw, from), outs[n].amount), Delta(Key(coin, Main, from), 0 - outs[n].amount);
      AsideSums(coin, from, outs[..n], k, c);
      PairSums(x, y, k, c);
      SumsConcat(Aside(coin, from, outs[..n]), [x, y], k, c);
    }
  }

  lemma {:induction false} BackSums(coin: Coin, from: Addr, outs: seq<Out>, k: Key, c: Coin)
    ensures CoinSum(Back(coin, from, outs), c) == 0
    ensures KeySum(Back(coin, from, outs), k)
            == if k == Key(coin, Main, from) then Total(outs) else if k == Key(coin, Withdraw, from) then 0 - Total(outs) else 0
    decreases |outs|
  {
    if outs != [] {
      var n := |outs| - 1;
      var x, y := Delta(Key(coin, Main, from), outs[n].amount), Delta(Key(coin, Withdraw, from), 0 - outs[n].amount);
      BackSums(coin, from, outs[..n], k, c);
      PairSums(x, y, k, c);
      SumsConcat(Back(coin, from, outs[..n]), [x, y], k, c);
    }
  }

  // ----- The sum of live records -----

  type Live = map<Hash, Record>

  function Owes(r: Record, coin: Coin, addr: Addr): nat {
    if r.coin == coin && r.from == addr then Total(r.outs) else 0
  }

  ghost function OwedOver(live: Live, hs: set<Hash>, coin: Coin, addr: Addr): int
    requires hs <= live.Keys
  {
    if hs == {} then 0
    else
      var h :| h in hs;
      Owes(live[h], coin, addr) + OwedOver(live, hs - {h}, coin, addr)
  }

  /** The sum of an address's live records in a coin. */
  ghost function Owed(live: Live, coin: Coin, addr: Addr): int {
    OwedOver(live, live.Keys, coin, addr)
  }

  lemma {:induction false} OwedPick(live: Live, hs: set<Hash>, h: Hash, coin: Coin, addr: Addr)
    requires hs <= live.Keys && h in hs
    ensures OwedOver(live, hs, coin, addr) == Owes(live[h], coin, addr) + OwedOver(live, hs - {h}, coin, addr)
    decreases |hs|
  {
    var j :| j in hs && OwedOver(live, hs, coin, addr) == Owes(live[j], coin, addr) + OwedOver(live, hs - {j}, coin, addr);
    if j != h {
      OwedPick(live, hs - {j}, h, coin, addr);
      OwedPick(live, hs - {h}, j, coin, addr);
      assert hs - {j} - {h} == hs - {h} - {j};
    }
  }

  lemma {:induction false} OwedSame(live: Live, more: Live, hs: set<Hash>, coin: Coin, addr: Addr)
    requires hs <= live.Keys && hs <= more.Keys && forall h <- hs :: live[h] == more[h]
    ensures OwedOver(live, hs, coin, addr) == OwedOver(more, hs, coin, addr)
    decreases |hs|
  {
    if hs != {} {
      var h :| h in hs;
      OwedPick(live, hs, h, coin, addr);
      OwedPick(more, hs, h, coin, addr);
      OwedSame(live, more, hs - {h}, coin, addr);
    }
  }

  lemma {:induction false} OwedAdd(live: Live, h: Hash, r: Record, coin: Coin, addr: Addr)
    requires h !in live
    ensures Owed(live[h := r], coin, addr) == Owed(live, coin, addr) + Owes(r, coin, addr)
  {
    var more := live[h := r];
    OwedPick(more, more.Keys, h, coin, addr);
    assert more.Keys - {h} == live.Keys;
    OwedSame(live, more, live.Keys, coin, addr);
  }

  lemma {:induction false} OwedDrop(live: Live, h: Hash, coin: Coin, addr: Addr)
    requires h in live
    ensures Owed(live - {h}, coin, addr) == Owed(live, coin, addr) - Owes(live[h], coin, addr)
  {
    var less := live - {h};
    OwedPick(live, live.Keys, h, coin, addr);
    assert less.Keys == live.Keys - {h};
    OwedSame(live, less, less.Keys, coin, addr);
  }
}
