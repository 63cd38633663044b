/**
  The release of due revocable records at the start of a block: every record that the time index
  holds for a time that has come is paid out to its recipients, whether or not it was reverted.
 */
module Releases {
  import opened Ledger
  import opened Options
  import opened Records
  import opened RevertIndex
  import opened Reverts
  import opened TimeIndex

  // ----- Paying out -----

  function Paid(r: Record, o: Out): seq<Delta> {
    [Delta(Key(r.coin, Withdraw, r.from), 0 - o.amount), Delta(Key(r.coin, Main, o.addr), o.amount)]
  }

  /** The recipients one after the other; one whose amount the Withdraw account does not cover gets nothing. */
  function PayOuts(b: Balances, r: Record, outs: seq<Out>): Balances {
    if outs == [] then b
    else
      var c, o := PayOuts(b, r, outs[..|outs| - 1]), outs[|outs| - 1];
      if Bal(c, Key(r.coin, Withdraw, r.from)) >= o.amount then Apply(c, Paid(r, o)) else c
  }

  /** A time that has come: the records held for it, and the order in which they are met. */
  datatype Item = Item(time: nat, data: Live, hashes: seq<Hash>)

  function PayAll(b: Balances, data: Live, hs: seq<Hash>): Balances
    requires forall h <- hs :: h in data
  {
    if hs == [] then b
    else
      var n := |hs| - 1;
      var c, r := PayAll(b, data, hs[..n]), data[hs[n]];
      if r.kind == Revocable then PayOuts(c, r, r.outs) else c
  }

  /** The hashes that are taken out of the index and the trie. */
  function Gone(x: Item): set<Hash> {
    set h | h in x.hashes && h in x.data && x.data[h].kind == Revocable
  }

  /** `GetSaveTx` with a set of hashes. */
  function TakeOutSet(w: World, time: nat, xs: set<Hash>): World {
    if time !in Contents(w.revocable) then w
    else
      Commit(w.(revocable := Erase(w.revocable, time), queue := w.queue + [Queued(Revocable, time, Contents(w.revocable)[time] - xs)]))
  }

  function ReleaseTime(w: World, x: Item): World
    requires forall h <- x.hashes :: h in x.data
  {
    TakeOutSet(w.(balances := PayAll(w.balances, x.data, x.hashes), trie := w.trie - Gone(x)), x.time, Gone(x))
  }

  function Release(w: World, xs: seq<Item>): World
    requires forall i :: 0 <= i < |xs| ==> forall h <- xs[i].hashes :: h in xs[i].data
  {
    if xs == [] then w else ReleaseTime(Release(w, xs[..|xs| - 1]), xs[|xs| - 1])
  }

  /** All that is held for one time, in some order. */
  ghost predicate Whole(x: Item, held: Times) {
    && x.time in held && x.data == held[x.time]
    && (forall h :: h in x.hashes <==> h in x.data)
    && (forall i, j :: 0 <= i < j < |x.hashes| ==> x.hashes[i] != x.hashes[j])
  }

  /** Some times, the latest first, each with all that is held for it. */
  ghost predicate Picked(xs: seq<Item>, held: Times) {
    && (forall i :: 0 <= i < |xs| ==> Whole(xs[i], held))
    && (forall i, j :: 0 <= i < j < |xs| ==> xs[i].time > xs[j].time)
  }

  /** The times that have come. */
  ghost predicate DueItems(xs: seq<Item>, held: Times, key: nat) {
    && Picked(xs, held)
    && (forall t <- held :: t <= key <==> exists i :: 0 <= i < |xs| && xs[i].time == t)
  }

  ghost predicate AllRevocable(held: Times) {
    forall t <- held :: forall h <- held[t] :: held[t][h].kind == Revocable
  }

  ghost function TimesIn(xs: seq<Item>): set<nat> {
    set i | 0 <= i < |xs| :: xs[i].time
  }

  ghost function GoneIn(xs: seq<Item>): set<Hash> {
    if xs == [] then {} else GoneIn(xs[..|xs| - 1]) + Gone(xs[|xs| - 1])
  }

  ghost function PaidBy(b: Balances, xs: seq<Item>): Balances
    requires forall i :: 0 <= i < |xs| ==> forall h <- xs[i].hashes :: h in xs[i].data
  {
    if xs == [] then b else PayAll(PaidBy(b, xs[..|xs| - 1]), xs[|xs| - 1].data, xs[|xs| - 1].hashes)
  }

  // ----- Going through the times -----

  /** Each of the hashes once. */
  ghost predicate CompleteUpTo(x: Item, hs: set<Hash>) {
    && (forall h :: h in x.hashes <==> h in hs) && hs <= x.data.Keys
    && (forall i, j :: 0 <= i < j < |x.hashes| ==> x.hashes[i] != x.hashes[j])
  }

  ghost predicate Complete(x: Item) {
    CompleteUpTo(x, x.data.Keys)
  }

  ghost predicate AllComplete(xs: seq<Item>) {
    forall i :: 0 <= i < |xs| ==> Complete(xs[i])
  }

  lemma {:induction false} CompleteMore(x: Item, hs: set<Hash>, h: Hash)
    requires CompleteUpTo(x, hs) && h in x.data && h !in hs
    ensures CompleteUpTo(x.(hashes := x.hashes + [h]), hs + {h})
    ensures Gone(x.(hashes := x.hashes + [h])) == Gone(x) + if x.data[h].kind == Revocable then {h} else {}
  {
  }

  /** All times that have come but the earlier ones that are left. */
  ghost predicate PickedDown(xs: seq<Item>, held: Times, key: nat, rest: set<nat>) {
    && Picked(xs, held) && AllComplete(xs)
    && (forall t <- held :: t <= key <==> t in rest || exists i :: 0 <= i < |xs| && xs[i].time == t)
    && (forall i :: 0 <= i < |xs| ==> forall t <- rest :: t < xs[i].time)
  }

  lemma {:induction false} PickedMore(xs: seq<Item>, held: Times, key: nat, rest: set<nat>, x: Item)
    requires PickedDown(xs, held, key, rest) && rest <= held.Keys && x.time in rest && (forall u <- rest :: u <= x.time)
    requires x.data == held[x.time] && Complete(x)
    ensures PickedDown(xs + [x], held, key, rest - {x.time})
  {
    var more := xs + [x];
    assert Whole(x, held);
    hide Whole, Complete;
    assert forall i | 0 <= i < |xs| :: more[i] == xs[i];
    assert more[|xs|] == x;
    forall t <- held ensures t <= key <==> t in rest - {x.time} || exists i :: 0 <= i < |more| && more[i].time == t {
      if i :| 0 <= i < |xs| && xs[i].time == t {
        assert more[i].time == t;
      }
    }
  }

  lemma {:induction false} PickedAll(xs: seq<Item>, held: Times, key: nat)
    requires PickedDown(xs, held, key, {})
    ensures DueItems(xs, held, key) && AllComplete(xs)
  {
    hide Picked;
  }

  // ----- What is taken out -----

  lemma {:induction false} PickedPart(xs: seq<Item>, held: Times, n: nat)
    requires Picked(xs, held) && n <= |xs|
    ensures Picked(xs[..n], held)
  {
    hide Whole;
    assert forall i | 0 <= i < n :: xs[..n][i] == xs[i];
  }

  lemma {:induction false} TimesMore(xs: seq<Item>)
    requires xs != []
    ensures TimesIn(xs) == TimesIn(xs[..|xs| - 1]) + {xs[|xs| - 1].time}
  {
    var n := |xs| - 1;
    forall t | t in TimesIn(xs[..n]) ensures t in TimesIn(xs) {
      var i :| 0 <= i < n && xs[..n][i].time == t;
      assert xs[i].time == t;
    }
    forall t | t in TimesIn(xs) ensures t in TimesIn(xs[..n]) || t == xs[n].time {
      var i :| 0 <= i < |xs| && xs[i].time == t;
      if i < n {
        assert xs[..n][i].time == t;
      }
    }
  }

  /** Taking all of a time out, when no entry waits, erases the time. */
  lemma {:induction false} OutWhole(w: World, time: nat, xs: set<Hash>)
    requires w.queue == [] && time in Contents(w.revocable) && Contents(w.revocable)[time].Keys <= xs
    ensures TakeOutSet(w, time, xs) == w.(revocable := Erase(w.revocable, time))
  {
    var rest := Contents(w.revocable)[time] - xs;
    assert rest == map[];
    var tree, q := Erase(w.revocable, time), [Queued(Revocable, time, rest)];
    assert w.queue + q == q && q[..0] == [];
    hide Contents, Erase, Enter, TreeValid;
    assert Flush(tree, [], Revocable) == tree && Flush(w.timed, [], Timed) == w.timed;
    assert Flush(tree, q, Revocable) == tree && Flush(w.timed, q, Timed) == w.timed;
  }

  lemma {:induction false} ReleaseIs(w: World, xs: seq<Item>)
    requires w.queue == [] && AllRevocable(Contents(w.revocable)) && Picked(xs, Contents(w.revocable))
    ensures var v := Release(w, xs);
            && v == w.(balances := PaidBy(w.balances, xs), trie := w.trie - GoneIn(xs), revocable := v.revocable)
            && Contents(v.revocable) == Contents(w.revocable) - TimesIn(xs)
    decreases |xs|
  {
    hide TreeValid, Contents, Erase, PayAll, Picked, AllRevocable, TakeOutSet, Gone;
    var held := Contents(w.revocable);
    if xs == [] {
      assert held - TimesIn(xs) == held;
    } else {
      hide TimesIn;
      var n := |xs| - 1;
      var x := xs[n];
      PickedPart(xs, held, n);
      ReleaseIs(w, xs[..n]);
      TimesMore(xs);
      LastPicked(xs, held);
      var u := Release(w, xs[..n]);
      OutWhole(u.(balances := PayAll(u.balances, x.data, x.hashes), trie := u.trie - Gone(x)), x.time, Gone(x));
      EraseContents(u.revocable, x.time);
    }
  }

  lemma {:induction false} LastPicked(xs: seq<Item>, held: Times)
    requires xs != [] && Picked(xs, held) && AllRevocable(held)
    ensures var n := |xs| - 1;
            && xs[n].time in held && xs[n].time !in TimesIn(xs[..n]) && Gone(xs[n]) == held[xs[n].time].Keys
            && (forall i :: 0 <= i < |xs| ==> forall h <- xs[i].hashes :: h in xs[i].data)
  {
    var n := |xs| - 1;
    assert Whole(xs[n], held);
    WholeGone(xs[n], held);
    hide Gone, AllRevocable;
    assert forall i | 0 <= i < n :: xs[..n][i] == xs[i];
  }

  lemma {:induction false} WholeGone(x: Item, held: Times)
    requires Whole(x, held) && AllRevocable(held)
    ensures Gone(x) == x.data.Keys == held[x.time].Keys
  {
  }

  /** A hash is released if and only if the index holds it for a time that has come; afterwards the index holds what was
      held for later times. */
  lemma {:induction false} ReleasedIff(w: World, xs: seq<Item>, key: nat, h: Hash)
    requires w.queue == [] && AllRevocable(Contents(w.revocable)) && DueItems(xs, Contents(w.revocable), key)
    ensures h in GoneIn(xs) <==> HeldDue(Contents(w.revocable), key, h)
    ensures var v := Release(w, xs);
            v.trie == w.trie - GoneIn(xs) && Contents(v.revocable) == map t | t in Contents(w.revocable) && t > key :: Contents(w.revocable)[t]
  {
    hide Contents, TreeValid, Release, HeldDue, AllRevocable, GoneIn;
    ReleaseIs(w, xs);
    DueTimes(xs, Contents(w.revocable), key);
    GoneDue(xs, Contents(w.revocable), key, h);
  }

  lemma {:induction false} DueTimes(xs: seq<Item>, held: Times, key: nat)
    requires DueItems(xs, held, key)
    ensures held - TimesIn(xs) == map t | t in held && t > key :: held[t]
  {
    hide Picked;
    forall t <- held ensures t in TimesIn(xs) <==> t <= key {
      if t in TimesIn(xs) {
        var i :| 0 <= i < |xs| && xs[i].time == t;
      }
    }
  }

  lemma {:induction false} GoneDue(xs: seq<Item>, held: Times, key: nat, h: Hash)
    requires DueItems(xs, held, key) && AllRevocable(held)
    ensures h in GoneIn(xs) <==> HeldDue(held, key, h)
  {
    hide GoneIn, Gone, AllRevocable;
    GoneIff(xs, held, h);
    if h in GoneIn(xs) {
      var i :| 0 <= i < |xs| && h in Gone(xs[i]);
      assert Whole(xs[i], held);
      WholeGone(xs[i], held);
      assert At(held, xs[i].time, h).Some?;
    }
    if HeldDue(held, key, h) {
      var t: nat :| t <= key && At(held, t, h).Some?;
      var i :| 0 <= i < |xs| && xs[i].time == t;
      assert Whole(xs[i], held);
      WholeGone(xs[i], held);
    }
  }

  ghost predicate HeldDue(held: Times, key: nat, h: Hash) {
    exists t: nat :: t <= key && At(held, t, h).Some?
  }

  lemma {:induction false} GoneIff(xs: seq<Item>, held: Times, h: Hash)
    ensures h in GoneIn(xs) <==> exists i :: 0 <= i < |xs| && h in Gone(xs[i])
    decreases |xs|
  {
    hide Gone;
    if xs != [] {
      var n := |xs| - 1;
      GoneIff(xs[..n], held, h);
      if h in GoneIn(xs[..n]) {
        var i :| 0 <= i < n && h in Gone(xs[..n][i]);
        assert h in Gone(xs[i]);
      }
      if i :| 0 <= i < |xs| && h in Gone(xs[i]) {
        if i < n {
          assert h in Gone(xs[..n][i]);
        }
      }
    }
  }

  // ----- What is paid -----

  /** What outputs give to an address. */
  function ToAddr(outs: seq<Out>, a: Addr): nat {
    if outs == [] then 0 else ToAddr(outs[..|outs| - 1], a) + if outs[|outs| - 1].addr == a then outs[|outs| - 1].amount else 0
  }

  /** What records give to an address. */
  function Received(data: Live, hs: seq<Hash>, coin: Coin, a: Addr): nat
    requires forall h <- hs :: h in data
  {
    if hs == [] then 0
    else Received(data, hs[..|hs| - 1], coin, a) + var r := data[hs[|hs| - 1]]; if r.coin == coin then ToAddr(r.outs, a) else 0
  }

  lemma {:induction false} PaidSums(r: Record, o: Out, k: Key, c: Coin)
    ensures CoinSum(Paid(r, o), c) == 0
    ensures KeySum(Paid(r, o), k)
            == if k == Key(r.coin, Withdraw, r.from) then 0 - o.amount else if k == Key(r.coin, Main, o.addr) then o.amount else 0
  {
    PairSums(Paid(r, o)[0], Paid(r, o)[1], k, c);
  }

  /** Paying out makes and loses no coin, whatever the balances. */
  lemma {:induction false} PayConserves(b: Balances, r: Record, outs: seq<Out>, c: Coin)
    ensures CoinTotal(PayOuts(b, r, outs), c) == CoinTotal(b, c)
    decreases |outs|
  {
    hide Apply, CoinTotal, Paid;
    if outs != [] {
      var n := |outs| - 1;
      PayConserves(b, r, outs[..n], c);
      ApplyTotal(PayOuts(b, r, outs[..n]), Paid(r, outs[n]), c);
      PaidSums(r, outs[n], Key(c, Main, 0), c);
    }
  }

  lemma {:induction false} PayAllConserves(b: Balances, data: Live, hs: seq<Hash>, c: Coin)
    requires forall h <- hs :: h in data
    ensures CoinTotal(PayAll(b, data, hs), c) == CoinTotal(b, c)
    decreases |hs|
  {
    hide CoinTotal, PayOuts;
    if hs != [] {
      var n := |hs| - 1;
      PayAllConserves(b, data, hs[..n], c);
      PayConserves(PayAll(b, data, hs[..n]), data[hs[n]], data[hs[n]].outs, c);
    }
  }

  /** A release makes and loses no coin. */
  lemma {:induction false} ReleaseConserves(b: Balances, xs: seq<Item>, c: Coin)
    requires forall i :: 0 <= i < |xs| ==> forall h <- xs[i].hashes :: h in xs[i].data
    ensures CoinTotal(PaidBy(b, xs), c) == CoinTotal(b, c)
    decreases |xs|
  {
    hide CoinTotal, PayAll;
    if xs != [] {
      var n := |xs| - 1;
      ReleaseConserves(b, xs[..n], c);
      PayAllConserves(PaidBy(b, xs[..n]), xs[n].data, xs[n].hashes, c);
    }
  }

  /** With enough in the Withdraw account every recipient is paid. */
  lemma {:induction false} PayFull(b: Balances, r: Record, outs: seq<Out>, k: Key)
    requires Bal(b, Key(r.coin, Withdraw, r.from)) >= Total(outs)
    ensures Bal(PayOuts(b, r, outs), k)
            == Bal(b, k) + if k == Key(r.coin, Withdraw, r.from) then 0 - Total(outs)
                           else if k.sub == Main && k.coin == r.coin then ToAddr(outs, k.addr) else 0
    decreases |outs|
  {
    hide Apply, Paid, Bal;
    if outs != [] {
      var n := |outs| - 1;
      var from := Key(r.coin, Withdraw, r.from);
      PayFull(b, r, outs[..n], k);
      PayFull(b, r, outs[..n], from);
      ApplyBal(PayOuts(b, r, outs[..n]), Paid(r, outs[n]), k);
      PaidSums(r, outs[n], k, r.coin);
    }
  }

  /** Withdraw balances are the sums of the records. */
  ghost predicate Covers(b: Balances, live: Live) {
    forall coin, addr :: Bal(b, Key(coin, Withdraw, addr)) == Owed(live, coin, addr)
  }

  lemma {:induction false} OwedNatural(live: Live, hs: set<Hash>, coin: Coin, addr: Addr)
    requires hs <= live.Keys
    ensures OwedOver(live, hs, coin, addr) >= 0
    decreases |hs|
  {
    if hs != {} {
      var h :| h in hs;
      OwedPick(live, hs, h, coin, addr);
      OwedNatural(live, hs - {h}, coin, addr);
    }
  }

  /** One record paid out of accounts that cover all records. */
  lemma {:induction false} PayCovered(b: Balances, live: Live, h: Hash)
    requires Covers(b, live) && h in live
    ensures var r := live[h];
            && Covers(PayOuts(b, r, r.outs), live - {h})
            && forall coin, a :: Bal(PayOuts(b, r, r.outs), Key(coin, Main, a)) == Bal(b, Key(coin, Main, a)) + if coin == r.coin then ToAddr(r.outs, a) else 0
  {
    var r := live[h];
    OwedDrop(live, h, r.coin, r.from);
    OwedNatural(live - {h}, (live - {h}).Keys, r.coin, r.from);
    assert Bal(b, Key(r.coin, Withdraw, r.from)) >= Total(r.outs);
    hide PayOuts, Bal, Owed, Total, ToAddr;
    forall coin, addr ensures Bal(PayOuts(b, r, r.outs), Key(coin, Withdraw, addr)) == Owed(live - {h}, coin, addr) {
      PayFull(b, r, r.outs, Key(coin, Withdraw, addr));
      OwedDrop(live, h, coin, addr);
    }
    forall coin, a ensures Bal(PayOuts(b, r, r.outs), Key(coin, Main, a)) == Bal(b, Key(coin, Main, a)) + if coin == r.coin then ToAddr(r.outs, a) else 0 {
      PayFull(b, r, r.outs, Key(coin, Main, a));
    }
  }

  ghost function Named(hs: seq<Hash>): set<Hash> {
    set h | h in hs
  }

  lemma {:induction false} PayAllCovered(b: Balances, live: Live, data: Live, hs: seq<Hash>, coin: Coin, a: Addr)
    requires Covers(b, live) && (forall h <- hs :: h in data && h in live && live[h] == data[h] && data[h].kind == Revocable)
    requires forall i, j :: 0 <= i < j < |hs| ==> hs[i] != hs[j]
    ensures Covers(PayAll(b, data, hs), live - Named(hs))
    ensures Bal(PayAll(b, data, hs), Key(coin, Main, a)) == Bal(b, Key(coin, Main, a)) + Received(data, hs, coin, a)
    decreases |hs|
  {
    hide Covers, PayOuts, Bal, ToAddr;
    if hs == [] {
      assert live - Named(hs) == live;
    } else {
      var n := |hs| - 1;
      var less := live - Named(hs[..n]);
      PayAllCovered(b, live, data, hs[..n], coin, a);
      assert hs[n] in less && less[hs[n]] == data[hs[n]];
      PayCovered(PayAll(b, data, hs[..n]), less, hs[n]);
      assert Named(hs) == Named(hs[..n]) + {hs[n]};
      assert less - {hs[n]} == live - Named(hs);
    }
  }

  ghost function ReceivedBy(xs: seq<Item>, coin: Coin, a: Addr): nat
    requires forall i :: 0 <= i < |xs| ==> forall h <- xs[i].hashes :: h in xs[i].data
  {
    if xs == [] then 0 else ReceivedBy(xs[..|xs| - 1], coin, a) + Received(xs[|xs| - 1].data, xs[|xs| - 1].hashes, coin, a)
  }

  /** The index holds exactly the live revocable records. */
  ghost predicate HoldsLive(held: Times, live: Live) {
    forall t: nat, h: Hash {:trigger Due(live, t, h)} :: At(held, t, h) == Due(live, t, h)
  }

  lemma {:induction false} LiveRevocable(held: Times, live: Live)
    requires HoldsLive(held, live)
    ensures AllRevocable(held)
  {
    forall t <- held, h <- held[t] ensures held[t][h].kind == Revocable {
      assert At(held, t, h) == Due(live, t, h);
    }
  }

  lemma {:induction false} ItemLive(x: Item, held: Times, live: Live, h: Hash)
    requires HoldsLive(held, live) && Whole(x, held) && h in x.data
    ensures h in live && live[h] == x.data[h] && live[h].kind == Revocable && live[h].time == x.time
  {
    assert At(held, x.time, h) == Due(live, x.time, h);
  }

  lemma {:induction false} GoneTime(xs: seq<Item>, held: Times, live: Live, h: Hash)
    requires HoldsLive(held, live) && Picked(xs, held) && h in GoneIn(xs)
    ensures h in live && live[h].time in TimesIn(xs)
  {
    hide HoldsLive;
    GoneIff(xs, held, h);
    var i :| 0 <= i < |xs| && h in Gone(xs[i]);
    assert Whole(xs[i], held);
    ItemLive(xs[i], held, live, h);
  }

  lemma {:induction false} PaidByCovered(b: Balances, live: Live, held: Times, xs: seq<Item>, coin: Coin, a: Addr)
    requires Covers(b, live) && HoldsLive(held, live) && Picked(xs, held)
    ensures forall i :: 0 <= i < |xs| ==> forall h <- xs[i].hashes :: h in xs[i].data
    ensures Covers(PaidBy(b, xs), live - GoneIn(xs))
    ensures Bal(PaidBy(b, xs), Key(coin, Main, a)) == Bal(b, Key(coin, Main, a)) + ReceivedBy(xs, coin, a)
    decreases |xs|
  {
    LiveRevocable(held, live);
    hide Covers, HoldsLive, Bal, PayAll, Received, AllRevocable, Picked, Gone;
    if xs == [] {
      assert live - GoneIn(xs) == live;
    } else {
      hide GoneIn;
      var n := |xs| - 1;
      var x, less := xs[n], live - GoneIn(xs[..n]);
      PickedPart(xs, held, n);
      PaidByCovered(b, live, held, xs[..n], coin, a);
      LastPicked(xs, held);
      LastLive(xs, held, live);
      PayAllCovered(PaidBy(b, xs[..n]), less, x.data, x.hashes, coin, a);
      GoneMore(xs);
      assert less - Named(x.hashes) == live - GoneIn(xs);
    }
  }

  /** The records of the last time are live, and none of them was paid with the times before. */
  lemma {:induction false} LastLive(xs: seq<Item>, held: Times, live: Live)
    requires xs != [] && HoldsLive(held, live) && Picked(xs, held)
    ensures var n := |xs| - 1;
            var x, less := xs[n], live - GoneIn(xs[..n]);
            && (forall h <- x.hashes :: h in x.data && h in less && less[h] == x.data[h] && x.data[h].kind == Revocable)
            && (forall i, j :: 0 <= i < j < |x.hashes| ==> x.hashes[i] != x.hashes[j]) && Named(x.hashes) == Gone(x)
  {
    var n := |xs| - 1;
    var x := xs[n];
    LiveRevocable(held, live);
    LastPicked(xs, held);
    PickedPart(xs, held, n);
    assert Whole(x, held);
    hide HoldsLive, Picked, GoneIn, AllRevocable, Gone, TimesIn;
    forall h <- x.hashes ensures h in x.data && h in live && live[h] == x.data[h] && x.data[h].kind == Revocable && h !in GoneIn(xs[..n]) {
      ItemLive(x, held, live, h);
      if h in GoneIn(xs[..n]) {
        GoneTime(xs[..n], held, live, h);
      }
    }
  }

  lemma {:induction false} GoneMore(xs: seq<Item>)
    requires xs != []
    ensures GoneIn(xs) == GoneIn(xs[..|xs| - 1]) + Gone(xs[|xs| - 1])
  {
  }

  /** With an exact index and Withdraw accounts that cover the live records, a release pays exactly the live revocable
      records whose time has come, each of them in full, and leaves an exact index and covered records. */
  lemma {:induction false} ReleaseExact(w: World, xs: seq<Item>, key: nat, coin: Coin, a: Addr)
    requires w.queue == [] && Agrees(w) && WithdrawOk(w) && DueItems(xs, Contents(w.revocable), key)
    ensures forall i :: 0 <= i < |xs| ==> forall h <- xs[i].hashes :: h in xs[i].data
    ensures var v, left := Release(w, xs), w.live - GoneIn(xs);
            && (forall h :: h in GoneIn(xs) <==> h in w.live && w.live[h].kind == Revocable && w.live[h].time <= key)
            && Covers(v.balances, left) && Bal(v.balances, Key(coin, Main, a)) == Bal(w.balances, Key(coin, Main, a)) + ReceivedBy(xs, coin, a)
            && HoldsLive(Contents(v.revocable), left)
  {
    var held := Contents(w.revocable);
    AgreesHolds(w);
    LiveRevocable(held, w.live);
    assert Covers(w.balances, w.live);
    hide Contents, TreeValid, Covers, HoldsLive, Bal, Agrees, WithdrawOk, AllRevocable, Release, PaidBy, ReceivedBy;
    PaidByCovered(w.balances, w.live, held, xs, coin, a);
    ReleaseIs(w, xs);
    DueTimes(xs, held, key);
    forall h ensures h in GoneIn(xs) <==> h in w.live && w.live[h].kind == Revocable && w.live[h].time <= key {
      GoneDue(xs, held, key, h);
      HeldLive(held, w.live, key, h);
    }
    hide GoneIn, DueItems;
    LeftHolds(held, w.live, key, GoneIn(xs));
  }

  lemma {:induction false} AgreesHolds(w: World)
    requires w.queue == [] && Agrees(w)
    ensures HoldsLive(Contents(w.revocable), w.live)
  {
    hide Contents, TreeValid, Once, Full;
    forall t: nat, h: Hash ensures At(Contents(w.revocable), t, h) == Due(w.live, t, h) {
      assert Held(w.revocable, w.queue, t, h) == Due(w.live, t, h);
    }
  }

  lemma {:induction false} HeldLive(held: Times, live: Live, key: nat, h: Hash)
    requires HoldsLive(held, live)
    ensures HeldDue(held, key, h) <==> h in live && live[h].kind == Revocable && live[h].time <= key
  {
    if h in live {
      assert At(held, live[h].time, h) == Due(live, live[h].time, h);
    }
    if HeldDue(held, key, h) {
      var t: nat :| t <= key && At(held, t, h).Some?;
      assert At(held, t, h) == Due(live, t, h);
    }
  }

  lemma {:induction false} LeftHolds(held: Times, live: Live, key: nat, gone: set<Hash>)
    requires HoldsLive(held, live) && forall h :: h in gone <==> h in live && live[h].kind == Revocable && live[h].time <= key
    ensures HoldsLive(map t | t in held && t > key :: held[t], live - gone)
  {
    var less: Times := map t | t in held && t > key :: held[t];
    forall t: nat, h: Hash ensures At(less, t, h) == Due(live - gone, t, h) {
      assert At(held, t, h) == Due(live, t, h);
    }
  }

  // ----- Reverted and released -----

  /** What the index holds when the next block starts, if the end of this block overwrites nothing. */
  lemma {:induction false} NextHolds(w: World, t: nat, h: Hash)
    requires Merges(w.revocable, w.queue)
    ensures EndBlock(w).queue == [] && At(Contents(EndBlock(w).revocable), t, h) == Held(w.revocable, w.queue, t, h)
  {
    hide Contents, TreeValid, Merges;
    FlushAt(w.revocable, w.queue, t, h);
    hide Flush;
  }

  /** A fresh revert of several records, in a world where nothing is overwritten: every record that it gives back but
      the one named last is also released when its time comes. */
  lemma {:induction false} ReleasedToo(w: World, hs: seq<Hash>, from: Addr, coin: Coin, order: seq<nat>, h: Hash, key: nat)
    requires hs != [] && StoreOk(w) && Agrees(w) && Fresh(w, hs, from, coin) && Clean(RevertAll(w, hs, from, coin), order, hs[|hs| - 1])
    requires var v := Revert(w, hs, from, coin, order); Merges(v.revocable, v.queue)
    requires Taken(w, hs, from, coin, h) && h != hs[|hs| - 1]
    ensures h in w.live && h !in Revert(w, hs, from, coin, order).live
    ensures HeldDue(Contents(EndBlock(Revert(w, hs, from, coin, order)).revocable), key, h) <==> w.live[h].time <= key
  {
    var u, last, v := RevertAll(w, hs, from, coin), hs[|hs| - 1], Revert(w, hs, from, coin, order);
    SameQueue(w, hs, from, coin);
    FreshLive(w, hs, from, coin, h);
    RevertLive(w, hs, from, coin, h);
    RevertIs(w, hs, from, coin, order);
    hide RevertAll, Clean, StoreOk, Fresh, Get, TakeOutAll, Once, Full, Taken, EndBlock, Contents, TreeValid, Merges, Held, Revert;
    forall t: nat ensures At(Contents(EndBlock(v).revocable), t, h) == Due(w.live, t, h) {
      TakeAllHeld(u, order, last, t, h);
      NextHolds(v, t, h);
      assert Held(w.revocable, w.queue, t, h) == Due(w.live, t, h);
    }
    DueOnly(Contents(EndBlock(v).revocable), w.live, key, h);
  }

  lemma {:induction false} DueOnly(held: Times, live: Live, key: nat, h: Hash)
    requires h in live && live[h].kind == Revocable && forall t: nat :: At(held, t, h) == Due(live, t, h)
    ensures HeldDue(held, key, h) <==> live[h].time <= key
  {
    assert At(held, live[h].time, h).Some?;
  }

  /** A fresh revert of the one record named last, where nothing is overwritten: the record is also released when its time
      comes if and only if it had not reached the index, that is, if it was made in the same block. */
  lemma {:induction false} LastReleasedIff(w: World, hs: seq<Hash>, from: Addr, coin: Coin, order: seq<nat>, key: nat)
    requires hs != [] && StoreOk(w) && Agrees(w) && Fresh(w, hs, from, coin) && OnlyLast(w, hs, from, coin)
    requires Effective(w, hs[|hs| - 1], from, coin) && Listing(order, TimesOf(w, hs, from, coin))
    requires Clean(RevertAll(w, hs, from, coin), order, hs[|hs| - 1])
    requires var v := Revert(w, hs, from, coin, order); Merges(v.revocable, v.queue)
    ensures hs[|hs| - 1] in w.live
    ensures var last := hs[|hs| - 1];
            HeldDue(Contents(EndBlock(Revert(w, hs, from, coin, order)).revocable), key, last)
            <==> !Settled(w, last) && w.live[last].time <= key
  {
    var u, last, v := RevertAll(w, hs, from, coin), hs[|hs| - 1], Revert(w, hs, from, coin, order);
    FreshLive(w, hs, from, coin, last);
    OneTime(w, hs, from, coin);
    ListingOne(order, w.live[last].time);
    SameQueue(w, hs, from, coin);
    CleanOne(u, w.live[last].time, last);
    var t0 := w.live[last].time;
    assert v == TakeOut(u, t0, last);
    hide RevertAll, Clean, StoreOk, Fresh, Get, TakeOutAll, TakeOut, CleanOut, Once, Full, Taken, EndBlock, Contents, TreeValid, Merges, Revert, Listing, OnlyLast, Effective;
    forall t: nat ensures At(Contents(EndBlock(v).revocable), t, last).Some? <==> t == t0 && !Settled(w, last) {
      LastHeld(w, u, last, t);
      NextHolds(v, t, last);
    }
    hide At;
    if t0 <= key && !Settled(w, last) {
      assert At(Contents(EndBlock(v).revocable), t0, last).Some?;
    }
  }

  lemma {:induction false} LastHeld(w: World, u: World, last: Hash, t: nat)
    requires Agrees(w) && last in w.live && w.live[last].kind == Revocable
    requires u.revocable == w.revocable && u.queue == w.queue && CleanOut(u, w.live[last].time, last)
    ensures var t0 := w.live[last].time;
            var v := TakeOut(u, t0, last);
            Held(v.revocable, v.queue, t, last).Some? <==> t == t0 && !Settled(w, last)
  {
    var t0 := w.live[last].time;
    LastDue(w, w.live - {last}, last, t0);
    assert Held(w.revocable, w.queue, t, last) == Due(w.live, t, last);
    hide TakeOut, CleanOut, Contents, TreeValid, Once, Full;
    TakeOutHeld(u, t0, last);
  }
}
