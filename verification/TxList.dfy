/**
  Transactions of one account by nonce: a map, a heap of its nonces and a cached sorted list, kept in
  step by every operation; and the per-coin list with its cost and gas caps.
 */
module TxList {
  import opened Listings
  import opened NonceHeap
  import opened Options

  const MAX_U64: nat := 0xFFFF_FFFF_FFFF_FFFF

  type U64 = n: nat | n <= MAX_U64

  datatype Tx = Tx(nonce: U64, cost: nat, gas: nat, id: nat)

  type Items = map<nat, Tx>

  ghost predicate ItemsOk(items: Items) {
    forall n <- items :: items[n].nonce == n
  }

  /** The heap holds exactly the nonces of the map, in heap order. */
  ghost predicate IndexOk(index: seq<nat>, items: Items) {
    Heap(index) && multiset(index) == multiset(items.Keys)
  }

  function Pull(items: Items, ns: seq<nat>): seq<Tx>
    requires forall n <- ns :: n in items
  {
    seq(|ns|, i requires 0 <= i < |ns| => items[ns[i]])
  }

  /** `s` is the contents sorted by nonce. */
  ghost predicate Sorted(s: seq<Tx>, items: Items) {
    exists ns: seq<nat> :: Rising(ns) && Lists(ns, items.Keys) && s == Pull(items, ns)
  }

  lemma {:induction false} OneSorted(a: seq<Tx>, b: seq<Tx>, items: Items)
    requires Sorted(a, items) && Sorted(b, items)
    ensures a == b
  {
    var na: seq<nat> :| Rising(na) && Lists(na, items.Keys) && a == Pull(items, na);
    var nb: seq<nat> :| Rising(nb) && Lists(nb, items.Keys) && b == Pull(items, nb);
    OneListing(na, nb, items.Keys);
  }

  function Below(items: Items, t: nat): Items {
    map n | n in items && n < t :: items[n]
  }

  function From(items: Items, t: nat): Items {
    map n | n in items && n >= t :: items[n]
  }

  /** Cutting a sorted list by nonce. */
  lemma {:induction false} CutSorted(s: seq<Tx>, low: seq<Tx>, items: Items, t: nat)
    requires Sorted(s, items) && Sorted(low, Below(items, t))
    ensures |low| <= |s| && s[..|low|] == low && Sorted(s[|low|..], From(items, t))
  {
    var ns: seq<nat> :| Rising(ns) && Lists(ns, items.Keys) && s == Pull(items, ns);
    var ls: seq<nat> :| Rising(ls) && Lists(ls, Below(items, t).Keys) && low == Pull(Below(items, t), ls);
    CutPulled(items, ns, ls, t);
    hide Pull, Rising, Lists, Below, From;
    assert s[|low|..] == Pull(From(items, t), ns[|ls|..]);
  }

  lemma {:induction false} CutPulled(items: Items, ns: seq<nat>, ls: seq<nat>, t: nat)
    requires Rising(ns) && Lists(ns, items.Keys) && Rising(ls) && Lists(ls, Below(items, t).Keys)
    ensures |ls| <= |ns| && |Pull(items, ns)| == |ns| && |Pull(Below(items, t), ls)| == |ls|
    ensures Rising(ns[|ls|..]) && Lists(ns[|ls|..], From(items, t).Keys)
    ensures Pull(items, ns)[..|ls|] == Pull(Below(items, t), ls) && Pull(items, ns)[|ls|..] == Pull(From(items, t), ns[|ls|..])
  {
    assert Below(items, t).Keys == set n | n in items.Keys && n < t;
    assert From(items, t).Keys == set n | n in items.Keys && n >= t;
    CutListing(ns, ls, items.Keys, t);
    PullParts(items, ns, |ls|, Below(items, t), From(items, t));
  }

  lemma {:induction false} PullParts(items: Items, ns: seq<nat>, k: nat, low: Items, high: Items)
    requires k <= |ns| && (forall n <- ns :: n in items)
    requires (forall n <- ns[..k] :: n in low && low[n] == items[n]) && forall n <- ns[k..] :: n in high && high[n] == items[n]
    ensures Pull(items, ns)[..k] == Pull(low, ns[..k]) && Pull(items, ns)[k..] == Pull(high, ns[k..])
  {
    var s := Pull(items, ns);
    assert forall i :: 0 <= i < k ==> ns[..k][i] == ns[i] && ns[i] in ns[..k];
    assert forall i :: 0 <= i < |ns| - k ==> ns[k..][i] == ns[k + i] && ns[k..][i] in ns[k..];
    assert s[..k] == Pull(low, ns[..k]);
    assert s[k..] == Pull(high, ns[k..]);
  }

  /** The transactions with nonces `ns` were taken off the low end of `all`, and `items` are left. */
  ghost predicate TakenOff(all: Items, items: Items, ns: seq<nat>, t: nat) {
    && Rising(ns) && Lists(ns, all.Keys - items.Keys) && (forall n <- ns :: n < t)
    && (forall n <- items :: n in all && items[n] == all[n])
    && (forall m <- ns, n <- items :: m < n)
  }

  lemma {:induction false} TakeOff(all: Items, items: Items, ns: seq<nat>, t: nat, n: nat)
    requires TakenOff(all, items, ns, t) && n in items && n < t && forall m <- items :: n <= m
    ensures TakenOff(all, items - {n}, ns + [n], t)
  {
    assert (items - {n}).Keys == items.Keys - {n};
    assert n !in ns by {
      assert n !in all.Keys - items.Keys;
    }
    forall x ensures x in ns + [n] <==> x in all.Keys - (items - {n}).Keys {
      assert x in ns + [n] <==> x in ns || x == n;
    }
    forall i | 0 <= i < |ns| ensures ns[i] < n {
      assert ns[i] in ns && n in items;
    }
    assert Rising(ns + [n]);
    forall m <- ns + [n], k <- items - {n} ensures m < k {
      if m in ns {
        assert m < k;
      }
    }
  }

  lemma {:induction false} AllTaken(all: Items, items: Items, ns: seq<nat>, t: nat, removed: seq<Tx>)
    requires TakenOff(all, items, ns, t) && (forall n <- items :: n >= t)
    requires |removed| == |ns| && forall i :: 0 <= i < |ns| ==> ns[i] in all && removed[i] == all[ns[i]]
    ensures items == From(all, t) && Sorted(removed, Below(all, t))
  {
    forall n <- all ensures n >= t <==> n in items {
      if n !in items {
        assert n in all.Keys - items.Keys && n in ns;
      }
    }
    assert items == From(all, t);
    forall n ensures n in ns <==> n in Below(all, t).Keys {
      assert n in ns <==> n in all.Keys - items.Keys;
    }
    assert removed == Pull(Below(all, t), ns);
  }

  lemma {:induction false} LessOne(items: Items, index: seq<nat>, n: nat)
    requires ItemsOk(items) && n in items && Heap(index) && multiset(index) == multiset(items.Keys) - multiset{n}
    ensures ItemsOk(items - {n}) && IndexOk(index, items - {n})
  {
    assert (items - {n}).Keys == items.Keys - {n};
    assert multiset(items.Keys - {n}) == multiset(items.Keys) - multiset{n};
  }

  class TxSortedMap {
    var items: Items
    var index: seq<nat>
    var cache: Option<seq<Tx>>

    ghost predicate Valid()
      reads this
    {
      ItemsOk(items) && IndexOk(index, items) && (cache.Some? ==> Sorted(cache.value, items))
    }

    constructor ()
      ensures Valid() && items == map[]
    {
      items, index, cache := map[], [], None;
    }

    method Put(tx: Tx)
      requires Valid()
      modifies this
      ensures Valid() && items == old(items)[tx.nonce := tx]
    {
      hide Heap, HeapFrom;
      if tx.nonce !in items {
        index := Push(index, tx.nonce);
        assert items[tx.nonce := tx].Keys == items.Keys + {tx.nonce};
      } else {
        assert items[tx.nonce := tx].Keys == items.Keys;
      }
      items, cache := items[tx.nonce := tx], None;
    }

    method Forward(threshold: nat) returns (removed: seq<Tx>)
      requires Valid()
      modifies this
      ensures Valid() && items == From(old(items), threshold) && Sorted(removed, Below(old(items), threshold))
    {
      hide IndexOk, ItemsOk, Sorted;
      removed := [];
      ghost var ns: seq<nat> := [];
      ghost var all := items;
      assert TakenOff(all, items, ns, threshold);
      hide TakenOff;
      while index != [] && index[0] < threshold
        invariant ItemsOk(items) && IndexOk(index, items) && cache == old(cache)
        invariant TakenOff(all, items, ns, threshold)
        invariant |removed| == |ns| && forall i :: 0 <= i < |ns| ==> ns[i] in all && removed[i] == all[ns[i]]
        decreases |index|
      {
        var nonce;
        Least(index, items);
        index, nonce := PopNonce(index, items);
        removed := removed + [items[nonce]];
        TakeOff(all, items, ns, threshold, nonce);
        Subset(all, items, ns, threshold);
        items := items - {nonce};
        ns := ns + [nonce];
      }
      Least(index, items);
      AllTaken(all, items, ns, threshold, removed);
      if cache.Some? {
        CutSorted(cache.value, removed, all, threshold);
        cache := Some(cache.value[|removed|..]);
      }
    }

    /** `Filter`: the map is ranged over in any order; if anything goes, heap and cache are rebuilt. */
    method Filter(drop: Tx -> bool) returns (removed: seq<Tx>)
      requires Valid()
      modifies this
      ensures Valid() && items == Without(old(items), drop)
      ensures forall t :: t in removed <==> t.nonce in old(items) && old(items)[t.nonce] == t && drop(t)
      ensures removed == [] ==> items == old(items) && cache == old(cache)
    {
      hide IndexOk, Sorted;
      var order := AnyOrder(items.Keys);
      removed := [];
      ghost var all := items;
      for i := 0 to |order|
        invariant index == old(index) && cache == old(cache) && (removed == [] ==> items == all)
        invariant forall n :: n in items <==> n in all && !(n in order[..i] && drop(all[n]))
        invariant forall n <- items :: items[n] == all[n]
        invariant forall t :: t in removed <==> t.nonce in order[..i] && all[t.nonce] == t && drop(t)
      {
        var nonce := order[i];
        assert order[..i + 1] == order[..i] + [nonce];
        assert nonce !in order[..i];
        if drop(items[nonce]) {
          removed := removed + [items[nonce]];
          items := items - {nonce};
        }
      }
      assert order[..|order|] == order;
      assert items == Without(all, drop);
      if |removed| > 0 {
        RebuildIndex();
      }
    }

    /** Heap and cache are made anew for the map as it is. */
    method RebuildIndex()
      requires ItemsOk(items)
      modifies `index, `cache
      ensures Valid()
    {
      var left := AnyOrder(items.Keys);
      index := Init(left);
      cache := None;
    }

    /** `Cap`: the highest nonces are dropped, from the top down; `cut` is the lowest of them. `ok` is false where the
        program panics: with a limit below zero it drops everything and then runs past the lowest nonce. */
    method Cap(threshold: int) returns (ok: bool, drops: seq<Tx>, ghost cut: nat)
      requires Valid()
      modifies this
      ensures ok <==> threshold >= 0
      ensures if ok then Valid() else items == map[]
      ensures ok && |old(items)| <= threshold ==> items == old(items) && drops == []
      ensures ok && |old(items)| > threshold ==>
                |items| == threshold && items == Below(old(items), cut) && Descending(drops, From(old(items), cut))
    {
      if |items| <= threshold {
        return true, [], 0;
      }
      ghost var all := items;
      var sorted := SortIndex();
      ok, drops := DropTop(sorted, threshold);
      if !ok {
        return false, drops, 0;
      }
      cut := sorted[threshold];
      CappedHigh(all, sorted, threshold);
      CappedLow(all, sorted, threshold);
      if cache.Some? {
        CachePart(cache.value, all, sorted, threshold);
      }
      Truncate(sorted, threshold, |drops|);
    }

    /** `sort.Sort` on the heap. */
    method SortIndex() returns (sorted: seq<nat>)
      requires Valid()
      ensures Rising(sorted) && Lists(sorted, items.Keys) && |sorted| == |items|
    {
      Least(index, items);
      SameSize(index, items.Keys);
      NoRepeats(index, items.Keys);
      sorted := SortKeys(index);
      assert |items| == |items.Keys|;
    }

    /** The heap is cut and rebuilt, and the back of the cache goes. */
    method Truncate(sorted: seq<nat>, threshold: nat, dropped: nat)
      requires threshold <= |sorted| && ItemsOk(items) && multiset(sorted[..threshold]) == multiset(items.Keys)
      requires cache.Some? ==> |cache.value| == threshold + dropped && Sorted(cache.value[..threshold], items)
      modifies `index, `cache
      ensures Valid()
    {
      index := Init(sorted[..threshold]);
      if cache.Some? {
        cache := Some(cache.value[..|cache.value| - dropped]);
      }
    }

    /** The loop of `Cap`; `ok` is false once it has no nonce left to index. */
    method DropTop(sorted: seq<nat>, threshold: int) returns (ok: bool, drops: seq<Tx>)
      requires Rising(sorted) && Lists(sorted, items.Keys) && threshold <= |sorted|
      modifies `items
      ensures ok <==> threshold >= 0
      ensures if ok then items == Pick(old(items), sorted[..threshold]) && drops == Tops(old(items), sorted, threshold) else items == map[]
    {
      ghost var all := items;
      drops := [];
      var size := |sorted|;
      assert sorted[..size] == sorted && items == Pick(all, sorted);
      assert forall n <- sorted :: n in all;
      assert Tops(all, sorted, size) == [];
      hide Pick, Lists, Rising;
      while size > threshold
        invariant threshold <= size <= |sorted|
        invariant items == Pick(all, sorted[..size]) && drops == Tops(all, sorted, size)
      {
        if size == 0 {
          NothingPicked(all);
          return false, drops;
        }
        PickLess(all, sorted, size);
        assert Tops(all, sorted, size - 1) == Tops(all, sorted, size) + [all[sorted[size - 1]]];
        drops := drops + [items[sorted[size - 1]]];
        items := items - {sorted[size - 1]};
        size := size - 1;
      }
      return true, drops;
    }

    method Remove(nonce: nat) returns (found: bool)
      requires Valid()
      modifies this
      ensures Valid() && items == old(items) - {nonce} && (found <==> nonce in old(items)) && (!found ==> cache == old(cache))
    {
      if nonce !in items {
        assert items - {nonce} == items;
        return false;
      }
      Least(index, items);
      index := DropNonce(index, nonce, items);
      items := items - {nonce};
      cache := None;
      return true;
    }

    /** `Flatten`: the contents sorted by nonce, from the cache if there is one. */
    method Flatten() returns (txs: seq<Tx>)
      requires Valid()
      modifies `cache
      ensures Valid() && Sorted(txs, items) && cache == Some(txs)
    {
      if cache.None? {
        var order := AnyOrder(items.Keys);
        var ns := SortKeys(order);
        assert Lists(ns, items.Keys);
        cache := Some(Pull(items, ns));
      }
      txs := cache.value;
    }

    function Get(nonce: nat): Option<Tx>
      reads this
    {
      if nonce in items then Some(items[nonce]) else None
    }
  }

  function Without(items: Items, drop: Tx -> bool): Items {
    map n | n in items && !drop(items[n]) :: items[n]
  }

  // ----- Capping -----

  function Pick(all: Items, ns: seq<nat>): Items {
    map n | n in ns && n in all :: all[n]
  }

  lemma {:induction false} NothingPicked(all: Items)
    ensures Pick(all, []) == map[]
  {
  }

  /** The transactions of a listing from its end down to position `size`. */
  ghost function Tops(all: Items, ns: seq<nat>, size: nat): seq<Tx>
    requires size <= |ns| && forall n <- ns :: n in all
    decreases |ns| - size
  {
    if size == |ns| then [] else Tops(all, ns, size + 1) + [all[ns[size]]]
  }

  lemma {:induction false} TopsSize(all: Items, ns: seq<nat>, size: nat)
    requires size <= |ns| && forall n <- ns :: n in all
    ensures |Tops(all, ns, size)| == |ns| - size
    decreases |ns| - size
  {
    if size < |ns| {
      TopsSize(all, ns, size + 1);
    }
  }

  lemma {:induction false} TopsPart(all: Items, ns: seq<nat>, t: nat, high: Items, k: nat)
    requires t + k <= |ns| && (forall n <- ns :: n in all) && forall n <- ns[t..] :: n in high && high[n] == all[n]
    ensures Tops(all, ns, t + k) == Tops(high, ns[t..], k)
    decreases |ns| - k
  {
    if t + k < |ns| {
      TopsPart(all, ns, t, high, k + 1);
      assert ns[t..][k] == ns[t + k] && ns[t..][k] in ns[t..];
    }
  }

  /** `s` is the contents sorted by nonce, highest first. */
  ghost predicate Descending(s: seq<Tx>, items: Items) {
    exists ns: seq<nat> :: Rising(ns) && Lists(ns, items.Keys) && s == Tops(items, ns, 0)
  }

  lemma {:induction false} PickLess(all: Items, sorted: seq<nat>, size: nat)
    requires Rising(sorted) && 0 < size <= |sorted| && forall n <- sorted :: n in all
    ensures Pick(all, sorted[..size - 1]) == Pick(all, sorted[..size]) - {sorted[size - 1]}
    ensures sorted[size - 1] in Pick(all, sorted[..size]) && Pick(all, sorted[..size])[sorted[size - 1]] == all[sorted[size - 1]]
  {
    assert sorted[..size] == sorted[..size - 1] + [sorted[size - 1]];
    assert sorted[size - 1] !in sorted[..size - 1];
    var x, y := Pick(all, sorted[..size - 1]), Pick(all, sorted[..size]) - {sorted[size - 1]};
    assert x.Keys == y.Keys;
  }

  lemma {:induction false} SameSize(index: seq<nat>, keys: set<nat>)
    requires multiset(index) == multiset(keys)
    ensures |index| == |keys|
  {
    assert |multiset(index)| == |index| && |multiset(keys)| == |keys|;
  }

  lemma {:induction false} NoRepeats(index: seq<nat>, keys: set<nat>)
    requires multiset(index) == multiset(keys)
    ensures forall i, j :: 0 <= i < j < |index| ==> index[i] != index[j]
  {
    forall i, j | 0 <= i < j < |index| ensures index[i] != index[j] {
      var a, x := index[..j], index[j];
      assert index == a + [x] + index[j + 1..];
      assert multiset(keys)[x] <= 1;
      assert multiset(a)[x] == 0;
      assert x !in a && index[i] in a;
    }
  }

  /** The first `t` of a rising listing are the nonces below the next one. */
  lemma {:induction false} LowPart(keys: set<nat>, sorted: seq<nat>, t: nat)
    requires Rising(sorted) && Lists(sorted, keys) && t < |sorted|
    ensures Rising(sorted[..t]) && Lists(sorted[..t], set k | k in keys && k < sorted[t])
    ensures Rising(sorted[t..]) && Lists(sorted[t..], set k | k in keys && k >= sorted[t])
  {
    forall k: nat ensures k in sorted[..t] <==> k in keys && k < sorted[t] {
      InPart(sorted, t, k);
    }
    forall k: nat ensures k in sorted[t..] <==> k in keys && k >= sorted[t] {
      InPart(sorted, t, k);
    }
  }

  lemma {:induction false} CappedLow(all: Items, sorted: seq<nat>, t: nat)
    requires Rising(sorted) && Lists(sorted, all.Keys) && t < |sorted|
    ensures Rising(sorted[..t]) && Lists(sorted[..t], Below(all, sorted[t]).Keys)
    ensures Pick(all, sorted[..t]) == Below(all, sorted[t]) && |Below(all, sorted[t])| == t
    ensures multiset(sorted[..t]) == multiset(Below(all, sorted[t]).Keys)
  {
    LowPart(all.Keys, sorted, t);
    var low := Below(all, sorted[t]);
    assert low.Keys == set k | k in all.Keys && k < sorted[t];
    RisingOnce(sorted[..t], low.Keys);
    assert |low| == |low.Keys|;
    assert Pick(all, sorted[..t]) == low;
  }

  lemma {:induction false} CappedHigh(all: Items, sorted: seq<nat>, t: nat)
    requires Rising(sorted) && Lists(sorted, all.Keys) && t < |sorted|
    ensures Descending(Tops(all, sorted, t), From(all, sorted[t])) && |Tops(all, sorted, t)| == |sorted| - t
  {
    LowPart(all.Keys, sorted, t);
    var high, hs := From(all, sorted[t]), sorted[t..];
    assert high.Keys == set k | k in all.Keys && k >= sorted[t];
    assert forall n <- hs :: n in high && high[n] == all[n];
    TopsPart(all, sorted, t, high, 0);
    TopsSize(all, sorted, t);
  }

  lemma {:induction false} CachePart(c: seq<Tx>, all: Items, sorted: seq<nat>, t: nat)
    requires Rising(sorted) && Lists(sorted, all.Keys) && t <= |sorted| && Sorted(c, all)
    requires Rising(sorted[..t]) && Lists(sorted[..t], Pick(all, sorted[..t]).Keys)
    ensures |c| == |sorted| && Sorted(c[..t], Pick(all, sorted[..t]))
  {
    hide Rising;
    var ns: seq<nat> :| Rising(ns) && Lists(ns, all.Keys) && c == Pull(all, ns);
    OneListing(ns, sorted, all.Keys);
    var low := Pick(all, sorted[..t]);
    forall i | 0 <= i < t ensures c[i] == low[sorted[i]] {
      assert sorted[..t][i] == sorted[i] && sorted[i] in sorted[..t];
    }
    assert c[..t] == Pull(low, sorted[..t]);
  }

  /** Find a nonce in the heap and remove it. */
  method DropNonce(index: seq<nat>, nonce: nat, ghost items: Items) returns (less: seq<nat>)
    requires ItemsOk(items) && IndexOk(index, items) && nonce in index
    ensures ItemsOk(items - {nonce}) && IndexOk(less, items - {nonce})
  {
    Least(index, items);
    var i := 0;
    while index[i] != nonce
      invariant 0 <= i < |index| && nonce in index[i..]
      decreases |index| - i
    {
      i := i + 1;
    }
    less := RemoveAt(index, i);
    LessOne(items, less, nonce);
  }

  method PopNonce(index: seq<nat>, ghost items: Items) returns (less: seq<nat>, nonce: nat)
    requires ItemsOk(items) && IndexOk(index, items) && index != []
    ensures nonce == index[0] && nonce in items && ItemsOk(items - {nonce}) && IndexOk(less, items - {nonce}) && |less| == |index| - 1
  {
    Least(index, items);
    less, nonce := Pop(index);
    LessOne(items, less, nonce);
  }

  lemma {:induction false} Subset(all: Items, items: Items, ns: seq<nat>, t: nat)
    requires TakenOff(all, items, ns, t)
    ensures forall n <- items :: n in all && items[n] == all[n]
  {
  }

  lemma {:induction false} Least(index: seq<nat>, items: Items)
    requires IndexOk(index, items)
    ensures index == [] ==> items == map[]
    ensures index != [] ==> index[0] in items && forall n <- items :: index[0] <= n
    ensures forall n :: n in index <==> n in items
  {
    forall n ensures n in index <==> n in items {
      assert n in index <==> n in multiset(index);
      assert n in items <==> n in multiset(items.Keys);
    }
    if index != [] {
      forall n <- items ensures index[0] <= n {
        var k :| 0 <= k < |index| && index[k] == n;
        TopIsLeast(index, k);
      }
    }
  }

  // ----- The list of an account -----

  type Coin = string

  predicate Exceeds(t: Tx, costLimit: nat, gasLimit: nat) {
    t.cost > costLimit || t.gas > gasLimit
  }

  /** The nonces of transactions above the limits. */
  ghost function Over(items: Items, costLimit: nat, gasLimit: nat): set<nat> {
    set n | n in items && Exceeds(items[n], costLimit, gasLimit)
  }

  /** Is there one above the limits with a nonce below `n`? */
  ghost predicate Behind(items: Items, costLimit: nat, gasLimit: nat, n: nat) {
    exists m <- Over(items, costLimit, gasLimit) :: m < n
  }

  /** What a full filtering leaves: nothing above the limits and, in a strict list, nothing behind such a one. */
  ghost function Filtered(items: Items, strict: bool, costLimit: nat, gasLimit: nat): Items {
    map n | n in items && !Exceeds(items[n], costLimit, gasLimit) && !(strict && Behind(items, costLimit, gasLimit, n)) :: items[n]
  }

  /** Every transaction is within the caps. */
  ghost predicate Within(items: Items, costcap: nat, gascap: nat) {
    forall n <- items :: !Exceeds(items[n], costcap, gascap)
  }

  lemma {:induction false} WithinMore(items: Items, cost0: nat, gas0: nat, tx: Tx, cost1: nat, gas1: nat)
    requires Within(items, cost0, gas0) && cost0 <= cost1 && gas0 <= gas1 && tx.cost <= cost1 && tx.gas <= gas1
    ensures Within(items[tx.nonce := tx], cost1, gas1)
  {
  }

  class AccountTxs {
    const strict: bool
    var txs: map<Coin, TxSortedMap>
    var costcap: nat
    var gascap: nat

    ghost predicate Valid()
      reads this, txs.Values
    {
      && (forall c <- txs :: txs[c].Valid())
      && (forall c <- txs, d <- txs :: c != d ==> txs[c] != txs[d])
    }

    /** The list holds one coin only, and the caps bound all its transactions. */
    ghost predicate SingleCoin(c: Coin)
      reads this, txs.Values
    {
      txs.Keys == {c} && Within(txs[c].items, costcap, gascap)
    }

    constructor (strict: bool, coin: Coin)
      ensures Valid() && this.strict == strict && SingleCoin(if coin == "" then "MAN" else coin)
      ensures fresh(txs.Values) && forall c <- txs :: txs[c].items == map[]
    {
      this.strict := strict;
      var m := new TxSortedMap();
      var c := if coin == "" then "MAN" else coin;
      txs, costcap, gascap := map[c := m], 0, 0;
    }

    /** `Add`: the transaction is always taken, and the caps rise to cover it. */
    method Add(tx: Tx, coin: Coin)
      requires Valid()
      modifies this, txs.Values
      ensures Valid() && txs.Keys == old(txs.Keys) + {coin} && fresh(txs.Values - old(txs.Values))
      ensures txs[coin].items == (if coin in old(txs) then old(txs[coin].items) else map[])[tx.nonce := tx]
      ensures forall c <- old(txs) :: txs[c] == old(txs)[c] && (c != coin ==> txs[c].items == old(txs[c].items))
      ensures old(SingleCoin(coin)) ==> SingleCoin(coin)
      ensures costcap == (if old(costcap) < tx.cost then tx.cost else old(costcap)) && gascap == if old(gascap) < tx.gas then tx.gas else old(gascap)
    {
      hide ItemsOk, IndexOk, Sorted, Within;
      PutTx(tx, coin);
      if costcap < tx.cost {
        costcap := tx.cost;
      }
      if gascap < tx.gas {
        gascap := tx.gas;
      }
      if old(SingleCoin(coin)) {
        WithinMore(old(txs[coin].items), old(costcap), old(gascap), tx, costcap, gascap);
      }
    }

    method PutTx(tx: Tx, coin: Coin)
      requires Valid()
      modifies `txs, txs.Values
      ensures Valid() && txs.Keys == old(txs.Keys) + {coin} && fresh(txs.Values - old(txs.Values))
      ensures txs[coin].items == (if coin in old(txs) then old(txs[coin].items) else map[])[tx.nonce := tx]
      ensures forall c <- old(txs) :: txs[c] == old(txs)[c] && (c != coin ==> txs[c].items == old(txs[c].items))
    {
      hide ItemsOk, IndexOk, Sorted;
      var sm := MapOf(coin);
      sm.Put(tx);
    }

    /** The map of a coin, made if there is none. */
    method MapOf(coin: Coin) returns (sm: TxSortedMap)
      requires Valid()
      modifies `txs
      ensures Valid() && txs.Keys == old(txs.Keys) + {coin} && txs[coin] == sm && forall c <- old(txs) :: txs[c] == old(txs)[c]
      ensures coin in old(txs) ==> txs == old(txs)
      ensures coin !in old(txs) ==> fresh(sm) && sm.items == map[] && txs.Values == old(txs.Values) + {sm}
    {
      hide ItemsOk, IndexOk, Sorted;
      if coin !in txs {
        var m := new TxSortedMap();
        txs := txs[coin := m];
      }
      sm := txs[coin];
    }

    /** Both filterings of one coin: above the limits, and behind such a one if the list is strict. */
    method FilterMap(sm: TxSortedMap, costLimit: nat, gasLimit: nat) returns (removed: seq<Tx>, invalids: seq<Tx>)
      requires sm.Valid()
      modifies sm
      ensures sm.Valid() && sm.items == Filtered(old(sm.items), strict, costLimit, gasLimit)
      ensures Parted(old(sm.items), strict, costLimit, gasLimit, removed, invalids)
    {
      hide IndexOk, Sorted;
      ghost var all := sm.items;
      removed := sm.Filter(t => Exceeds(t, costLimit, gasLimit));
      invalids := [];
      if strict && |removed| > 0 {
        var lowest := MAX_U64;
        for i := 0 to |removed|
          invariant forall j :: 0 <= j < i ==> lowest <= removed[j].nonce
          invariant lowest == MAX_U64 || exists j :: 0 <= j < i && lowest == removed[j].nonce
        {
          if lowest > removed[i].nonce {
            lowest := removed[i].nonce;
          }
        }
        LowestOver(all, costLimit, gasLimit, removed, lowest);
        invalids := sm.Filter((t: Tx) => t.nonce > lowest);
      }
      assert sm.items == Filtered(all, strict, costLimit, gasLimit);
    }

    /**
      `Filter`. The short cut by the caps gives what filtering every transaction gives exactly when no transaction of
      the coin is above the limits; on a list of one coin that is always so.
     */
    method Filter(costLimit: nat, gasLimit: nat, typ: Coin) returns (removed: seq<Tx>, invalids: seq<Tx>)
      requires Valid()
      modifies this, txs.Values
      ensures Valid() && txs == old(txs) && forall c <- txs :: c != typ ==> txs[c].items == old(txs[c].items)
      ensures old(SingleCoin(typ)) ==>
                && SingleCoin(typ) && txs[typ].items == Filtered(old(txs[typ].items), strict, costLimit, gasLimit)
                && Parted(old(txs[typ].items), strict, costLimit, gasLimit, removed, invalids)
      ensures typ in txs ==>
                (txs[typ].items == Filtered(old(txs[typ].items), strict, costLimit, gasLimit) <==>
                 old(costcap > costLimit || gascap > gasLimit || Within(txs[typ].items, costLimit, gasLimit)))
      ensures old(costcap) <= costLimit && old(gascap) <= gasLimit ==>
                removed == invalids == [] && costcap == old(costcap) && gascap == old(gascap) && forall c <- txs :: txs[c].items == old(txs[c].items)
      ensures !(old(costcap) <= costLimit && old(gascap) <= gasLimit) ==> costcap == costLimit && gascap == gasLimit
    {
      hide ItemsOk, IndexOk, Sorted;
      if costcap <= costLimit && gascap <= gasLimit {
        if SingleCoin(typ) {
          ShortCut(txs[typ].items, costcap, gascap, strict, costLimit, gasLimit);
        }
        if typ in txs {
          FilteredSame(txs[typ].items, strict, costLimit, gasLimit);
        }
        return [], [];
      }
      costcap, gascap := costLimit, gasLimit;
      if typ !in txs {
        return [], [];
      }
      removed, invalids := FilterMap(txs[typ], costLimit, gasLimit);
    }

    /** `Remove`: the transaction with that nonce, and on a strict list all behind it. */
    method Remove(nonce: nat, coin: Coin) returns (found: bool, invalids: seq<Tx>)
      requires Valid()
      modifies txs.Values
      ensures Valid() && forall c <- txs :: c != coin ==> txs[c].items == old(txs[c].items)
      ensures found <==> coin in txs && nonce in old(txs[coin].items)
      ensures coin in txs ==> txs[coin].items == if !found then old(txs[coin].items)
                                                 else if strict then Below(old(txs[coin].items), nonce)
                                                 else old(txs[coin].items) - {nonce}
      ensures forall t :: t in invalids <==> found && strict && t.nonce > nonce
                                             && t.nonce in old(txs[coin].items) && old(txs[coin].items)[t.nonce] == t
      ensures old(SingleCoin(coin)) ==> SingleCoin(coin)
    {
      hide ItemsOk, IndexOk, Sorted;
      if coin !in txs {
        return false, [];
      }
      found, invalids := RemoveFrom(txs[coin], nonce);
    }

    method RemoveFrom(sm: TxSortedMap, nonce: nat) returns (found: bool, invalids: seq<Tx>)
      requires sm.Valid()
      modifies sm
      ensures sm.Valid() && (found <==> nonce in old(sm.items))
      ensures sm.items == if !found then old(sm.items) else if strict then Below(old(sm.items), nonce) else old(sm.items) - {nonce}
      ensures forall t :: t in invalids <==> found && strict && t.nonce > nonce
                                             && t.nonce in old(sm.items) && old(sm.items)[t.nonce] == t
    {
      hide IndexOk, Sorted;
      found := sm.Remove(nonce);
      invalids := [];
      if found && strict {
        invalids := sm.Filter((t: Tx) => t.nonce > nonce);
        assert sm.items == Below(old(sm.items), nonce);
      }
    }
  }

  /** What a filtering returns: the transactions above the limits, and those invalid behind them. */
  ghost predicate Parted(items: Items, strict: bool, costLimit: nat, gasLimit: nat, removed: seq<Tx>, invalids: seq<Tx>) {
    && (forall t :: t in removed <==> t.nonce in items && items[t.nonce] == t && Exceeds(t, costLimit, gasLimit))
    && (forall t :: t in invalids <==> t.nonce in items && items[t.nonce] == t && !Exceeds(t, costLimit, gasLimit)
                                       && strict && Behind(items, costLimit, gasLimit, t.nonce))
  }

  lemma {:induction false} FilteredSame(items: Items, strict: bool, costLimit: nat, gasLimit: nat)
    requires ItemsOk(items)
    ensures Filtered(items, strict, costLimit, gasLimit) == items <==> Within(items, costLimit, gasLimit)
  {
    if Within(items, costLimit, gasLimit) {
      assert Over(items, costLimit, gasLimit) == {};
    } else {
      var n :| n in items && Exceeds(items[n], costLimit, gasLimit);
      assert n !in Filtered(items, strict, costLimit, gasLimit);
    }
  }

  /** Within the caps there is nothing to filter. */
  lemma {:induction false} ShortCut(items: Items, costcap: nat, gascap: nat, strict: bool, costLimit: nat, gasLimit: nat)
    requires ItemsOk(items) && Within(items, costcap, gascap) && costcap <= costLimit && gascap <= gasLimit
    ensures Filtered(items, strict, costLimit, gasLimit) == items && Parted(items, strict, costLimit, gasLimit, [], [])
  {
    assert Over(items, costLimit, gasLimit) == {};
  }

  lemma {:induction false} LowestOver(items: Items, costLimit: nat, gasLimit: nat, removed: seq<Tx>, lowest: nat)
    requires ItemsOk(items) && removed != [] && forall t :: t in removed <==> t.nonce in items && items[t.nonce] == t && Exceeds(t, costLimit, gasLimit)
    requires (forall j :: 0 <= j < |removed| ==> lowest <= removed[j].nonce) && (lowest == MAX_U64 || exists j :: 0 <= j < |removed| && lowest == removed[j].nonce)
    ensures forall n: nat :: Behind(items, costLimit, gasLimit, n) <==> n > lowest
  {
    assert exists j :: 0 <= j < |removed| && lowest == removed[j].nonce by {
      assert removed[0].nonce <= MAX_U64;
    }
    var j :| 0 <= j < |removed| && lowest == removed[j].nonce;
    assert removed[j] in removed && lowest in Over(items, costLimit, gasLimit);
    forall m <- Over(items, costLimit, gasLimit) ensures lowest <= m {
      assert items[m] in removed;
      var k :| 0 <= k < |removed| && removed[k] == items[m];
    }
  }

  /** The caps are shared by all coins: after filtering one coin, filtering another by the same limits takes the short
      cut and leaves a transaction above them. */
  method SharedCaps() returns (removed: seq<Tx>, left: Items)
    ensures removed == [] && 1 in left && Exceeds(left[1], 5, 5)
  {
    hide ItemsOk, IndexOk, Sorted, Filtered, Parted;
    var t := Tx(1, 10, 0, 0);
    var l := new AccountTxs(false, "A");
    l.Add(t, "A");
    l.Add(t, "B");
    var invalids;
    removed, invalids := l.Filter(5, 5, "A");
    removed, invalids := l.Filter(5, 5, "B");
    left := l.txs["B"].items;
  }
}
