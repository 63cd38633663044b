/**
  Balances per coin, sub-account and address; lists of balance changes; the total of a coin over all
  addresses and sub-accounts.
 */
module Ledger {

  type Addr = nat
  type Coin = string

  const NO_ADDR: Addr := 0

  datatype Sub = Main | Withdraw

  datatype Key = Key(coin: Coin, sub: Sub, addr: Addr)

  type Balances = map<Key, int>

  function Bal(b: Balances, k: Key): int {
    if k in b then b[k] else 0
  }

  /** One `AddBalance` or, with a negative amount, `SubBalance`. */
  datatype Delta = Delta(key: Key, amount: int)

  function Add(b: Balances, d: Delta): Balances {
    b[d.key := Bal(b, d.key) + d.amount]
  }

  function Apply(b: Balances, ds: seq<Delta>): Balances {
    if ds == [] then b else Add(Apply(b, ds[..|ds| - 1]), ds[|ds| - 1])
  }

  lemma {:induction false} ApplyConcat(b: Balances, x: seq<Delta>, y: seq<Delta>)
    ensures Apply(b, x + y) == Apply(Apply(b, x), y)
    decreases |y|
  {
    if y == [] {
      assert x + y == x;
    } else {
      var n := |y| - 1;
      assert (x + y)[..|x| + n] == x + y[..n];
      ApplyConcat(b, x, y[..n]);
    }
  }

  lemma {:induction false} ApplyOne(b: Balances, d: Delta)
    ensures Apply(b, [d]) == Add(b, d)
  {
    assert [d][..0] == [];
  }

  // ----- What a list of changes adds up to -----

  /** The change of one balance. */
  ghost function KeySum(ds: seq<Delta>, k: Key): int {
    if ds == [] then 0 else KeySum(ds[..|ds| - 1], k) + if ds[|ds| - 1].key == k then ds[|ds| - 1].amount else 0
  }

  /** The change of a coin's total. */
  ghost function CoinSum(ds: seq<Delta>, c: Coin): int {
    if ds == [] then 0 else CoinSum(ds[..|ds| - 1], c) + if ds[|ds| - 1].key.coin == c then ds[|ds| - 1].amount else 0
  }

  lemma {:induction false} SumsConcat(x: seq<Delta>, y: seq<Delta>, k: Key, c: Coin)
    ensures KeySum(x + y, k) == KeySum(x, k) + KeySum(y, k)
    ensures CoinSum(x + y, c) == CoinSum(x, c) + CoinSum(y, c)
    decreases |y|
  {
    if y == [] {
      assert x + y == x;
    } else {
      var n := |y| - 1;
      assert (x + y)[..|x| + n] == x + y[..n];
      SumsConcat(x, y[..n], k, c);
    }
  }

  lemma {:induction false} SumsOne(d: Delta, k: Key, c: Coin)
    ensures KeySum([d], k) == if d.key == k then d.amount else 0
    ensures CoinSum([d], c) == if d.key.coin == c then d.amount else 0
  {
    assert [d][..0] == [];
    assert KeySum([], k) == 0 && CoinSum([], c) == 0;
  }

  lemma {:induction false} ApplyBal(b: Balances, ds: seq<Delta>, k: Key)
    ensures Bal(Apply(b, ds), k) == Bal(b, k) + KeySum(ds, k)
    decreases |ds|
  {
    if ds != [] {
      ApplyBal(b, ds[..|ds| - 1], k);
    }
  }

  // ----- The total of a coin -----

  ghost function SumOver(b: Balances, ks: set<Key>): int {
    if ks == {} then 0
    else
      var k :| k in ks;
      Bal(b, k) + SumOver(b, ks - {k})
  }

  lemma {:induction false} SumPick(b: Balances, ks: set<Key>, k: Key)
    requires k in ks
    ensures SumOver(b, ks) == Bal(b, k) + SumOver(b, ks - {k})
    decreases |ks|
  {
    var j :| j in ks && SumOver(b, ks) == Bal(b, j) + SumOver(b, ks - {j});
    if j != k {
      SumPick(b, ks - {j}, k);
      SumPick(b, ks - {k}, j);
      assert ks - {j} - {k} == ks - {k} - {j};
    }
  }

  lemma {:induction false} SumSame(b: Balances, a: Balances, ks: set<Key>)
    requires forall k <- ks :: Bal(a, k) == Bal(b, k)
    ensures SumOver(a, ks) == SumOver(b, ks)
    decreases |ks|
  {
    if ks != {} {
      var k :| k in ks;
      SumPick(a, ks, k);
      SumPick(b, ks, k);
      SumSame(b, a, ks - {k});
    }
  }

  ghost function CoinKeys(b: Balances, c: Coin): set<Key> {
    set k | k in b && k.coin == c
  }

  /** All of a coin that exists. */
  ghost function CoinTotal(b: Balances, c: Coin): int {
    SumOver(b, CoinKeys(b, c))
  }

  lemma {:induction false} AddTotal(b: Balances, d: Delta, c: Coin)
    ensures CoinTotal(Add(b, d), c) == CoinTotal(b, c) + if d.key.coin == c then d.amount else 0
  {
    var a, k := Add(b, d), d.key;
    var ka, kb := CoinKeys(a, c), CoinKeys(b, c);
    if k.coin != c {
      assert ka == kb;
      SumSame(b, a, kb);
    } else {
      assert ka == kb + {k};
      SumPick(a, ka, k);
      assert ka - {k} == kb - {k};
      SumSame(b, a, kb - {k});
      if k in kb {
        SumPick(b, kb, k);
      } else {
        assert kb - {k} == kb;
      }
    }
  }

  lemma {:induction false} ApplyTotal(b: Balances, ds: seq<Delta>, c: Coin)
    ensures CoinTotal(Apply(b, ds), c) == CoinTotal(b, c) + CoinSum(ds, c)
    decreases |ds|
  {
    if ds != [] {
      hide CoinTotal, Add;
      ApplyTotal(b, ds[..|ds| - 1], c);
      AddTotal(Apply(b, ds[..|ds| - 1]), ds[|ds| - 1], c);
    }
  }
}
