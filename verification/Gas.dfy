/**
  Gas of a transaction: the intrinsic cost, buying gas from the block's pool, and the refund. The fee
  is paid in the coin range of the transaction's coin.
 */
module Gas {
  import opened Ledger
  import opened Options

  const MAX_U64: nat := 0xFFFF_FFFF_FFFF_FFFF
  const TX_GAS: nat := 21000
  const NON_ZERO_GAS: nat := 68
  const ZERO_GAS: nat := 4
  const TX_COUNT: nat := 1000
  const GAS_PRICE: nat := 18_000_000_000

  type Bytes = seq<nat>

  // ----- Intrinsic gas -----

  function NonZero(data: Bytes): (n: nat)
    ensures n <= |data|
  {
    if data == [] then 0 else NonZero(data[..|data| - 1]) + if data[|data| - 1] != 0 then 1 else 0
  }

  /** What the data costs, on unbounded integers. */
  function Cost(data: Bytes): nat {
    TX_GAS + NON_ZERO_GAS * NonZero(data) + ZERO_GAS * (|data| - NonZero(data))
  }

  /** `IntrinsicGas`: the cost, or an error exactly when it does not fit 64 bits. */
  method IntrinsicGas(data: Bytes) returns (gas: Option<nat>)
    ensures gas == if Cost(data) <= MAX_U64 then Some(Cost(data)) else None
  {
    var g := TX_GAS;
    if |data| > 0 {
      var nz := 0;
      for i := 0 to |data|
        invariant nz == NonZero(data[..i])
      {
        assert data[..i + 1][..i] == data[..i];
        if data[i] != 0 {
          nz := nz + 1;
        }
      }
      assert data[..|data|] == data;
      if (MAX_U64 - g) / NON_ZERO_GAS < nz {
        return None;
      }
      g := g + nz * NON_ZERO_GAS;
      var z := |data| - nz;
      if (MAX_U64 - g) / ZERO_GAS < z {
        return None;
      }
      g := g + z * ZERO_GAS;
    }
    return Some(g);
  }

  /** A further recipient of a transaction. */
  datatype Extra = Extra(recipient: Addr, amount: nat, payload: Bytes)

  /** Do all payloads have a cost that fits 64 bits? */
  ghost predicate PayloadsFit(extra: seq<Extra>) {
    forall i :: 0 <= i < |extra| ==> Cost(extra[i].payload) <= MAX_U64
  }

  /** The gas of data and payloads together, added up on 64 bits. */
  ghost function CostAll(data: Bytes, extra: seq<Extra>): nat {
    if extra == [] then Cost(data) else (CostAll(data, extra[..|extra| - 1]) + Cost(extra[|extra| - 1].payload)) % (MAX_U64 + 1)
  }

  /** What the common head of every transition finds: an error, a payload whose cost overflows, or the gas to use. */
  datatype Charge = Refused | Overflows | Charge(gas: nat)

  method ChargeFor(data: Bytes, extra: seq<Extra>) returns (c: Charge)
    ensures c == (if Cost(data) > MAX_U64 || |extra| > TX_COUNT - 1 then Refused
                  else if PayloadsFit(extra) then Charge(CostAll(data, extra)) else Overflows)
  {
    var g := IntrinsicGas(data);
    if g.None? {
      return Refused;
    }
    if |extra| > TX_COUNT - 1 {
      return Refused;
    }
    var gas := g.value;
    for i := 0 to |extra|
      invariant PayloadsFit(extra[..i]) && gas == CostAll(data, extra[..i])
    {
      assert extra[..i + 1][..i] == extra[..i];
      var t := IntrinsicGas(extra[i].payload);
      if t.None? {
        return Overflows;
      }
      gas := (gas + t.value) % (MAX_U64 + 1);
    }
    assert extra[..|extra|] == extra;
    return Charge(gas);
  }

  // ----- The block's gas pool -----

  class GasPool {
    var gas: nat

    /** `AddGas`; `ok` is false where the program panics, because the sum does not fit 64 bits. */
    method AddGas(amount: nat) returns (ok: bool)
      modifies this
      ensures ok <==> old(gas) + amount <= MAX_U64
      ensures gas == if ok then old(gas) + amount else old(gas)
    {
      if gas + amount > MAX_U64 {
        return false;
      }
      gas := gas + amount;
      return true;
    }

    method SubGas(amount: nat) returns (ok: bool)
      modifies this
      ensures ok <==> old(gas) >= amount
      ensures gas == if ok then old(gas) - amount else old(gas)
    {
      if gas < amount {
        return false;
      }
      gas := gas - amount;
      return true;
    }
  }

  // ----- The refund -----

  /** Half of the gas used at most. */
  function Refund(used: nat, counter: nat): nat {
    if used / 2 > counter then counter else used / 2
  }

  /** After the refund at least half of the gas consumed is charged, and not more than all of it. */
  lemma {:induction false} ChargesHalf(used: nat, counter: nat)
    ensures used <= 2 * (used - Refund(used, counter)) && Refund(used, counter) <= used
  {
  }

  /** The balance changes of buying gas, and of giving back what is left and paying the fee. */
  function BuyDeltas(coin: Coin, payer: Addr, gas: nat): seq<Delta> {
    [Delta(Key(coin, Main, payer), -(gas * GAS_PRICE))]
  }

  function SettleDeltas(range: Coin, payer: Addr, feeTo: Addr, left: nat, used: nat): seq<Delta> {
    (if left == 0 then [] else [Delta(Key(range, Main, payer), left * GAS_PRICE)]) + [Delta(Key(range, Main, feeTo), used * GAS_PRICE)]
  }

  /** Buying gas and settling it moves a coin around without making or losing any if and only if the fee is
      paid in the coin it was bought in (or no gas was bought). */
  lemma {:induction false} FeeConserves(coin: Coin, range: Coin, payer: Addr, feeTo: Addr, left: nat, used: nat)
    ensures CoinSum(BuyDeltas(coin, payer, left + used), coin) + CoinSum(SettleDeltas(range, payer, feeTo, left, used), coin) == 0
            <==> range == coin || left + used == 0
  {
    var gain, fee := Delta(Key(range, Main, payer), left * GAS_PRICE), Delta(Key(range, Main, feeTo), used * GAS_PRICE);
    SumsOne(BuyDeltas(coin, payer, left + used)[0], gain.key, coin);
    SumsOne(gain, gain.key, coin);
    SumsOne(fee, fee.key, coin);
    SumsConcat([gain], [fee], fee.key, coin);
    SumsConcat([], [fee], fee.key, coin);
    assert CoinSum([], coin) == 0;
    assert left == 0 ==> SettleDeltas(range, payer, feeTo, left, used) == [] + [fee];
  }
}
