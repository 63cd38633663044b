/**
  Positional notation: a list of digits, most significant first, and the number it stands for, in
  any base from two on. A number has one notation without leading zeros.
 */
module Digits {

  type Base = b: nat | b >= 2 witness 2

  ghost predicate AreDigits(b: Base, s: seq<nat>) {
    forall d <- s :: d < b
  }

  function Value(b: Base, s: seq<nat>): nat {
    if s == [] then 0 else Value(b, s[..|s| - 1]) * b + s[|s| - 1]
  }

  function Notation(b: Base, n: nat): seq<nat>
    decreases n
  {
    if n == 0 then [] else
      Shrinks(n, b);
      Notation(b, n / b) + [n % b]
  }

  lemma {:induction false} Shrinks(n: nat, b: Base)
    requires n > 0
    ensures 0 <= n / b < n && n == n / b * b + n % b && 0 <= n % b < b
  {
    AtLeastTwice(n / b, b);
  }

  lemma {:induction false} AtLeastTwice(q: nat, b: nat)
    requires b >= 2
    ensures q * b >= 2 * q
    decreases b
  {
    if b > 2 {
      AtLeastTwice(q, b - 1);
      assert q * b == q * (b - 1) + q;
    }
  }

  lemma {:induction false} NotationOk(b: Base, n: nat)
    ensures AreDigits(b, Notation(b, n)) && Value(b, Notation(b, n)) == n
    ensures n > 0 ==> Notation(b, n) != [] && Notation(b, n)[0] != 0
    decreases n
  {
    if n > 0 {
      Shrinks(n, b);
      NotationOk(b, n / b);
      var s := Notation(b, n / b);
      assert Notation(b, n)[..|s|] == s;
    }
  }

  /** How many leading zeros. */
  function Zeros(s: seq<nat>): (k: nat)
    ensures k <= |s|
  {
    if s == [] || s[0] != 0 then 0 else 1 + Zeros(s[1..])
  }

  function Fill(k: nat): seq<nat> {
    seq(k, i => 0)
  }

  lemma {:induction false} ZerosSplit(s: seq<nat>)
    ensures s == Fill(Zeros(s)) + s[Zeros(s)..] && (Zeros(s) < |s| ==> s[Zeros(s)] != 0)
  {
    if s != [] && s[0] == 0 {
      ZerosSplit(s[1..]);
      assert s == [0] + s[1..];
      assert Fill(Zeros(s)) == [0] + Fill(Zeros(s[1..]));
    }
  }

  lemma {:induction false} ZerosOf(k: nat, s: seq<nat>)
    requires s == [] || s[0] != 0
    ensures Zeros(Fill(k) + s) == k
  {
    if k > 0 {
      assert (Fill(k) + s)[1..] == Fill(k - 1) + s;
      ZerosOf(k - 1, s);
    } else {
      assert Fill(k) + s == s;
    }
  }

  /** Leading zeros do not count. */
  lemma {:induction false} ValueFilled(b: Base, k: nat, s: seq<nat>)
    ensures Value(b, Fill(k) + s) == Value(b, s)
    decreases k + |s|
  {
    var t := Fill(k) + s;
    if s != [] {
      assert t[..|t| - 1] == Fill(k) + s[..|s| - 1];
      ValueFilled(b, k, s[..|s| - 1]);
    } else if k > 0 {
      assert t[..|t| - 1] == Fill(k - 1) + [];
      ValueFilled(b, k - 1, []);
    }
  }

  lemma {:induction false} Positive(b: Base, s: seq<nat>)
    requires s != [] && s[0] != 0
    ensures Value(b, s) > 0
  {
    if |s| > 1 {
      var t := s[..|s| - 1];
      Positive(b, t);
      AtLeastTwice(Value(b, t), b);
    } else {
      assert s[..0] == [];
    }
  }

  /** The notation of a number is the only one without leading zeros. */
  lemma {:induction false} OneNotation(b: Base, s: seq<nat>)
    requires AreDigits(b, s) && (s == [] || s[0] != 0)
    ensures Notation(b, Value(b, s)) == s
    decreases |s|
  {
    if s != [] {
      var t, d := s[..|s| - 1], s[|s| - 1];
      assert forall x <- t :: x in s;
      OneNotation(b, t);
      Positive(b, s);
      Shrinks(Value(b, s), b);
      assert d in s;
      Quotient(Value(b, t), b, d);
      assert s == t + [d];
    }
  }

  lemma {:induction false} Quotient(q: nat, b: Base, d: nat)
    requires d < b
    ensures (q * b + d) / b == q && (q * b + d) % b == d
  {
    var n := q * b + d;
    var p, r := n / b, n % b;
    assert n == p * b + r && 0 <= r < b;
    assert (p - q) * b == d - r;
    OnlyZero(p - q, b);
  }

  lemma {:induction false} OnlyZero(k: int, b: Base)
    requires 0 - b < k * b < b
    ensures k == 0
  {
    if k > 0 {
      AtLeastOne(k, b);
    } else if k < 0 {
      assert (0 - k) * b == 0 - k * b;
      AtLeastOne(0 - k, b);
    }
  }

  lemma {:induction false} AtLeastOne(k: nat, b: nat)
    requires k > 0
    ensures k * b >= b
  {
    if k > 1 {
      AtLeastOne(k - 1, b);
      assert k * b == (k - 1) * b + b;
    }
  }

  /** A list of digits is its leading zeros and the notation of its value. */
  lemma {:induction false} Rebuild(b: Base, s: seq<nat>)
    requires AreDigits(b, s)
    ensures Fill(Zeros(s)) + Notation(b, Value(b, s)) == s
  {
    var k := Zeros(s);
    ZerosSplit(s);
    ValueFilled(b, k, s[k..]);
    assert forall d <- s[k..] :: d in s;
    OneNotation(b, s[k..]);
  }

  function Pow(b: Base, n: nat): nat {
    if n == 0 then 1 else Pow(b, n - 1) * b
  }

  lemma {:induction false} ValueFront(b: Base, d: nat, s: seq<nat>)
    ensures Value(b, [d] + s) == d * Pow(b, |s|) + Value(b, s)
  {
    var t := [d] + s;
    if s == [] {
      assert t[..0] == [];
    } else {
      var f, x := s[..|s| - 1], s[|s| - 1];
      assert t[..|t| - 1] == [d] + f;
      ValueFront(b, d, f);
      assert (d * Pow(b, |f|) + Value(b, f)) * b == d * (Pow(b, |f|) * b) + Value(b, f) * b;
    }
  }
}
