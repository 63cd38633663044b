/**
  The table-driven cyclic redundancy check of crc8/crc8.go, tied to the division of polynomials
  over the field of two elements that it stands for.
 */
module Crc8 {

  datatype Params = Params(poly: bv8, init: bv8, refIn: bool, refOut: bool, xorOut: bv8)

  /** The parameters of the check character in an address. */
  const CRC8 := Params(0x07, 0, false, false, 0)

  predicate Top(x: bv8) {
    x & 0x80 != 0
  }

  function Xor(x: bv8, y: bv8): bv8 {
    x ^ y
  }

  function Double(x: bv8): bv8 {
    x << 1
  }

  function And(x: bv8, y: bv8): bv8 {
    x & y
  }

  function Or(x: bv8, y: bv8): bv8 {
    x | y
  }

  function Shift(x: bv8, n: nat): bv8 {
    if n == 0 then x else Double(Shift(x, n - 1))
  }

  lemma {:induction false} DoubleXor(x: bv8, y: bv8)
    ensures Double(Xor(x, y)) == Xor(Double(x), Double(y))
  {
  }

  lemma {:induction false} TopXor(x: bv8, y: bv8)
    ensures Top(Xor(x, y)) == (Top(x) != Top(y))
  {
  }

  lemma {:induction false} XorSwap(x: bv8, y: bv8, z: bv8)
    ensures Xor(Xor(x, y), z) == Xor(Xor(x, z), y) == Xor(x, Xor(y, z)) == Xor(x, Xor(z, y))
  {
  }

  lemma {:induction false} XorOff(x: bv8, y: bv8)
    ensures Xor(Xor(x, y), y) == x && Xor(x, 0) == x
  {
  }

  /** The register multiplied by x, modulo the polynomial. */
  function Times(poly: bv8, crc: bv8): bv8 {
    if Top(crc) then Xor(Double(crc), poly) else Double(crc)
  }

  function TimesN(poly: bv8, crc: bv8, n: nat): bv8 {
    if n == 0 then crc else Times(poly, TimesN(poly, crc, n - 1))
  }

  lemma {:induction false} TimesFirst(poly: bv8, crc: bv8, n: nat)
    ensures TimesN(poly, crc, n + 1) == TimesN(poly, Times(poly, crc), n)
  {
    hide Times;
    if n > 0 {
      TimesFirst(poly, crc, n - 1);
    }
  }

  lemma {:induction false} TimesLinear(poly: bv8, x: bv8, y: bv8)
    ensures Times(poly, Xor(x, y)) == Xor(Times(poly, x), Times(poly, y))
  {
    hide Top, Xor, Double;
    DoubleXor(x, y);
    TopXor(x, y);
    XorSwap(Double(x), Double(y), poly);
    XorSwap(Double(x), poly, Double(y));
    XorSwap(Xor(Double(x), poly), Double(y), poly);
    XorOff(Double(x), poly);
    XorOff(Double(y), poly);
  }

  lemma {:induction false} TimesNLinear(poly: bv8, x: bv8, y: bv8, n: nat)
    ensures TimesN(poly, Xor(x, y), n) == Xor(TimesN(poly, x, n), TimesN(poly, y, n))
  {
    hide Times, Xor;
    if n > 0 {
      TimesNLinear(poly, x, y, n - 1);
      TimesLinear(poly, TimesN(poly, x, n - 1), TimesN(poly, y, n - 1));
    }
  }

  lemma {:induction false} ZeroStays(poly: bv8, n: nat)
    ensures TimesN(poly, 0, n) == 0
  {
    if n > 0 {
      ZeroStays(poly, n - 1);
      assert Times(poly, 0) == 0;
    }
  }

  // --- Polynomial division, bit by bit. ---

  function Bit(b: bool): bv8 {
    if b then 1 else 0
  }

  function TopBit(b: bool): bv8 {
    if b then 0x80 else 0
  }

  /** Long division: the remainder left in the register once the bits have been brought down. */
  function Remainder(poly: bv8, bits: seq<bool>): bv8 {
    if bits == [] then 0
    else Xor(Times(poly, Remainder(poly, bits[..|bits| - 1])), Bit(bits[|bits| - 1]))
  }

  /** The shift register that takes each bit at its top instead, ahead of the division. */
  function Shifted(poly: bv8, crc: bv8, bits: seq<bool>): bv8 {
    if bits == [] then crc
    else Times(poly, Xor(Shifted(poly, crc, bits[..|bits| - 1]), TopBit(bits[|bits| - 1])))
  }

  /** A single bit climbs to the top of the register before the polynomial is first subtracted. */
  lemma {:induction false} BitClimbs(poly: bv8, b: bool)
    ensures TimesN(poly, Bit(b), 7) == TopBit(b)
  {
    if b {
      Climb(poly);
    } else {
      ZeroStays(poly, 7);
    }
  }

  lemma {:induction false} Climb(poly: bv8)
    ensures TimesN(poly, 1, 7) == 0x80
  {
    assert TimesN(poly, 1, 1) == 0x02 by { assert TimesN(poly, 1, 0) == 0x01; }
    assert TimesN(poly, 1, 2) == 0x04;
    assert TimesN(poly, 1, 3) == 0x08;
    assert TimesN(poly, 1, 4) == 0x10;
    assert TimesN(poly, 1, 5) == 0x20;
    assert TimesN(poly, 1, 6) == 0x40;
  }

  /** The shift register runs eight multiplications ahead of the long division. */
  lemma {:induction false} EightAhead(poly: bv8, bits: seq<bool>)
    ensures Shifted(poly, 0, bits) == TimesN(poly, Remainder(poly, bits), 8)
  {
    if bits == [] {
      ZeroStays(poly, 8);
    } else {
      var front, b := bits[..|bits| - 1], bits[|bits| - 1];
      EightAhead(poly, front);
      OneMore(poly, Remainder(poly, front), b);
    }
  }

  lemma {:induction false} OneMore(poly: bv8, r: bv8, b: bool)
    ensures TimesN(poly, Xor(Times(poly, r), Bit(b)), 8) == Times(poly, Xor(TimesN(poly, r, 8), TopBit(b)))
  {
    hide Times, Xor, Bit, TopBit;
    TimesNLinear(poly, Times(poly, r), Bit(b), 8);
    TimesFirst(poly, r, 8);
    BitClimbs(poly, b);
    TimesLinear(poly, TimesN(poly, r, 8), TopBit(b));
    assert TimesN(poly, Bit(b), 8) == Times(poly, TimesN(poly, Bit(b), 7));
    assert TimesN(poly, r, 9) == Times(poly, TimesN(poly, r, 8));
  }

  function Zeros(n: nat): seq<bool> {
    seq(n, i => false)
  }

  /** Bringing down zeros multiplies the remainder. */
  lemma {:induction false} BringDownZeros(poly: bv8, bits: seq<bool>, n: nat)
    ensures Remainder(poly, bits + Zeros(n)) == TimesN(poly, Remainder(poly, bits), n)
  {
    hide Times, Xor;
    var all := bits + Zeros(n);
    if n == 0 {
      assert all == bits;
    } else {
      assert all[..|all| - 1] == bits + Zeros(n - 1);
      BringDownZeros(poly, bits, n - 1);
      XorOff(Times(poly, Remainder(poly, all[..|all| - 1])), 0);
    }
  }

  /** What the shift register holds is the remainder of the message times x to the eighth. */
  lemma {:induction false} ShiftedIsRemainder(poly: bv8, bits: seq<bool>)
    ensures Shifted(poly, 0, bits) == Remainder(poly, bits + Zeros(8))
  {
    hide *;
    EightAhead(poly, bits);
    BringDownZeros(poly, bits, 8);
  }

  /** With another start value: the start value times x to the length of the message is added before the division. */
  lemma {:induction false} StartIsAdded(poly: bv8, start: bv8, bits: seq<bool>)
    ensures Shifted(poly, start, bits) == Xor(TimesN(poly, start, |bits|), Shifted(poly, 0, bits))
  {
    hide Times, Xor, TopBit;
    if bits == [] {
      XorOff(start, 0);
    } else {
      var front, t := bits[..|bits| - 1], TopBit(bits[|bits| - 1]);
      StartIsAdded(poly, start, front);
      var x, y := TimesN(poly, start, |front|), Shifted(poly, 0, front);
      XorSwap(x, y, t);
      TimesLinear(poly, x, Xor(y, t));
    }
  }

  // --- Quotients. ---

  /** The sum of two polynomials, coefficient by coefficient. */
  function Sum(a: seq<bool>, b: seq<bool>): (c: seq<bool>)
    requires |a| == |b|
    ensures |c| == |a|
  {
    seq(|a|, i requires 0 <= i < |a| => a[i] != b[i])
  }

  /** The divisor: x to the eighth and the polynomial below it. */
  function Divisor(poly: bv8): (d: seq<bool>)
    ensures |d| == 9
  {
    [true] + BitsOf(poly)
  }

  /** A product with the divisor, one coefficient of the other factor after the other. */
  function Product(q: seq<bool>, poly: bv8): (c: seq<bool>)
    ensures |c| == |q| + 8
  {
    if q == [] then Zeros(8)
    else
      var n := |q| - 1;
      var shifted := Product(q[..n], poly) + [false];
      if q[n] then Sum(shifted, Zeros(n) + Divisor(poly)) else shifted
  }

  /** Where the divisor is subtracted during the division. */
  function Quotient(poly: bv8, bits: seq<bool>): (q: seq<bool>)
    ensures |q| == |bits|
  {
    if bits == [] then [] else var front := bits[..|bits| - 1]; Quotient(poly, front) + [Top(Remainder(poly, front))]
  }

  lemma {:induction false} CoefficientXor(x: bv8, y: bv8, i: nat)
    requires i < 8
    ensures BitsOf(Xor(x, y))[i] == (BitsOf(x)[i] != BitsOf(y)[i])
  {
    hide Top, Xor, Double;
    ShiftXor(x, y, i);
    TopXor(Shift(x, i), Shift(y, i));
  }

  lemma {:induction false} ShiftXor(x: bv8, y: bv8, n: nat)
    ensures Shift(Xor(x, y), n) == Xor(Shift(x, n), Shift(y, n))
  {
    hide Xor, Double;
    if n > 0 {
      ShiftXor(x, y, n - 1);
      DoubleXor(Shift(x, n - 1), Shift(y, n - 1));
    }
  }

  lemma {:induction false} ShiftDouble(x: bv8, n: nat)
    ensures Shift(Double(x), n) == Shift(x, n + 1)
  {
    hide Double;
    if n > 0 {
      ShiftDouble(x, n - 1);
    }
  }

  lemma {:induction false} CoefficientDouble(x: bv8, i: nat)
    requires i < 8
    ensures BitsOf(Double(x))[i] == (i < 7 && BitsOf(x)[i + 1])
  {
    hide Double;
    ShiftDouble(x, i);
    Shifts(x);
    if i == 7 {
      assert !Top(0);
    }
  }

  lemma {:induction false} CoefficientBit(b: bool, i: nat)
    requires i < 8
    ensures BitsOf(Bit(b))[i] == (i == 7 && b)
  {
    hide Shift;
    Shifts(Bit(b));
  }

  lemma {:induction false} OneCoefficient(poly: bv8, r: bv8, b: bool, i: nat)
    requires i < 8
    ensures (BitsOf(r) + [b])[i + 1] == (BitsOf(Xor(Times(poly, r), Bit(b)))[i] != (Top(r) && BitsOf(poly)[i]))
  {
    hide Top, Xor, Double, Bit, BitsOf;
    CoefficientXor(Times(poly, r), Bit(b), i);
    CoefficientXor(Double(r), poly, i);
    CoefficientDouble(r, i);
    CoefficientBit(b, i);
  }

  /** One bit brought down: nine coefficients of the dividend are those of the divisor, if it is subtracted, and of
      the new remainder. */
  lemma {:induction false} OneSubtraction(poly: bv8, r: bv8, b: bool)
    ensures var next := [false] + BitsOf(Xor(Times(poly, r), Bit(b)));
            BitsOf(r) + [b] == if Top(r) then Sum(Divisor(poly), next) else next
  {
    assert BitsOf(r)[0] == Top(r) by { assert Shift(r, 0) == r; }
    hide Top, Xor, Double, Bit, BitsOf, Times;
    forall i | 0 <= i < 8
      ensures (BitsOf(r) + [b])[i + 1] == (BitsOf(Xor(Times(poly, r), Bit(b)))[i] != (Top(r) && BitsOf(poly)[i]))
    {
      OneCoefficient(poly, r, b, i);
    }
    NineCoefficients(BitsOf(r), b, BitsOf(poly), BitsOf(Xor(Times(poly, r), Bit(b))), Top(r));
  }

  lemma {:induction false} NineCoefficients(r: seq<bool>, b: bool, low: seq<bool>, next: seq<bool>, take: bool)
    requires |r| == |low| == |next| == 8 && r[0] == take
    requires forall i | 0 <= i < 8 :: (r + [b])[i + 1] == (next[i] != (take && low[i]))
    ensures r + [b] == if take then Sum([true] + low, [false] + next) else [false] + next
  {
    var all := if take then Sum([true] + low, [false] + next) else [false] + next;
    forall i | 0 <= i < 9 ensures (r + [b])[i] == all[i] {
      if i > 0 {
        assert (r + [b])[i - 1 + 1] == (next[i - 1] != (take && low[i - 1]));
      }
    }
  }

  /** The message is the quotient times the divisor, plus the remainder. */
  lemma {:induction false} Division(poly: bv8, bits: seq<bool>)
    ensures Zeros(8) + bits == Sum(Product(Quotient(poly, bits), poly), Zeros(|bits|) + BitsOf(Remainder(poly, bits)))
  {
    hide Top, Xor, Double, Bit, BitsOf, Times, Divisor;
    if bits == [] {
      NoBits();
    } else {
      var n := |bits| - 1;
      var front, b, q := bits[..n], bits[n], Quotient(poly, bits);
      Division(poly, front);
      var r := Remainder(poly, front);
      OneSubtraction(poly, r, b);
      assert q[..n] == Quotient(poly, front) && q[n] == Top(r);
      var p, d := Product(q[..n], poly), Divisor(poly);
      assert Product(q, poly) == if q[n] then Sum(p + [false], Zeros(n) + d) else p + [false];
      assert bits == front + [b];
      hide Product, Quotient, Sum, Zeros;
      DivisionStep(p, front, BitsOf(r), b, d, BitsOf(Remainder(poly, bits)), Top(r));
    }
  }

  lemma {:induction false} NoBits()
    ensures BitsOf(0) == Zeros(8)
  {
    Shifts(0);
    assert !Top(0);
  }

  /** The step of the division on coefficients alone. */
  lemma {:induction false} DivisionStep(product: seq<bool>, front: seq<bool>, r: seq<bool>, b: bool, d: seq<bool>, next: seq<bool>, take: bool)
    requires |product| == |front| + 8 && |r| == 8 && |d| == 9 && |next| == 8
    requires Zeros(8) + front == Sum(product, Zeros(|front|) + r)
    requires r + [b] == if take then Sum(d, [false] + next) else [false] + next
    ensures var n := |front|;
            Zeros(8) + (front + [b]) == Sum(if take then Sum(product + [false], Zeros(n) + d) else product + [false], Zeros(n + 1) + next)
  {
    var n := |front|;
    var p := if take then Sum(product + [false], Zeros(n) + d) else product + [false];
    var all := Sum(p, Zeros(n + 1) + next);
    forall i | 0 <= i < n + 9 ensures all[i] == (Zeros(8) + (front + [b]))[i] {
      var low := if i < n then false else (r + [b])[i - n];
      assert (Zeros(n + 1) + next)[i] == if i < n then false else ([false] + next)[i - n];
      assert (Zeros(n) + d)[i] == if i < n then false else d[i - n];
      if i < n + 8 {
        assert (Zeros(8) + front)[i] == (product[i] != (Zeros(n) + r)[i]);
      }
    }
  }

  // --- Bytes. ---

  /** The bits of a byte, its top bit first. */
  function BitsOf(d: bv8): (bits: seq<bool>)
    ensures |bits| == 8
  {
    seq(8, (i: nat) => Top(Shift(d, i)))
  }

  /** The byte with its bits in the opposite order. */
  function Mirrored(d: bv8): bv8 {
    ((d & 0x01) << 7) | ((d & 0x02) << 5) | ((d & 0x04) << 3) | ((d & 0x08) << 1) |
    ((d & 0x10) >> 1) | ((d & 0x20) >> 3) | ((d & 0x40) >> 5) | ((d & 0x80) >> 7)
  }

  function Taken(p: Params, d: bv8): bv8 {
    if p.refIn then Mirrored(d) else d
  }

  /** The message as a polynomial: the bits of its bytes one after the other. */
  function Message(p: Params, data: seq<bv8>): seq<bool> {
    if data == [] then []
    else Message(p, data[..|data| - 1]) + BitsOf(Taken(p, data[|data| - 1]))
  }

  /** Feeding the first `i` bits of a byte multiplies `crc ^ d`, but for the bits still to come. */
  lemma {:induction false} FeedBits(poly: bv8, crc: bv8, d: bv8, i: nat)
    requires i <= 8
    ensures Shifted(poly, crc, BitsOf(d)[..i]) == Xor(TimesN(poly, Xor(crc, d), i), Shift(d, i))
  {
    hide Times, Xor, TopBit, Top, Double;
    if i == 0 {
      XorOff(crc, d);
    } else {
      FeedBits(poly, crc, d, i - 1);
      assert BitsOf(d)[..i][..i - 1] == BitsOf(d)[..i - 1];
      FeedBit(poly, TimesN(poly, Xor(crc, d), i - 1), Shift(d, i - 1));
    }
  }

  lemma {:induction false} FeedBit(poly: bv8, s: bv8, e: bv8)
    ensures Times(poly, Xor(Xor(s, e), TopBit(Top(e)))) == Xor(Times(poly, s), Double(e))
  {
    hide Times, Xor, TopBit, Top, Double;
    var t := Xor(e, TopBit(Top(e)));
    XorSwap(s, e, TopBit(Top(e)));
    TimesLinear(poly, s, t);
    DropTop(poly, e);
  }

  lemma {:induction false} DropTop(poly: bv8, e: bv8)
    ensures Times(poly, Xor(e, TopBit(Top(e)))) == Double(e)
  {
    var t := e ^ (if e & 0x80 != 0 then 0x80 else 0);
    assert t & 0x80 == 0 && t << 1 == e << 1;
  }

  lemma {:induction false} Shifts(d: bv8)
    ensures Shift(d, 0) == d && Shift(d, 1) == d << 1 && Shift(d, 2) == d << 2 && Shift(d, 3) == d << 3
    ensures Shift(d, 4) == d << 4 && Shift(d, 5) == d << 5 && Shift(d, 6) == d << 6 && Shift(d, 7) == d << 7
    ensures Shift(d, 8) == 0
  {
    assert Shift(d, 1) == d << 1 by { assert Shift(d, 0) == d; }
    assert Shift(d, 2) == d << 2;
    assert Shift(d, 3) == d << 3;
    assert Shift(d, 4) == d << 4;
    assert Shift(d, 5) == d << 5;
    assert Shift(d, 6) == d << 6;
    assert Shift(d, 7) == d << 7;
  }

  lemma {:induction false} FeedByte(poly: bv8, crc: bv8, d: bv8)
    ensures Shifted(poly, crc, BitsOf(d)) == TimesN(poly, Xor(crc, d), 8)
  {
    hide *;
    FeedBits(poly, crc, d, 8);
    assert BitsOf(d)[..8] == BitsOf(d);
    Shifts(d);
    XorOff(TimesN(poly, Xor(crc, d), 8), 0);
  }

  lemma {:induction false} ShiftedAppend(poly: bv8, crc: bv8, a: seq<bool>, b: seq<bool>)
    ensures Shifted(poly, crc, a + b) == Shifted(poly, Shifted(poly, crc, a), b)
    decreases |b|
  {
    hide Times, Xor, TopBit;
    if b == [] {
      assert a + b == a;
    } else {
      assert (a + b)[..|a + b| - 1] == a + b[..|b| - 1];
      ShiftedAppend(poly, crc, a, b[..|b| - 1]);
    }
  }

  // --- The code. ---

  function Power(i: nat): bv8 {
    if i == 0 then 1 else Double(Power(i - 1))
  }

  function Half(x: bv8): bv8 {
    x >> 1
  }

  function Halved(x: bv8, n: nat): bv8 {
    if n == 0 then x else Half(Halved(x, n - 1))
  }

  lemma {:induction false} Halves(d: bv8)
    ensures Halved(d, 0) == d && Halved(d, 1) == d >> 1 && Halved(d, 2) == d >> 2 && Halved(d, 3) == d >> 3
    ensures Halved(d, 4) == d >> 4 && Halved(d, 5) == d >> 5 && Halved(d, 6) == d >> 6 && Halved(d, 7) == d >> 7
    ensures Halved(d, 8) == 0
  {
    assert Halved(d, 1) == d >> 1 by { assert Halved(d, 0) == d; }
    assert Halved(d, 2) == d >> 2;
    assert Halved(d, 3) == d >> 3;
    assert Halved(d, 4) == d >> 4;
    assert Halved(d, 5) == d >> 5;
    assert Halved(d, 6) == d >> 6;
    assert Halved(d, 7) == d >> 7;
  }

  /** The top bits of a byte, brought down one after the other, do not reach the top of the register. */
  lemma {:induction false} BroughtDown(d: bv8, i: nat)
    requires i < 8
    ensures !Top(Halved(d, 8 - i)) && Xor(Double(Halved(d, 8 - i)), Bit(Top(Shift(d, i)))) == Halved(d, 7 - i)
  {
    hide Halved, Shift;
    Halves(d);
    Shifts(d);
    if i == 0 {
    } else if i == 1 {
    } else if i == 2 {
    } else if i == 3 {
    } else if i == 4 {
    } else if i == 5 {
    } else if i == 6 {
    } else {
      assert i == 7;
    }
  }

  lemma {:induction false} TopBits(poly: bv8, d: bv8, i: nat)
    requires i <= 8
    ensures Remainder(poly, BitsOf(d)[..i]) == Halved(d, 8 - i)
  {
    if i == 0 {
      Halves(d);
    } else {
      TopBits(poly, d, i - 1);
      BroughtDown(d, i - 1);
      hide Top, Xor, Double, Bit, Halved, Shift, Remainder;
      ByteStep(poly, BitsOf(d), i - 1, Halved(d, 8 - (i - 1)));
    }
  }

  /** A byte is its own remainder. */
  lemma {:induction false} ByteItself(poly: bv8, d: bv8)
    ensures Remainder(poly, BitsOf(d)) == d
  {
    TopBits(poly, d, 8);
    Halves(d);
    hide *;
    assert BitsOf(d)[..8] == BitsOf(d);
  }

  lemma {:induction false} ByteStep(poly: bv8, e: seq<bool>, i: nat, r: bv8)
    requires i < 8 && |e| == 8 && Remainder(poly, e[..i]) == r && !Top(r)
    ensures Remainder(poly, e[..i + 1]) == Xor(Double(r), Bit(e[i]))
  {
    assert e[..i + 1][..i] == e[..i];
    hide Top, Xor, Double, Bit;
  }

  /** The mask of the `i` topmost bits. */
  function Upper(i: nat): bv8
    requires i <= 8
  {
    if i == 0 then 0 else Or(Upper(i - 1), Power(8 - i))
  }

  lemma {:induction false} Powers()
    ensures Power(0) == 0x01 && Power(1) == 0x02 && Power(2) == 0x04 && Power(3) == 0x08
    ensures Power(4) == 0x10 && Power(5) == 0x20 && Power(6) == 0x40 && Power(7) == 0x80
  {
    assert Power(0) == 0x01;
    assert Power(1) == 0x02;
    assert Power(2) == 0x04;
    assert Power(3) == 0x08;
    assert Power(4) == 0x10;
    assert Power(5) == 0x20;
    assert Power(6) == 0x40;
  }

  /** One bit of the mirror image. */
  lemma {:induction false} MirrorBit(d: bv8, i: nat)
    requires i < 8
    ensures And(Mirrored(d), Power(7 - i)) == if Test(d, i) then Power(7 - i) else 0
    ensures Power(i) != 0
  {
    hide Power;
    Powers();
    if i == 0 {
    } else if i == 1 {
    } else if i == 2 {
    } else if i == 3 {
    } else if i == 4 {
    } else if i == 5 {
    } else if i == 6 {
    } else {
      assert i == 7;
    }
  }

  lemma {:induction false} ShiftTests(d: bv8, i: nat)
    requires i < 8
    ensures Top(Shift(d, i)) == Test(d, 7 - i)
  {
    hide Power, Shift;
    Powers();
    Shifts(d);
    if i == 0 {
    } else if i == 1 {
    } else if i == 2 {
    } else if i == 3 {
    } else if i == 4 {
    } else if i == 5 {
    } else if i == 6 {
    } else {
      assert i == 7;
    }
  }

  /** Mirroring reverses the bits. */
  lemma {:induction false} MirrorReverses(d: bv8, i: nat)
    requires i < 8
    ensures BitsOf(Mirrored(d))[i] == BitsOf(d)[7 - i]
  {
    hide Mirrored, Power, Shift, Top, And;
    ShiftTests(d, 7 - i);
    ShiftTests(Mirrored(d), i);
    MirrorBit(d, 7 - i);
    MirrorBit(d, i);
  }

  predicate Test(d: bv8, i: nat) {
    And(d, Power(i)) != 0
  }

  function Put(r: bv8, i: nat): bv8
    requires i < 8
  {
    Or(r, Power(7 - i))
  }

  /** The mirror image as far as `i` bits have been looked at. */
  function Part(d: bv8, i: nat): bv8
    requires i <= 8
  {
    And(Mirrored(d), Upper(i))
  }

  lemma {:induction false} Distribute(m: bv8, x: bv8, y: bv8)
    ensures And(m, Or(x, y)) == Or(And(m, x), And(m, y))
    ensures Or(And(m, x), 0) == And(m, x)
  {
  }

  lemma {:induction false} PartMore(d: bv8, i: nat)
    requires i < 8
    ensures Part(d, i + 1) == if Test(d, i) then Put(Part(d, i), i) else Part(d, i)
  {
    hide Mirrored, Power, And, Or;
    MirrorBit(d, i);
    Distribute(Mirrored(d), Upper(i), Power(7 - i));
  }

  lemma {:induction false} PartAll(d: bv8)
    ensures Part(d, 0) == 0 && Part(d, 8) == Mirrored(d)
  {
    hide Mirrored, Power;
    Powers();
    assert Upper(1) == 0x80 by { assert Upper(0) == 0; }
    assert Upper(2) == 0xC0;
    assert Upper(3) == 0xE0;
    assert Upper(4) == 0xF0;
    assert Upper(5) == 0xF8;
    assert Upper(6) == 0xFC;
    assert Upper(7) == 0xFE;
  }

  method ReverseByte(val: bv8) returns (rval: bv8)
    ensures rval == Mirrored(val)
  {
    hide *;
    rval := 0;
    PartAll(val);
    for i := 0 to 8
      invariant rval == Part(val, i)
    {
      PartMore(val, i);
      if Test(val, i) {
        rval := Put(rval, i);
      }
    }
  }

  /** The table: at each index, the index multiplied by x to the eighth. */
  datatype Table = Table(params: Params, data: seq<bv8>)

  ghost predicate TableOk(t: Table) {
    |t.data| == 256 && forall x: bv8 :: t.data[x as int] == TimesN(t.params.poly, x, 8)
  }

  method MakeTable(params: Params) returns (table: Table)
    ensures TableOk(table) && table.params == params
  {
    hide TimesN, Times;
    var data := new bv8[256];
    for n := 0 to 256
      invariant forall m :: 0 <= m < n ==> data[m] == TimesN(params.poly, m as bv8, 8)
    {
      data[n] := MakeEntry(params.poly, n as bv8);
    }
    table := Table(params, data[..]);
  }

  method MakeEntry(poly: bv8, n: bv8) returns (crc: bv8)
    ensures crc == TimesN(poly, n, 8)
  {
    hide Top, Double, Xor;
    crc := n;
    for i := 0 to 8
      invariant crc == TimesN(poly, n, i)
    {
      var bit := Top(crc);
      crc := Double(crc);
      if bit {
        crc := Xor(crc, poly);
      }
    }
  }

  method Update(start: bv8, data: seq<bv8>, table: Table) returns (crc: bv8)
    requires TableOk(table)
    ensures crc == Shifted(table.params.poly, start, Message(table.params, data))
  {
    hide Times, TimesN, BitsOf, Mirrored, TopBit, Xor;
    ghost var p := table.params;
    crc := start;
    for i := 0 to |data|
      invariant crc == Shifted(p.poly, start, Message(p, data[..i]))
    {
      var d := data[i];
      if table.params.refIn {
        d := ReverseByte(d);
      }
      FeedByte(p.poly, crc, d);
      ShiftedAppend(p.poly, start, Message(p, data[..i]), BitsOf(d));
      assert data[..i + 1][..i] == data[..i];
      crc := table.data[Xor(crc, d) as int];
    }
    assert data[..|data|] == data;
  }

  /** What is made of the register once the message is in. */
  function Finished(p: Params, crc: bv8): bv8 {
    Xor(if p.refOut then Mirrored(crc) else crc, p.xorOut)
  }

  /** The remainder of the message times x to the eighth, with the start value added to its first bits. */
  function Register(p: Params, message: seq<bool>): bv8 {
    Xor(Remainder(p.poly, BitsOf(p.init) + Zeros(|message|)), Remainder(p.poly, message + Zeros(8)))
  }

  lemma {:induction false} ShiftedIsRegister(p: Params, message: seq<bool>)
    ensures Shifted(p.poly, p.init, message) == Register(p, message)
  {
    hide Shifted, Remainder, TimesN, BitsOf, Xor;
    StartIsAdded(p.poly, p.init, message);
    ShiftedIsRemainder(p.poly, message);
    BringDownZeros(p.poly, BitsOf(p.init), |message|);
    ByteItself(p.poly, p.init);
  }

  method Checksum(data: seq<bv8>, table: Table) returns (sum: bv8)
    requires TableOk(table)
    ensures sum == Finished(table.params, Register(table.params, Message(table.params, data)))
  {
    hide Register, Shifted, Message, TimesN;
    var crc := Update(table.params.init, data, table);
    ShiftedIsRegister(table.params, Message(table.params, data));
    if table.params.refOut {
      crc := ReverseByte(crc);
    }
    sum := Xor(crc, table.params.xorOut);
  }

  /** The check of an address: the remainder of its bytes, times x to the eighth, by x^8 + x^2 + x + 1. */
  function CheckOf(data: seq<bv8>): bv8 {
    Remainder(CRC8.poly, Message(CRC8, data) + Zeros(8))
  }

  method CalCRC8(data: seq<bv8>) returns (sum: bv8)
    ensures sum == CheckOf(data)
  {
    hide Shifted, Remainder, Message, TimesN, Register;
    var table := MakeTable(CRC8);
    sum := Checksum(data, table);
    ShiftedIsRegister(CRC8, Message(CRC8, data));
    ShiftedIsRemainder(CRC8.poly, Message(CRC8, data));
    XorOff(Shifted(CRC8.poly, 0, Message(CRC8, data)), 0);
  }
}
