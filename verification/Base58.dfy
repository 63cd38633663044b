/**
  Base58 of byte strings, and the checked addresses built on it: base58/base58.go.

  A Go string is a string of bytes; here each of its bytes is one `char`.
 */
module Base58 {
  import opened Digits
  import opened Addresses

  const ALPHABET: string := "123456789" + "ABCDEFGH" + "JKLMN" + "PQRSTUVWXYZ" + "abcdefghijk" + "mnopqrstuvwxyz"

  function Symbol(d: nat): char
    requires d < 58
  {
    ALPHABET[d]
  }

  /** The decoding table: 255 for a byte outside the alphabet. */
  function Digit(c: char): nat {
    var n := c as int;
    if 49 <= n <= 57 then n - 49
    else if 65 <= n <= 72 then n - 56
    else if 74 <= n <= 78 then n - 57
    else if 80 <= n <= 90 then n - 58
    else if 97 <= n <= 107 then n - 64
    else if 109 <= n <= 122 then n - 65
    else 255
  }

  /** The character with a given digit, by ranges. */
  function Ranged(d: nat): int
    requires d < 58
  {
    if d < 9 then d + 49
    else if d < 17 then d + 56
    else if d < 22 then d + 57
    else if d < 33 then d + 58
    else if d < 44 then d + 64
    else d + 65
  }

  lemma {:induction false} Alphabet(d: nat)
    requires d < 58
    ensures ALPHABET[d] as int == Ranged(d)
  {
    if d < 9 {
      assert ALPHABET[d] == "123456789"[d];
    } else if d < 17 {
      assert ALPHABET[d] == "ABCDEFGH"[d - 9];
    } else if d < 22 {
      assert ALPHABET[d] == "JKLMN"[d - 17];
    } else if d < 33 {
      assert ALPHABET[d] == "PQRSTUVWXYZ"[d - 22];
    } else if d < 44 {
      assert ALPHABET[d] == "abcdefghijk"[d - 33];
    } else {
      assert ALPHABET[d] == "mnopqrstuvwxyz"[d - 44];
    }
  }

  lemma {:induction false} DigitOfSymbol(d: nat)
    requires d < 58
    ensures Digit(Symbol(d)) == d
  {
    Alphabet(d);
  }

  lemma {:induction false} SymbolOfDigit(c: char)
    requires Digit(c) != 255
    ensures Digit(c) < 58 && Symbol(Digit(c)) == c
  {
    Alphabet(Digit(c));
  }

  // --- Strings and digits. ---

  function Spell(ds: seq<nat>): (s: string)
    requires AreDigits(58, ds)
    ensures |s| == |ds|
  {
    seq(|ds|, i requires 0 <= i < |ds| => assert ds[i] in ds; Symbol(ds[i]))
  }

  function Read(s: string): (ds: seq<nat>)
    ensures |ds| == |s|
  {
    seq(|s|, i requires 0 <= i < |s| => Digit(s[i]))
  }

  /** Whether a string is written in the alphabet. */
  predicate Spelled(s: string) {
    forall c <- s :: Digit(c) != 255
  }

  lemma {:induction false} ReadOfSpell(ds: seq<nat>)
    requires AreDigits(58, ds)
    ensures Read(Spell(ds)) == ds && Spelled(Spell(ds))
  {
    hide Digit, Symbol;
    forall i | 0 <= i < |ds|
      ensures Digit(Spell(ds)[i]) == ds[i] < 58
    {
      assert ds[i] in ds;
      DigitOfSymbol(ds[i]);
    }
  }

  lemma {:induction false} SpellOfRead(s: string)
    requires Spelled(s)
    ensures AreDigits(58, Read(s)) && Spell(Read(s)) == s
  {
    hide Digit, Symbol;
    forall i | 0 <= i < |s|
      ensures Read(s)[i] < 58 && Symbol(Read(s)[i]) == s[i]
    {
      assert s[i] in s;
      SymbolOfDigit(s[i]);
    }
  }

  // --- What the two directions compute. ---

  lemma {:induction false} Padded(b: Base, k: nat, n: nat)
    ensures AreDigits(b, Fill(k) + Notation(b, n))
    ensures Zeros(Fill(k) + Notation(b, n)) == k && Value(b, Fill(k) + Notation(b, n)) == n
  {
    NotationOk(b, n);
    ZerosOf(k, Notation(b, n));
    ValueFilled(b, k, Notation(b, n));
  }

  /** One digit for each leading zero byte, then the number in base 58. */
  ghost function Encoded(b: seq<Octet>): (s: string) {
    Padded(58, Zeros(b), Value(256, b));
    Spell(Fill(Zeros(b)) + Notation(58, Value(256, b)))
  }

  /** One zero byte for each leading zero digit, then the number in base 256. */
  ghost function Decoded(s: string): (b: seq<Octet>) {
    if Spelled(s) then
      Padded(256, Zeros(Read(s)), Value(58, Read(s)));
      var all := Fill(Zeros(Read(s))) + Notation(256, Value(58, Read(s)));
      Octets(all);
      all
    else []
  }

  lemma {:induction false} Octets(s: seq<nat>)
    requires AreDigits(256, s)
    ensures forall i | 0 <= i < |s| :: s[i] < 256
  {
    forall i | 0 <= i < |s|
      ensures s[i] < 256
    {
      assert s[i] in s;
    }
  }

  /** Decoding undoes encoding, for every byte string. */
  lemma {:induction false} DecodeEncoded(b: seq<Octet>)
    ensures Spelled(Encoded(b)) && Decoded(Encoded(b)) == b
  {
    hide Spell, Read, Spelled, Zeros, Value, Notation, Fill;
    var ds := Fill(Zeros(b)) + Notation(58, Value(256, b));
    Padded(58, Zeros(b), Value(256, b));
    ReadOfSpell(ds);
    assert AreDigits(256, b);
    Rebuild(256, b);
  }

  /** Encoding undoes decoding, for every string over the alphabet. */
  lemma {:induction false} EncodeDecoded(s: string)
    requires Spelled(s)
    ensures Encoded(Decoded(s)) == s
  {
    hide Spell, Read, Spelled, Zeros, Value, Notation, Fill;
    SpellOfRead(s);
    Padded(256, Zeros(Read(s)), Value(58, Read(s)));
    Rebuild(58, Read(s));
  }

  // --- The loops. ---

  method Decode(b: string) returns (val: seq<Octet>)
    ensures val == Decoded(b)
  {
    hide Digit, Value, Notation;
    var answer, j := 0, 1;
    var i := |b|;
    assert b[|b|..] == [] && Read([]) == [] && Value(58, []) == 0 by { ValueOfNone(58); }
    while i > 0
      invariant 0 <= i <= |b|
      invariant j == Pow(58, |b| - i) && answer == Value(58, Read(b[i..]))
      invariant Spelled(b[i..])
    {
      var tmp := Digit(b[i - 1]);
      if tmp == 255 {
        assert b[i - 1] in b;
        return [];
      }
      assert b[i - 1..] == [b[i - 1]] + b[i..];
      assert Read(b[i - 1..]) == [tmp] + Read(b[i..]);
      ValueFront(58, tmp, Read(b[i..]));
      answer := answer + j * tmp;
      j := j * 58;
      i := i - 1;
    }
    assert b[0..] == b;
    var tmpval := Notation(256, answer);
    var numZeros := LeadingOnes(b);
    Padded(256, numZeros, answer);
    Octets(Fill(numZeros) + tmpval);
    val := Fill(numZeros) + tmpval;
  }

  lemma {:induction false} ValueOfNone(b: Base)
    ensures Value(b, []) == 0
  {
  }

  method LeadingOnes(b: string) returns (k: nat)
    ensures k == Zeros(Read(b))
  {
    k := 0;
    ghost var ds := Read(b);
    while k < |b| && b[k] == '1'
      invariant k <= |b| && Zeros(ds) == k + Zeros(ds[k..])
    {
      assert ds[k] == 0;
      assert ds[k..][1..] == ds[k + 1..];
      k := k + 1;
    }
    assert k < |b| ==> ds[k..][0] == Digit(b[k]) != 0;
  }

  function Reversed<T>(s: seq<T>): (r: seq<T>)
    ensures |r| == |s|
  {
    seq(|s|, i requires 0 <= i < |s| => s[|s| - 1 - i])
  }

  lemma {:induction false} SpellReversed(ds: seq<nat>)
    requires AreDigits(58, ds)
    ensures AreDigits(58, Reversed(ds)) && Spell(Reversed(ds)) == Reversed(Spell(ds))
  {
    hide Symbol;
    forall i | 0 <= i < |ds|
      ensures Reversed(ds)[i] in ds
    {
      assert Reversed(ds)[i] == ds[|ds| - 1 - i];
    }
  }

  lemma {:induction false} ZeroSymbol()
    ensures Symbol(0) == '1'
  {
    Alphabet(0);
  }

  lemma {:induction false} SpellZeros(ds: seq<nat>, ones: string)
    requires AreDigits(58, ds) && forall c <- ones :: c == '1'
    ensures AreDigits(58, ds + Fill(|ones|)) && Spell(ds) + ones == Spell(ds + Fill(|ones|))
  {
    hide Symbol;
    ZeroSymbol();
    forall i | 0 <= i < |ones|
      ensures ones[i] == Symbol(Fill(|ones|)[i])
    {
      assert ones[i] in ones;
    }
  }

  method Encode(b: seq<Octet>) returns (text: string)
    ensures text == Encoded(b)
  {
    hide Notation, Value, Symbol, Zeros;
    var answer, ds := Divide(Value(256, b));
    var ones := LeadingZeros(b);
    ghost var all := ds + Fill(Zeros(b));
    SpellZeros(ds, ones);
    SpellReversed(all);
    Padded(58, Zeros(b), Value(256, b));
    assert Reversed(all) == Fill(Zeros(b)) + Reversed(ds);
    text := Reverse(answer + ones);
  }

  /** Digits by repeated division, the least significant first. */
  method Divide(n: nat) returns (answer: string, ghost ds: seq<nat>)
    ensures AreDigits(58, ds) && answer == Spell(ds) && Reversed(ds) == Notation(58, n)
  {
    hide Symbol;
    var x := n;
    answer, ds := [], [];
    while x > 0
      invariant AreDigits(58, ds) && answer == Spell(ds)
      invariant Notation(58, n) == Notation(58, x) + Reversed(ds)
    {
      Shrinks(x, 58);
      var mod := x % 58;
      assert Reversed(ds + [mod]) == [mod] + Reversed(ds);
      assert Spell(ds + [mod]) == Spell(ds) + [Symbol(mod)];
      x := x / 58;
      answer := answer + [Symbol(mod)];
      ds := ds + [mod];
    }
  }

  method LeadingZeros(b: seq<Octet>) returns (ones: string)
    ensures |ones| == Zeros(b) && forall c <- ones :: c == '1'
  {
    ones := [];
    var k := 0;
    while k < |b| && b[k] == 0
      invariant k <= |b| && |ones| == k && Zeros(b) == k + Zeros(b[k..])
      invariant forall c <- ones :: c == '1'
    {
      assert b[k..][1..] == b[k + 1..];
      ones := ones + ['1'];
      k := k + 1;
    }
  }

  method Reverse(s: string) returns (r: string)
    ensures r == Reversed(s)
  {
    r := s;
    for i := 0 to |s| / 2
      invariant |r| == |s|
      invariant forall k | 0 <= k < i :: r[k] == s[|s| - 1 - k] && r[|s| - 1 - k] == s[k]
      invariant forall k | i <= k < |s| - i :: r[k] == s[k]
    {
      r := r[i := r[|s| - 1 - i]][|s| - 1 - i := r[i]];
    }
  }
}
