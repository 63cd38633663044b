/**
  Checked addresses: a currency, a dot, twenty bytes in base 58 and a check character
  (base58/base58.go, common/types.go).
 */
module ManAddress {
  import opened Base58
  import Crc8
  import opened Addresses

  /** Letters and upper case among the first 256 code points, which is what a byte is looked up as. */
  predicate UpperLetter(c: char) {
    var n := c as int;
    65 <= n <= 90 || 192 <= n <= 214 || 216 <= n <= 222
  }

  predicate ValidCurrency(s: string) {
    3 <= |s| <= 8 && forall c <- s :: UpperLetter(c)
  }

  method IsValidityManCurrency(s: string) returns (ok: bool)
    ensures ok == ValidCurrency(s)
  {
    if |s| < 3 || |s| > 8 {
      return false;
    }
    for i := 0 to |s|
      invariant forall c <- s[..i] :: UpperLetter(c)
    {
      if !UpperLetter(s[i]) {
        assert s[i] in s;
        return false;
      }
    }
    assert s[..|s|] == s;
    return true;
  }

  function Bytes(s: string): seq<bv8> {
    seq(|s|, i requires 0 <= i < |s| => (s[i] as int % 256) as bv8)
  }

  /** The check character that must follow `s`. */
  function CheckChar(s: string): (c: char)
    ensures Digit(c) != 255
  {
    var d := Crc8.CheckOf(Bytes(s)) as int % 58;
    DigitOfSymbol(d);
    Symbol(d)
  }

  /** `EncodeInt`: nothing for a number that is not a digit. */
  function EncodeInt(d: nat): string {
    if d > 57 then "" else [Symbol(d)]
  }

  // --- Splitting at dots. ---

  /** Where the first dot stands, or the length when there is none. */
  function DotAt(s: string): (k: nat)
    ensures k <= |s| && (k < |s| ==> s[k] == '.') && '.' !in s[..k]
  {
    if s == [] || s[0] == '.' then 0
    else
      var k := 1 + DotAt(s[1..]);
      assert s[..k] == [s[0]] + s[1..][..k - 1];
      k
  }

  lemma {:induction false} DotOf(a: string, b: string)
    requires '.' !in a
    ensures DotAt(a + "." + b) == |a|
  {
    var t := a + "." + b;
    assert t[|a|] == '.' && t[..|a|] == a;
  }

  lemma {:induction false} NoDot(s: string)
    requires '.' !in s
    ensures DotAt(s) == |s|
  {
  }

  function Currency(t: string): string {
    t[..DotAt(t)]
  }

  /** What follows the first dot, up to the next one. */
  function Second(t: string): string
    requires '.' in t
  {
    HasDot(t);
    var rest := t[DotAt(t) + 1..];
    rest[..DotAt(rest)]
  }

  lemma {:induction false} HasDot(t: string)
    requires '.' in t
    ensures DotAt(t) < |t|
  {
    assert t[..|t|] == t;
  }

  // --- Trimming. ---

  /** White space of one byte. */
  predicate Space(c: char) {
    c as int in {9, 10, 11, 12, 13, 32}
  }

  /** White space of two or three bytes in UTF-8. */
  predicate Space2(a: char, b: char) {
    a as int == 0xC2 && b as int in {0x85, 0xA0}
  }

  predicate Space3(a: char, b: char, c: char) {
    var x, y, z := a as int, b as int, c as int;
    || (x == 0xE1 && y == 0x9A && z == 0x80)
    || (x == 0xE2 && y == 0x80 && (0x80 <= z <= 0x8A || z in {0xA8, 0xA9, 0xAF}))
    || (x == 0xE2 && y == 0x81 && z == 0x9F)
    || (x == 0xE3 && y == 0x80 && z == 0x80)
  }

  /** How many bytes the white space at the front takes; zero if there is none. */
  function SpaceFront(s: string): (n: nat)
    ensures n <= |s|
  {
    if s != [] && Space(s[0]) then 1
    else if |s| >= 2 && Space2(s[0], s[1]) then 2
    else if |s| >= 3 && Space3(s[0], s[1], s[2]) then 3
    else 0
  }

  function SpaceBack(s: string): (n: nat)
    ensures n <= |s|
  {
    var k := |s|;
    if k >= 1 && Space(s[k - 1]) then 1
    else if k >= 2 && Space2(s[k - 2], s[k - 1]) then 2
    else if k >= 3 && Space3(s[k - 3], s[k - 2], s[k - 1]) then 3
    else 0
  }

  function TrimLeft(s: string): string {
    if SpaceFront(s) > 0 then TrimLeft(s[SpaceFront(s)..]) else s
  }

  function TrimRight(s: string): string {
    if SpaceBack(s) > 0 then TrimRight(s[..|s| - SpaceBack(s)]) else s
  }

  function Trim(s: string): string {
    TrimRight(TrimLeft(s))
  }

  // --- Addresses. ---

  /** The last twenty bytes, or zeros in front. */
  function Fit(b: seq<Octet>): Address {
    if |b| > LENGTH then b[|b| - LENGTH..] else seq(LENGTH - |b|, i => 0) + b
  }

  ghost function Body(currency: string, a: Address): string {
    currency + "." + Encoded(a)
  }

  ghost function Written(currency: string, a: Address): string {
    Body(currency, a) + [CheckChar(Body(currency, a))]
  }

  method ToString(currency: string, a: Address) returns (s: string)
    ensures s == Written(currency, a)
  {
    hide *;
    var text := Encode(a);
    var strAddr := currency + "." + text;
    var crc := Crc8.CalCRC8(Bytes(strAddr));
    assert strAddr == Body(currency, a) by { BodyIs(currency, a); }
    CheckIs(strAddr, crc);
    WrittenIs(currency, a);
    s := strAddr + EncodeInt(crc as int % 58);
  }

  lemma {:induction false} BodyIs(currency: string, a: Address)
    ensures Body(currency, a) == currency + "." + Encoded(a)
  {
    hide Encoded;
  }

  lemma {:induction false} WrittenIs(currency: string, a: Address)
    ensures Written(currency, a) == Body(currency, a) + [CheckChar(Body(currency, a))]
  {
    hide Body, CheckChar;
  }

  lemma {:induction false} CheckIs(s: string, crc: bv8)
    requires crc == Crc8.CheckOf(Bytes(s))
    ensures EncodeInt(crc as int % 58) == [CheckChar(s)]
  {
    hide Symbol, Crc8.CheckOf, Bytes;
  }

  /** A string with a dot, a currency before it, and the right last character. */
  ghost predicate Accepted(t: string) {
    && '.' in t
    && ValidCurrency(Currency(t))
    && t[|t| - 1] == CheckChar(t[..|t| - 1])
  }

  datatype Outcome = Parsed(address: Address) | Invalid | OutOfRange

  /**
    Reading an address. A string with nothing between its first two dots is sliced to a negative
    length, which is the one way the reading fails without an error.
   */
  method ToAddress(text: string) returns (r: Outcome)
    ensures r == Invalid <==> !Accepted(Trim(text))
    ensures r == OutOfRange <==> Accepted(Trim(text)) && Second(Trim(text)) == ""
    ensures r.Parsed? ==>
              var s := Second(Trim(text));
              r.address == Fit(Decoded(s[..|s| - 1]))
  {
    hide Trim, ValidCurrency, CheckChar, Crc8.CheckOf, Bytes, Decoded, Symbol;
    var t := Trim(text);
    if t == "" || '.' !in t {
      return Invalid;
    }
    var ok := IsValidityManCurrency(Currency(t));
    if !ok {
      return Invalid;
    }
    var crc := Crc8.CalCRC8(Bytes(t[..|t| - 1]));
    CheckIs(t[..|t| - 1], crc);
    if EncodeInt(crc as int % 58) != [t[|t| - 1]] {
      return Invalid;
    }
    var tmp := Second(t);
    if |tmp| == 0 {
      return OutOfRange;
    }
    var b := Decode(tmp[..|tmp| - 1]);
    r := Parsed(Fit(b));
  }

  // --- Round trips. ---

  /** A character below 128 that is no white space. */
  predicate Plain(c: char) {
    c as int < 128 && !Space(c)
  }

  lemma {:induction false} SpelledPlain(c: char)
    requires Digit(c) != 255
    ensures c != '.' && Plain(c)
  {
  }

  lemma {:induction false} NothingToTrim(t: string)
    requires |t| >= 2 && UpperLetter(t[0]) && UpperLetter(t[1]) && Plain(t[|t| - 1])
    ensures Trim(t) == t
  {
  }

  lemma {:induction false} WrittenParts(currency: string, a: Address)
    requires ValidCurrency(currency)
    ensures var t := Written(currency, a);
            && '.' in t && Currency(t) == currency && Trim(t) == t
            && Second(t) == Encoded(a) + [CheckChar(Body(currency, a))]
            && t[..|t| - 1] == Body(currency, a)
  {
    hide Encoded, CheckChar, Trim, Plain, Digit;
    var t, x, c := Written(currency, a), Encoded(a), CheckChar(Body(currency, a));
    assert t == currency + "." + (x + [c]);
    assert '.' !in currency by { NoDotInCurrency(currency); }
    DotOf(currency, x + [c]);
    assert t[|currency|] == '.';
    assert Currency(t) == currency;
    assert t[|currency| + 1..] == x + [c];
    DecodeEncoded(a);
    assert '.' !in x + [c] by { PlainText(x, c); }
    NoDot(x + [c]);
    assert UpperLetter(t[0]) && UpperLetter(t[1]) by { NoDotInCurrency(currency); }
    SpelledPlain(c);
    NothingToTrim(t);
  }

  lemma {:induction false} PlainText(x: string, c: char)
    requires Spelled(x) && Digit(c) != 255
    ensures '.' !in x + [c]
  {
    hide Digit;
    SpelledPlain(c);
    forall d <- x
      ensures d != '.'
    {
      SpelledPlain(d);
    }
  }

  lemma {:induction false} NoDotInCurrency(currency: string)
    requires ValidCurrency(currency)
    ensures '.' !in currency && UpperLetter(currency[0]) && UpperLetter(currency[1])
  {
    assert currency[0] in currency && currency[1] in currency;
  }

  /** An address written with any valid currency is read back. */
  lemma {:induction false} RoundTrip(currency: string, a: Address)
    requires ValidCurrency(currency)
    ensures var t := Written(currency, a);
            && Trim(t) == t && Accepted(t) && Second(t) != ""
            && Fit(Decoded(Second(t)[..|Second(t)| - 1])) == a
  {
    hide Encoded, Decoded, CheckChar, Trim, ValidCurrency;
    WrittenParts(currency, a);
    DecodeEncoded(a);
    var t := Written(currency, a);
    assert Second(t)[..|Second(t)| - 1] == Encoded(a);
    assert Fit(a) == a by { FitAddress(a); }
  }

  lemma {:induction false} FitAddress(a: Address)
    ensures Fit(a) == a
  {
  }

  /**
    An accepted string is the one its address is written as exactly when it holds a single dot and
    its body decodes to twenty bytes.
   */
  lemma {:induction false} Canonical(t: string)
    requires Accepted(t) && Second(t) != ""
    ensures var s := Second(t);
            var b := Decoded(s[..|s| - 1]);
            Written(Currency(t), Fit(b)) == t <==> DotAt(t) + 1 + |s| == |t| && |b| == LENGTH
  {
    hide Encoded, Decoded, CheckChar, Trim, ValidCurrency;
    var s := Second(t);
    var x := s[..|s| - 1];
    var b := Decoded(x);
    HasDot(t);
    if Written(Currency(t), Fit(b)) == t {
      WrittenParts(Currency(t), Fit(b));
      DecodeEncoded(Fit(b));
      assert x == Encoded(Fit(b));
    }
    if DotAt(t) + 1 + |s| == |t| && |b| == LENGTH {
      FitAddress(b);
      Rewritten(t, b);
    }
  }

  lemma {:induction false} Rewritten(t: string, a: Address)
    requires Accepted(t) && Second(t) != ""
    requires DotAt(t) + 1 + |Second(t)| == |t| && Decoded(Second(t)[..|Second(t)| - 1]) == a
    ensures Written(Currency(t), a) == t
  {
    hide Encoded, CheckChar, ValidCurrency;
    var x := Second(t)[..|Second(t)| - 1];
    HasDot(t);
    assert Spelled(x);
    EncodeDecoded(x);
    assert t[..|t| - 1] == Currency(t) + "." + x;
  }

  /** A string that `ToAddress` slices to a negative length: a currency, two dots and the check character. */
  lemma {:induction false} NothingBetweenDots(currency: string)
    requires ValidCurrency(currency)
    ensures var t := currency + ".." + [CheckChar(currency + "..")];
            Trim(t) == t && Accepted(t) && Second(t) == ""
    ensures ValidCurrency("MAN")
  {
    var c := CheckChar(currency + "..");
    var t := currency + ".." + [c];
    hide CheckChar, Trim, Plain, Digit;
    NoDotInCurrency(currency);
    assert t == currency + "." + ("." + [c]);
    DotOf(currency, "." + [c]);
    assert t[|currency|] == '.' && t[..|currency|] == currency;
    assert t[|currency| + 1..] == "" + "." + [c];
    DotOf("", [c]);
    assert t[..|t| - 1] == currency + "..";
    assert UpperLetter(t[0]) && UpperLetter(t[1]);
    SpelledPlain(c);
    NothingToTrim(t);
  }
}
