/** Unpadded lower-case base32 of digests, and the digest tokens built on it. */
module Base32 {

  function Pow2(n: nat): (r: nat)
    ensures r >= 1
  {
    if n == 0 then 1 else 2 * Pow2(n - 1)
  }

  // ---- numbers as bits ----------------------------------------------------------------------------------------------

  /** The `width` low bits of `n`, most significant first. */
  function Bits(n: nat, width: nat): (b: seq<bool>)
    ensures |b| == width
  {
    if width == 0 then [] else Bits(n / 2, width - 1) + [n % 2 == 1]
  }

  function FromBits(b: seq<bool>): nat {
    if b == [] then 0 else 2 * FromBits(b[..|b| - 1]) + (if b[|b| - 1] then 1 else 0)
  }

  lemma {:induction false} FromBitsOfBits(n: nat, width: nat)
    requires n < Pow2(width)
    ensures FromBits(Bits(n, width)) == n
  {
    if width > 0 {
      FromBitsOfBits(n / 2, width - 1);
      var b := Bits(n, width);
      assert b[..|b| - 1] == Bits(n / 2, width - 1);
    }
  }

  lemma {:induction false} BitsOfFromBits(b: seq<bool>)
    ensures FromBits(b) < Pow2(|b|) && Bits(FromBits(b), |b|) == b
  {
    if b != [] {
      var init := b[..|b| - 1];
      BitsOfFromBits(init);
      var n := FromBits(b);
      assert n / 2 == FromBits(init) && (n % 2 == 1) == b[|b| - 1];
      assert b == init + [b[|b| - 1]];
    }
  }

  // ---- packing ----------------------------------------------------------------------------------------------------------

  predicate Within(digits: seq<nat>, width: nat) { forall i | 0 <= i < |digits| :: digits[i] < Pow2(width) }

  /** Digits of `width` bits, one after the other. */
  function Pack(digits: seq<nat>, width: nat): (b: seq<bool>)
    ensures |b| == width * |digits|
  {
    if digits == [] then [] else Bits(digits[0], width) + Pack(digits[1..], width)
  }

  /** The whole digits of `width` bits in a bit sequence; a shorter remainder is dropped. */
  function Unpack(b: seq<bool>, width: nat): (digits: seq<nat>)
    requires width > 0
    decreases |b|
  {
    if |b| < width then [] else [FromBits(b[..width])] + Unpack(b[width..], width)
  }

  lemma UnpackStep(b: seq<bool>, width: nat)
    requires width > 0
    ensures Unpack(b, width) == if |b| < width then [] else [FromBits(b[..width])] + Unpack(b[width..], width)
  {
  }

  lemma {:induction false} UnpackOfPack(digits: seq<nat>, width: nat, rest: seq<bool>)
    requires width > 0 && Within(digits, width) && |rest| < width
    ensures Unpack(Pack(digits, width) + rest, width) == digits
  {
    hide Bits, FromBits, Unpack;
    var b := Pack(digits, width) + rest;
    UnpackStep(b, width);
    if digits == [] {
      assert b == rest;
    } else {
      FromBitsOfBits(digits[0], width);
      UnpackOfPack(digits[1..], width, rest);
      assert b[..width] == Bits(digits[0], width);
      assert b[width..] == Pack(digits[1..], width) + rest;
    }
  }

  lemma {:induction false} PackOfUnpack(b: seq<bool>, width: nat, k: nat)
    requires width > 0 && |b| == width * k
    ensures Within(Unpack(b, width), width) && Pack(Unpack(b, width), width) == b && |Unpack(b, width)| == k
    decreases k
  {
    if k > 0 {
      var rest := b[width..];
      assert width * k == width + width * (k - 1);
      BitsOfFromBits(b[..width]);
      PackOfUnpack(rest, width, k - 1);
      assert Unpack(b, width) == [FromBits(b[..width])] + Unpack(rest, width);
      assert Unpack(b, width)[1..] == Unpack(rest, width);
      assert b == b[..width] + rest;
    }
  }

  // ---- the alphabet of section 6 of RFC 4648, in lower case ---------------------------------------------------------

  predicate IsSymbol(c: char) { 'a' <= c <= 'z' || '2' <= c <= '7' }

  function Symbol(v: nat): (c: char)
    requires v < 32
    ensures IsSymbol(c)
  {
    if v < 26 then 'a' + v as char else '2' + (v - 26) as char
  }

  function SymbolValue(c: char): (v: nat)
    requires IsSymbol(c)
    ensures v < 32 && Symbol(v) == c
  {
    if 'a' <= c <= 'z' then (c - 'a') as nat else 26 + (c - '2') as nat
  }

  predicate AllSymbols(s: string) { forall i | 0 <= i < |s| :: IsSymbol(s[i]) }

  function Symbols(values: seq<nat>): (s: string)
    requires Within(values, 5)
    ensures |s| == |values| && AllSymbols(s)
  {
    seq(|values|, i requires 0 <= i < |values| => Symbol(Small(values, i)))
  }

  function Small(values: seq<nat>, i: nat): (v: nat)
    requires Within(values, 5) && i < |values|
    ensures v == values[i] && v < 32
  {
    assert Pow2(5) == 32;
    values[i]
  }

  function SymbolValues(s: string): (values: seq<nat>)
    requires AllSymbols(s)
    ensures |values| == |s| && Within(values, 5)
  {
    assert Pow2(5) == 32;
    seq(|s|, i requires 0 <= i < |s| => SymbolValue(s[i]))
  }

  lemma SymbolsRoundTrip(values: seq<nat>)
    requires Within(values, 5)
    ensures SymbolValues(Symbols(values)) == values
  {
    forall i | 0 <= i < |values| ensures SymbolValues(Symbols(values))[i] == values[i] {
      SymbolInjective(Small(values, i));
    }
  }

  lemma SymbolInjective(v: nat)
    requires v < 32
    ensures SymbolValue(Symbol(v)) == v
  {
  }

  lemma ValuesRoundTrip(s: string)
    requires AllSymbols(s)
    ensures Symbols(SymbolValues(s)) == s
  {
  }

  // ---- encoding 32 bytes -------------------------------------------------------------------------------------------------

  predicate IsDigest(d: seq<nat>) { |d| == 32 && Within(d, 8) }

  const PAD: seq<bool> := [false, false, false, false]

  /** `_base32_digest`: 256 bits and four zero pad bits, five bits a character. */
  function Encode(d: seq<nat>): (s: string)
    requires IsDigest(d)
    ensures |s| == 52 && AllSymbols(s)
  {
    PackOfUnpack(Pack(d, 8) + PAD, 5, 52);
    Symbols(Unpack(Pack(d, 8) + PAD, 5))
  }

  /** `b32decode`: whole bytes of the symbols' bits; whatever pad bits follow are not looked at. */
  function Decode(s: string): (d: seq<nat>)
    requires AllSymbols(s)
  {
    Unpack(Pack(SymbolValues(s), 5), 8)
  }

  /** The bits a token's symbols stand for. */
  function BitsOf(s: string): (b: seq<bool>)
    requires AllSymbols(s)
    ensures |b| == 5 * |s|
  {
    Pack(SymbolValues(s), 5)
  }

  lemma BitsOfEncoded(d: seq<nat>)
    requires IsDigest(d)
    ensures BitsOf(Encode(d)) == Pack(d, 8) + PAD
  {
    var b := Pack(d, 8) + PAD;
    PackOfUnpack(b, 5, 52);
    SymbolsRoundTrip(Unpack(b, 5));
  }

  /** Encoding then decoding is the identity. */
  lemma DecodeOfEncode(d: seq<nat>)
    requires IsDigest(d)
    ensures Decode(Encode(d)) == d
  {
    BitsOfEncoded(d);
    UnpackOfPack(d, 8, PAD);
  }

  lemma EncodeInjective(d: seq<nat>, e: seq<nat>)
    requires IsDigest(d) && IsDigest(e) && Encode(d) == Encode(e)
    ensures d == e
  {
    DecodeOfEncode(d);
    DecodeOfEncode(e);
  }

  /** Fifty-two symbols always decode to 32 bytes, and re-encode to themselves exactly when their pad bits are zero. */
  lemma EncodeOfDecode(s: string)
    requires |s| == 52 && AllSymbols(s)
    ensures IsDigest(Decode(s))
    ensures Encode(Decode(s)) == s <==> BitsOf(s)[256..] == PAD
  {
    var b := BitsOf(s);
    UnpackPrefix(b[..256], b[256..], 32);
    assert b == b[..256] + b[256..];
    PackOfUnpack(b[..256], 8, 32);
    var d := Decode(s);
    BitsOfEncoded(d);
    ValuesRoundTrip(s);
    if b[256..] == PAD {
      assert BitsOf(Encode(d)) == b;
      UnpackOfPack(SymbolValues(s), 5, []);
      UnpackOfPack(SymbolValues(Encode(d)), 5, []);
      assert b + [] == b;
      ValuesRoundTrip(Encode(d));
    }
  }

  lemma {:induction false} UnpackPrefix(b: seq<bool>, rest: seq<bool>, k: nat)
    requires |b| == 8 * k && |rest| < 8
    ensures Unpack(b + rest, 8) == Unpack(b, 8)
    decreases k
  {
    if k > 0 {
      UnpackPrefix(b[8..], rest, k - 1);
      assert (b + rest)[..8] == b[..8] && (b + rest)[8..] == b[8..] + rest;
    }
  }

  /** The last symbol holds one bit of the digest and the four pad bits: they are zero just for `a` and `q`. */
  lemma FinalSymbolIsPad(s: string)
    requires |s| == 52 && AllSymbols(s)
    ensures s[51] in "aq" <==> BitsOf(s)[256..] == PAD
  {
    var values := SymbolValues(s);
    LastDigitBits(values, 5);
    var v := values[51];
    assert v == SymbolValue(s[51]);
    var b := Bits(v, 5);
    assert BitsOf(s)[256..] == BitsOf(s)[255..][1..];
    LowBits(v);
  }

  /** A five-bit value has four zero low bits just when it is 0 or 16. */
  lemma LowBits(v: nat)
    requires v < 32
    ensures Bits(v, 5)[1..] == PAD <==> v == 0 || v == 16
  {
    var b4 := Bits(v / 2, 4);
    var b3 := Bits(v / 4, 3);
    var b2 := Bits(v / 8, 2);
    var b1 := Bits(v / 16, 1);
    assert v / 2 / 2 == v / 4 && v / 4 / 2 == v / 8 && v / 8 / 2 == v / 16;
    assert Bits(v, 5) == b4 + [v % 2 == 1] && b4 == b3 + [v / 2 % 2 == 1] && b3 == b2 + [v / 4 % 2 == 1];
    assert b2 == b1 + [v / 8 % 2 == 1] && |b1| == 1;
    var low := Bits(v, 5)[1..];
    assert low == [v / 8 % 2 == 1, v / 4 % 2 == 1, v / 2 % 2 == 1, v % 2 == 1];
  }

  lemma {:induction false} LastDigitBits(digits: seq<nat>, width: nat)
    requires digits != []
    ensures Pack(digits, width)[width * (|digits| - 1)..] == Bits(digits[|digits| - 1], width)
  {
    if |digits| == 1 {
      assert digits[1..] == [];
    } else {
      LastDigitBits(digits[1..], width);
      assert Pack(digits, width)[width..] == Pack(digits[1..], width);
      var cut := width * (|digits| - 2);
      assert width * (|digits| - 1) == width + cut;
      assert Pack(digits, width)[width + cut..] == Pack(digits, width)[width..][cut..];
    }
  }

  /** The number that digits stand for, the first one leading. */
  function Number(digits: seq<nat>, base: nat): nat {
    if digits == [] then 0 else Number(digits[..|digits| - 1], base) * base + digits[|digits| - 1]
  }

  lemma {:induction false} FromBitsOfConcat(a: seq<bool>, b: seq<bool>)
    ensures FromBits(a + b) == FromBits(a) * Pow2(|b|) + FromBits(b)
  {
    if b == [] {
      assert a + b == a;
    } else {
      var init := b[..|b| - 1];
      FromBitsOfConcat(a, init);
      assert (a + b)[..|a + b| - 1] == a + init;
      assert FromBits(a) * Pow2(|b|) == 2 * (FromBits(a) * Pow2(|init|));
    }
  }

  lemma {:induction false} PackOfConcat(a: seq<nat>, b: seq<nat>, width: nat)
    ensures Pack(a + b, width) == Pack(a, width) + Pack(b, width)
  {
    hide Bits, Pack;
    if a == [] {
      assert a + b == b && Pack(a, width) == [];
    } else {
      PackOfConcat(a[1..], b, width);
      assert (a + b)[0] == a[0] && (a + b)[1..] == a[1..] + b;
      PackStep(a, width);
      PackStep(a + b, width);
    }
  }

  lemma PackStep(digits: seq<nat>, width: nat)
    requires digits != []
    ensures Pack(digits, width) == Bits(digits[0], width) + Pack(digits[1..], width)
  {
  }

  lemma {:induction false} PackIsTheNumber(digits: seq<nat>, width: nat)
    requires Within(digits, width)
    ensures FromBits(Pack(digits, width)) == Number(digits, Pow2(width))
  {
    hide Bits, FromBits;
    if digits == [] {
      FromBitsOfBits(0, 0);
      assert Pack(digits, width) == Bits(0, 0);
    } else {
      var init, last := digits[..|digits| - 1], digits[|digits| - 1];
      PackIsTheNumber(init, width);
      assert digits == init + [last] && [last][1..] == [];
      PackOfConcat(init, [last], width);
      assert Pack([last], width) == Bits(last, width);
      FromBitsOfConcat(Pack(init, width), Bits(last, width));
      FromBitsOfBits(last, width);
    }
  }

  /** Section 6 of RFC 4648: the symbols are the base 32 digits, in its alphabet, of sixteen times the digest's number. */
  lemma EncodeSpellsTheNumber(d: seq<nat>)
    requires IsDigest(d)
    ensures var s := Encode(d); exists values: seq<nat> ::
      && |values| == |s| == 52 && Number(values, 32) == 16 * Number(d, 256)
      && forall i | 0 <= i < 52 :: values[i] < 32 && s[i] == "abcdefghijklmnopqrstuvwxyz234567"[values[i]]
  {
    hide Bits, FromBits, Pack, Number, Unpack;
    var s := Encode(d);
    var values := SymbolValues(s);
    BitsOfEncoded(d);
    PackIsTheNumber(values, 5);
    PackIsTheNumber(d, 8);
    FromBitsOfConcat(Pack(d, 8), PAD);
    PadIsZero();
    assert Pow2(4) == 16 && Pow2(5) == 32 && Pow2(8) == 256;
    forall i | 0 <= i < 52 ensures values[i] < 32 && s[i] == "abcdefghijklmnopqrstuvwxyz234567"[values[i]] {
      AlphabetOf(values[i]);
    }
  }

  lemma PadIsZero()
    ensures FromBits(PAD) == 0
  {
    FromBitsOfBits(0, 4);
    assert Bits(0, 1) == [false] && Bits(0, 2) == [false, false] && Bits(0, 3) == [false, false, false];
    assert Bits(0, 4) == PAD;
  }

  lemma AlphabetOf(v: nat)
    requires v < 32
    ensures Symbol(v) == "abcdefghijklmnopqrstuvwxyz234567"[v]
  {
  }

  // ---- digest tokens -----------------------------------------------------------------------------------------------------------

  /** The wire pattern: the prefix, fifty-one symbols, and `a` or `q`. */
  predicate MatchesPattern(value: string, prefix: string) {
    && |value| == |prefix| + 52 && prefix <= value && AllSymbols(value[|prefix|..]) && value[|value| - 1] in "aq"
  }

  /** `_validate_digest_token`. */
  predicate ValidDigestToken(value: string, prefix: string) {
    && MatchesPattern(value, prefix)
    && var encoded := value[|prefix|..];
       var decoded := Decode(encoded);
       IsDigest(decoded) && Encode(decoded) == encoded
  }

  /** Exactly the encodings of 32-byte digests are accepted. */
  lemma AcceptsExactlyEncodings(value: string, prefix: string)
    ensures ValidDigestToken(value, prefix) <==> exists d: seq<nat> :: IsDigest(d) && value == prefix + Encode(d)
  {
    if ValidDigestToken(value, prefix) {
      assert value == prefix + Encode(Decode(value[|prefix|..]));
    }
    forall d: seq<nat> | IsDigest(d) && value == prefix + Encode(d) ensures ValidDigestToken(value, prefix) {
      var encoded := Encode(d);
      assert value[|prefix|..] == encoded;
      DecodeOfEncode(d);
      EncodeOfDecode(encoded);
      FinalSymbolIsPad(encoded);
    }
  }

  /** The re-encoding check never refuses what the pattern admits. */
  lemma ReencodeCheckIsRedundant(value: string, prefix: string)
    ensures ValidDigestToken(value, prefix) <==> MatchesPattern(value, prefix)
  {
    if MatchesPattern(value, prefix) {
      var encoded := value[|prefix|..];
      EncodeOfDecode(encoded);
      FinalSymbolIsPad(encoded);
    }
  }
}
