/** did:key identifiers for Ed25519 public keys. */
module DidKey {
  import opened Prelude
  import opened Base58
  import opened Base58Text

  datatype Did = Did(scheme: string, identifier: string)

  datatype DidError =
    | UnsupportedMethod(scheme: string)
    | NotBase58Btc
    | BadSymbol(ch: char)
    | WrongLength(length: nat)
    | NotEd25519

  /** A 32-byte public key. */
  predicate IsKey(key: seq<Byte>) {
    |key| == 32
  }

  /** The multicodec prefix 0xed01, then the key. */
  function Payload(key: seq<Byte>): seq<Byte> {
    [0xed, 0x01] + key
  }

  function GenerateDid(key: seq<Byte>): Did
    requires IsKey(key)
  {
    Did("key", "z" + Encode(Payload(key)))
  }

  function VerifyDid(did: Did, key: seq<Byte>): Result<bool, DidError>
    requires IsKey(key)
  {
    if did.scheme != "key" then Err(UnsupportedMethod(did.scheme))
    else Ok(did.identifier == GenerateDid(key).identifier)
  }

  function ExtractPublicKey(did: Did): (r: Result<seq<Byte>, DidError>)
    ensures r.Ok? ==> IsKey(r.value)
  {
    if did.scheme != "key" then Err(UnsupportedMethod(did.scheme))
    else if did.identifier == "" || did.identifier[0] != 'z' then Err(NotBase58Btc)
    else
      match Decode(did.identifier[1..])
      case Err(ch) => Err(BadSymbol(ch))
      case Ok(decoded) =>
        if |decoded| != 34 then Err(WrongLength(|decoded|))
        else if decoded[0] != 0xed || decoded[1] != 0x01 then Err(NotEd25519)
        else Ok(decoded[2..34])
  }

  /** Which check an identifier fails first. */
  lemma ExtractionFails(did: Did)
    ensures did.scheme != "key" ==> ExtractPublicKey(did) == Err(UnsupportedMethod(did.scheme))
    ensures did.scheme == "key" && (did.identifier == "" || did.identifier[0] != 'z') ==>
              ExtractPublicKey(did) == Err(NotBase58Btc)
    ensures did.scheme == "key" && did.identifier != "" && did.identifier[0] == 'z' ==>
              var decoded := Decode(did.identifier[1..]);
              && (decoded.Err? ==> ExtractPublicKey(did) == Err(BadSymbol(decoded.error)))
              && (decoded.Ok? && |decoded.value| != 34 ==> ExtractPublicKey(did) == Err(WrongLength(|decoded.value|)))
              && (decoded.Ok? && |decoded.value| == 34 ==>
                    (ExtractPublicKey(did).Ok? <==> decoded.value[..2] == [0xed, 0x01])
                    && (ExtractPublicKey(did).Err? ==> ExtractPublicKey(did).error == NotEd25519)
                    && (ExtractPublicKey(did).Ok? ==> decoded.value == [0xed, 0x01] + ExtractPublicKey(did).value))
  {
    hide Decode;
  }

  /** Another method than did:key is refused; a key verifies exactly against the identifier generated from it. */
  lemma VerificationMeaning(did: Did, key: seq<Byte>)
    requires IsKey(key)
    ensures VerifyDid(did, key).Err? <==> did.scheme != "key"
    ensures VerifyDid(did, key) == Ok(true) <==> did == GenerateDid(key)
  {
    hide Encode;
  }

  /** Every key comes back out of the identifier generated from it. */
  lemma ExtractGenerated(key: seq<Byte>)
    requires IsKey(key)
    ensures ExtractPublicKey(GenerateDid(key)) == Ok(key)
    ensures VerifyDid(GenerateDid(key), key) == Ok(true)
  {
    hide Encode, Decode;
    var payload := Payload(key);
    assert payload[0] != 0;
    DecodeEncode(payload);
    assert ("z" + Encode(payload))[1..] == Encode(payload);
    assert payload[2..34] == key;
  }

  /** Different keys never share an identifier. */
  lemma IdentifiersAreUnique(a: seq<Byte>, b: seq<Byte>)
    requires IsKey(a) && IsKey(b) && GenerateDid(a) == GenerateDid(b)
    ensures a == b
  {
    ExtractGenerated(a);
    ExtractGenerated(b);
  }

  /** An accepted identifier is the canonical one of its key exactly when it is ASCII. */
  lemma AcceptedIsCanonical(did: Did, key: seq<Byte>)
    requires ExtractPublicKey(did) == Ok(key)
    ensures VerifyDid(did, key) == Ok(true) <==> IsAscii(did.identifier)
  {
    hide Encode, Decode;
    var text := did.identifier[1..];
    var decoded := Decode(text).value;
    assert decoded == Payload(key);
    assert did.identifier == "z" + text;
    EncodeDecode(text, decoded);
    if IsAscii(did.identifier) {
      assert IsAscii(text);
      NotOnlyOnes(text);
    }
    if VerifyDid(did, key) == Ok(true) {
      assert text == did.identifier[1..] == Encode(decoded);
    }
  }

  /** Among ASCII identifiers, extraction accepts exactly the generated ones, each with its own key. */
  lemma AcceptsExactlyGenerated(did: Did, key: seq<Byte>)
    requires IsAscii(did.identifier) && IsKey(key)
    ensures ExtractPublicKey(did) == Ok(key) <==> did == GenerateDid(key)
  {
    hide Encode, Decode;
    ExtractGenerated(key);
    if ExtractPublicKey(did) == Ok(key) { AcceptedIsCanonical(did, key); }
  }

  /** Text whose first decoded byte is not zero has a symbol other than '1'. */
  lemma NotOnlyOnes(s: string)
    requires Decode(s).Ok? && IsAscii(s) && Decode(s).value != [] && Decode(s).value[0] != 0
    ensures exists i :: 0 <= i < |s| && s[i] != '1'
  {
    DecodableText(s);
    DecodeAscii(s);
    DigitsOfText(s);
    if !SomeNonZero(Values(s)) && s != "" {
      AllZeroGrows(Values(s), 58, 256);
    }
  }

  // ------------------------------------------ the promised `z6Mk` prefix

  function Pow(base: nat, k: nat): nat {
    if k == 0 then 1 else base * Pow(base, k - 1)
  }

  lemma MulAssociates(a: nat, b: nat, c: nat)
    ensures a * (b * c) == (a * b) * c
  {}

  lemma {:induction false} PowAdd(base: nat, a: nat, b: nat)
    ensures Pow(base, a + b) == Pow(base, a) * Pow(base, b)
  {
    hide Pow;
    if a > 0 {
      PowAdd(base, a - 1, b);
      PowUnroll(base, a);
      PowUnroll(base, a + b);
      MulAssociates(base, Pow(base, a - 1), Pow(base, b));
    } else {
      PowZero(base);
    }
  }

  lemma BoundAlgebra(v: nat, last: nat, base: nat, p: nat)
    requires v < p && last < base
    ensures v * base + last < base * p
  {
    MulLeq(base, v + 1, p);
  }

  /** The bounds of a big-endian number by its length. */
  lemma {:induction false} ValueBelowPow(d: seq<nat>, base: nat)
    requires base >= 2 && DigitsBelow(d, base)
    ensures ValueBE(d, base) < Pow(base, |d|)
  {
    if d != [] {
      ValueBelowPow(d[..|d| - 1], base);
      BoundAlgebra(ValueBE(d[..|d| - 1], base), d[|d| - 1], base, Pow(base, |d| - 1));
    }
  }

  lemma ConcatAlgebra(x: nat, p: nat, y: nat, base: nat)
    ensures (x * p + y) * base == x * (base * p) + y * base
  {}

  lemma {:induction false} ValueOfConcat(a: seq<nat>, b: seq<nat>, base: nat)
    ensures ValueBE(a + b, base) == ValueBE(a, base) * Pow(base, |b|) + ValueBE(b, base)
    decreases |b|
  {
    if b == [] {
      assert a + b == a;
    } else {
      var front := b[..|b| - 1];
      ValueOfConcat(a, front, base);
      assert (a + b)[..|a + b| - 1] == a + front;
      var p := Pow(base, |b| - 1);
      ConcatAlgebra(ValueBE(a, base), p, ValueBE(front, base), base);
    }
  }

  lemma SplitLow(lo: nat, hi: nat, base: nat, p: nat, power: nat)
    requires base >= 2 && power == base * p && lo < power
    ensures lo / base < p
    ensures lo + power * hi == lo % base + base * (lo / base + p * hi)
  {}

  /** The digits above position k are the digits of the quotient by base^k. */
  lemma {:induction false} TopDigits(lo: nat, hi: nat, base: nat, k: nat)
    requires base >= 2 && lo < Pow(base, k) && hi > 0
    ensures |Digits(lo + Pow(base, k) * hi, base)| == k + |Digits(hi, base)|
    ensures Digits(lo + Pow(base, k) * hi, base)[k..] == Digits(hi, base)
    decreases k
  {
    hide Digits, Pow;
    if k > 0 {
      PowUnroll(base, k);
      SplitLow(lo, hi, base, Pow(base, k - 1), Pow(base, k));
      TopDigits(lo / base, hi, base, k - 1);
      var rest := lo / base + Pow(base, k - 1) * hi;
      QuotientPositive(lo / base, Pow(base, k - 1), hi);
      StackDigit(lo % base, rest, base, k, Digits(hi, base));
    } else {
      PowZero(base);
      assert Pow(base, 0) * hi == hi;
    }
  }

  lemma PowUnroll(base: nat, k: nat)
    requires k > 0
    ensures Pow(base, k) == base * Pow(base, k - 1)
  {}

  lemma PowZero(base: nat)
    ensures Pow(base, 0) == 1
  {}

  lemma QuotientPositive(a: nat, p: nat, hi: nat)
    requires a < p && hi > 0
    ensures a + p * hi > 0
  {}

  /** Putting one digit below `rest` shifts its digits up by one. */
  lemma StackDigit(r: nat, rest: nat, base: nat, k: nat, top: seq<nat>)
    requires base >= 2 && r < base && rest > 0 && k > 0
    requires |Digits(rest, base)| == k - 1 + |top| && Digits(rest, base)[k - 1..] == top
    ensures |Digits(r + base * rest, base)| == k + |top| && Digits(r + base * rest, base)[k..] == top
  {
    DivModOf(r, rest, base);
    MulLeq(base, 1, rest);
    DigitsUnroll(r + base * rest, base);
    hide Digits;
    var below := Digits(rest, base);
    assert ([r] + below)[k..] == below[k - 1..];
  }

  lemma SquarePow(base: nat, k: nat, value: nat)
    requires Pow(base, k) == value
    ensures Pow(base, 2 * k) == value * value
  {
    PowAdd(base, k, k);
  }

  lemma Pow256To32()
    ensures Pow(256, 32) == 115792089237316195423570985008687907853269984665640564039457584007913129639936
  {
    assert Pow(256, 1) == 256 * Pow(256, 0);
    SquarePow(256, 1, 256);
    SquarePow(256, 2, 65536);
    SquarePow(256, 4, 4294967296);
    SquarePow(256, 8, 18446744073709551616);
    SquarePow(256, 16, 340282366920938463463374607431768211456);
  }

  lemma Pow58To44()
    ensures Pow(58, 44) == 389790918707373377135528568990913592653094657612049369038476873218241589149696
  {
    assert Pow(58, 1) == 58 * Pow(58, 0);
    SquarePow(58, 1, 58);
    SquarePow(58, 2, 3364);
    SquarePow(58, 4, 11316496);
    SquarePow(58, 8, 128063081718016);
    SquarePow(58, 16, 16400152899115243850138976256);
    PowAdd(58, 8, 4);
    PowAdd(58, 32, 12);
  }

  /** The first three base58 digits of 0xed01 followed by any key are those of 18023. */
  lemma PayloadDigits(key: seq<Byte>)
    requires IsKey(key)
    ensures var d := Digits(ValueBE(Payload(key), 256), 58);
            |d| == 47 && d[44..] == [43, 20, 5]
  {
    hide Digits, ValueBE, Pow;
    ValueOfConcat([0xed, 0x01], key, 256);
    ValueBelowPow(key, 256);
    assert ValueBE([0xed, 0x01], 256) == 60673 by { PrefixValue(); }
    Pow256To32();
    Pow58To44();
    var v, p := ValueBE(Payload(key), 256), Pow(58, 44);
    assert v == 60673 * Pow(256, 32) + ValueBE(key, 256);
    var lo := v - p * 18023;
    assert 0 <= lo < p;
    TopDigits(lo, 18023, 58, 44);
    SmallDigits();
  }

  lemma PrefixValue()
    ensures ValueBE([0xed, 0x01], 256) == 60673
  {}

  lemma SmallDigits()
    ensures Digits(18023, 58) == [43, 20, 5]
  {}

  /** The converted digit list of a payload, most significant digit first. */
  lemma PayloadConverts(key: seq<Byte>)
    requires IsKey(key)
    ensures var t := Convert(Payload(key), 256, 58);
            |t| == 47 && t[0] == 5 && t[1] == 20 && t[2] == 43 && DigitsBelow(t, 58)
  {
    hide Digits, ValueBE;
    var payload := Payload(key);
    PayloadDigits(key);
    assert SomeNonZero(payload) by { assert payload[0] != 0; }
    ConvertShape(payload, 256, 58);
    assert LeadingZeros(payload) == 0;
    var d := Digits(ValueBE(payload, 256), 58);
    assert d[44] == d[44..][0] && d[45] == d[44..][1] && d[46] == d[44..][2];
  }

  lemma PrefixSymbols()
    ensures Symbol(5) == '6' && Symbol(20) == 'M' && Symbol(43) == 'k'
  {}

  /** Every generated identifier has 48 characters and starts with `z6Mk`, as the documentation shows it. */
  lemma IdentifierPrefix(key: seq<Byte>)
    requires IsKey(key)
    ensures |GenerateDid(key).identifier| == 48
    ensures GenerateDid(key).identifier[..4] == "z6Mk"
  {
    hide Convert, Symbol;
    PayloadConverts(key);
    PrefixSymbols();
    var text := Encode(Payload(key));
    assert |text| == 47 && text[0] == '6' && text[1] == 'M' && text[2] == 'k';
  }

  // -------------------------------------------- the identifiers left over

  /** Every key has an identifier beyond ASCII that yields it and does not verify. */
  lemma ForeignAccepted(key: seq<Byte>) returns (did: Did)
    requires IsKey(key)
    ensures ExtractPublicKey(did) == Ok(key) && VerifyDid(did, key) == Ok(false) && !IsAscii(did.identifier)
  {
    var text := Encode(Payload(key));
    GeneratedText(key);
    ExtractGenerated(key);
    hide Encode, Decode, Decodable, SymbolValue, IsAscii, ExtractPublicKey;
    ForeignTwin(text, 0);
    var twin := text[0 := Foreign(text[0])];
    did := Did("key", "z" + twin);
    SameExtraction(text, twin);
    BeyondAscii(twin);
    DifferentTail(text, twin);
  }

  lemma SameExtraction(a: string, b: string)
    requires Decode(a) == Decode(b)
    ensures ExtractPublicKey(Did("key", "z" + a)) == ExtractPublicKey(Did("key", "z" + b))
  {
    hide Decode;
    assert ("z" + a)[1..] == a && ("z" + b)[1..] == b;
  }

  lemma BeyondAscii(s: string)
    requires !IsAscii(s)
    ensures !IsAscii("z" + s)
  {
    var k :| 0 <= k < |s| && s[k] as int >= 128;
    assert ("z" + s)[k + 1] == s[k];
  }

  lemma DifferentTail(a: string, b: string)
    requires a != b
    ensures "z" + a != "z" + b
  {
    assert ("z" + a)[1..] == a && ("z" + b)[1..] == b;
  }

  /** The text of an identifier is decodable ASCII and starts with '6'. */
  lemma GeneratedText(key: seq<Byte>)
    requires IsKey(key)
    ensures var text := Encode(Payload(key)); Decodable(text) && IsAscii(text) && text != "" && text[0] == '6'
  {
    EncodedDigitsBelow(Payload(key));
    TextOfDigits(Convert(Payload(key), 256, 58));
    IdentifierPrefix(key);
    hide Convert, ToText;
    assert GenerateDid(key).identifier[1] == GenerateDid(key).identifier[..4][1];
  }
}
