/** The text side of the codec: the Bitcoin alphabet, the encoder, the decoder and their exact round trips. */
module Base58Text {
  import opened Prelude
  import opened Base58

  const ALPHABET: string :=
    "123456789" + "ABCDEFGH" + "JKLMN" + "PQRSTUVWXYZ" + "abcdefghijk" + "mnopqrstuvwxyz"

  lemma AlphabetLength()
    ensures |ALPHABET| == 58 && ALPHABET[0] == '1'
  {}

  lemma AlphabetAscii()
    ensures forall i :: 0 <= i < |ALPHABET| ==> ALPHABET[i] as int < 128
  {}

  lemma AlphabetOrder()
    ensures forall i :: 0 < i < |ALPHABET| ==> ALPHABET[i - 1] < ALPHABET[i]
  {}

  lemma AlphabetFacts()
    ensures |ALPHABET| == 58 && ALPHABET[0] == '1'
    ensures forall i :: 0 <= i < 58 ==> ALPHABET[i] as int < 128
    ensures forall i :: 0 < i < 58 ==> ALPHABET[i - 1] < ALPHABET[i]
  {
    hide ALPHABET;
    AlphabetLength();
    AlphabetAscii();
    AlphabetOrder();
  }

  /** The alphanumerical characters without zero, capital o, capital i and small l. */
  predicate Unambiguous(ch: char) {
    || '1' <= ch <= '9'
    || ('A' <= ch <= 'Z' && ch != 'I' && ch != 'O')
    || ('a' <= ch <= 'z' && ch != 'l')
  }

  /** The symbols are exactly these characters; `AlphabetOrder` puts them in ascending order. */
  lemma SymbolsAreUnambiguous(ch: char)
    ensures ch in ALPHABET <==> Unambiguous(ch)
  {}

  lemma {:induction false} AlphabetIncreases(i: nat, j: nat)
    requires i < j < 58 && |ALPHABET| == 58
    ensures ALPHABET[i] < ALPHABET[j]
  {
    AlphabetFacts();
    if i + 1 < j { AlphabetIncreases(i, j - 1); }
  }

  /** `position(|c| c == byte)` over a table. */
  function PositionIn(table: string, byte: nat): (r: Option<nat>)
    ensures r.Some? ==> r.value < |table| && table[r.value] as int == byte
    ensures r.None? <==> forall i :: 0 <= i < |table| ==> table[i] as int != byte
  {
    if table == "" then None
    else if table[0] as int == byte then Some(0)
    else match PositionIn(table[1..], byte)
         case Some(i) => Some(i + 1)
         case None =>
           assert forall i :: 0 < i < |table| ==> table[i] == table[1..][i - 1];
           None
  }

  /** `ch as u8` keeps the low eight bits, so a character beyond Latin-1 can stand in for a symbol. */
  function SymbolValue(ch: char): (r: Option<nat>)
    ensures r.Some? ==> r.value < 58
  {
    AlphabetFacts();
    PositionIn(ALPHABET, ch as int % 256)
  }

  function Symbol(d: nat): char
    requires d < 58
  {
    AlphabetFacts();
    ALPHABET[d]
  }

  lemma SymbolRoundTrip(d: nat)
    requires d < 58
    ensures SymbolValue(Symbol(d)) == Some(d) && Symbol(d) as int < 128
    ensures Symbol(d) == '1' <==> d == 0
  {
    AlphabetFacts();
    assert ALPHABET[d] as int == Symbol(d) as int % 256;
    var r := SymbolValue(Symbol(d));
    assert r.Some?;
    if r.value < d {
      AlphabetIncreases(r.value, d);
    } else if d < r.value {
      AlphabetIncreases(d, r.value);
    }
    if d > 0 { AlphabetIncreases(0, d); }
  }

  /** An ASCII character that decodes is the symbol of its value. */
  lemma AsciiSymbol(ch: char)
    requires ch as int < 128 && SymbolValue(ch).Some?
    ensures Symbol(SymbolValue(ch).value) == ch
    ensures SymbolValue(ch).value == 0 <==> ch == '1'
  {
    hide ALPHABET;
    var v := SymbolValue(ch).value;
    SymbolRoundTrip(v);
    assert Symbol(v) as int == ch as int;
  }

  predicate IsAscii(s: string) {
    forall i :: 0 <= i < |s| ==> s[i] as int < 128
  }

  function ToText(d: seq<nat>): (s: string)
    requires DigitsBelow(d, 58)
    ensures |s| == |d| && forall i :: 0 <= i < |d| ==> s[i] == Symbol(d[i])
  {
    seq(|d|, i requires 0 <= i < |d| => Symbol(d[i]))
  }

  /** The encoder: every symbol of the converted digit list. */
  function Encode(bytes: seq<Byte>): string {
    EncodedDigitsBelow(bytes);
    ToText(Convert(bytes, 256, 58))
  }

  lemma EncodedDigitsBelow(bytes: seq<Byte>)
    ensures DigitsBelow(Convert(bytes, 256, 58), 58)
  {}

  ghost predicate Decodable(s: string) {
    forall i :: 0 <= i < |s| ==> SymbolValue(s[i]).Some?
  }

  function Values(s: string): (d: seq<nat>)
    requires Decodable(s)
    ensures |d| == |s| && forall i :: 0 <= i < |s| ==> d[i] == SymbolValue(s[i]).value < 58
  {
    seq(|s|, i requires 0 <= i < |s| => SymbolValue(s[i]).value)
  }

  function LeadingOnes(s: string): nat {
    if s == "" || s[0] != '1' then 0 else 1 + LeadingOnes(s[1..])
  }

  function FirstInvalid(s: string): (r: Option<char>)
    ensures r.None? <==> Decodable(s)
    ensures r.Some? ==> exists i :: 0 <= i < |s| && s[i] == r.value && SymbolValue(s[i]).None? && Decodable(s[..i])
  {
    if s == "" then None
    else if SymbolValue(s[0]).None? then assert Decodable(s[..0]); Some(s[0])
    else
      assert s == [s[0]] + s[1..];
      var r := FirstInvalid(s[1..]);
      assert r.Some? ==>
               exists i :: 0 <= i < |s| && s[i] == r.value && SymbolValue(s[i]).None? && Decodable(s[..i]) by {
        if r.Some? {
          var i :| 0 <= i < |s[1..]| && s[1..][i] == r.value && SymbolValue(s[1..][i]).None? && Decodable(s[1..][..i]);
          assert s[..i + 1] == [s[0]] + s[1..][..i];
          assert Decodable(s[..i + 1]);
        }
      }
      r
  }

  /** The decoder, failing on the first character outside the alphabet. */
  function Decode(s: string): Result<seq<Byte>, char> {
    if s == "" then Ok([])
    else match FirstInvalid(s)
         case Some(ch) => Err(ch)
         case None =>
           var bytes := Zeros(LeadingOnes(s)) + Reversed(TidyDigits(ValueBE(Values(s), 58), 256));
           assert forall i :: 0 <= i < |bytes| ==> bytes[i] < 256;
           Ok(bytes)
  }

  lemma {:induction false} OnesAreZeros(s: string)
    requires Decodable(s) && IsAscii(s)
    ensures LeadingOnes(s) == LeadingZeros(Values(s))
  {
    if s != "" {
      AsciiSymbol(s[0]);
      assert Decodable(s[1..]) && IsAscii(s[1..]);
      OnesAreZeros(s[1..]);
      assert Values(s)[1..] == Values(s[1..]);
    }
  }

  /** On ASCII text the decoder is the digit conversion the other way. */
  lemma DecodeAscii(s: string)
    requires Decodable(s) && IsAscii(s)
    ensures Decode(s) == Ok(Convert(Values(s), 58, 256))
  {
    OnesAreZeros(s);
  }

  lemma TextOfDigits(d: seq<nat>)
    requires DigitsBelow(d, 58)
    ensures Decodable(ToText(d)) && IsAscii(ToText(d)) && Values(ToText(d)) == d
  {
    var s := ToText(d);
    forall i | 0 <= i < |d| ensures SymbolValue(s[i]) == Some(d[i]) && s[i] as int < 128 {
      SymbolRoundTrip(d[i]);
    }
  }

  lemma DigitsOfText(s: string)
    requires Decodable(s) && IsAscii(s)
    ensures DigitsBelow(Values(s), 58) && ToText(Values(s)) == s
    ensures SomeNonZero(Values(s)) <==> exists i :: 0 <= i < |s| && s[i] != '1'
  {
    forall i | 0 <= i < |s| ensures Symbol(Values(s)[i]) == s[i] && (Values(s)[i] == 0 <==> s[i] == '1') {
      AsciiSymbol(s[i]);
    }
  }

  /** Decoding an encoding gives the bytes back exactly when the input is empty or has a non-zero byte. */
  lemma DecodeEncode(bytes: seq<Byte>)
    ensures Decode(Encode(bytes)) == Ok(bytes) <==> bytes == [] || SomeNonZero(bytes)
  {
    hide Convert, ToText, Decode;
    EncodedDigitsBelow(bytes);
    TextOfDigits(Convert(bytes, 256, 58));
    DecodeAscii(Encode(bytes));
    ConvertRoundTrip(bytes, 256, 58);
  }

  /** Encoding a decoding gives the text back exactly when the text is empty, or ASCII with a symbol other than '1'. */
  lemma EncodeDecode(s: string, bytes: seq<Byte>)
    requires Decode(s) == Ok(bytes)
    ensures Encode(bytes) == s <==> s == "" || (IsAscii(s) && exists i :: 0 <= i < |s| && s[i] != '1')
  {
    EncodedDigitsBelow(bytes);
    TextOfDigits(Convert(bytes, 256, 58));
    if IsAscii(s) {
      AsciiRoundTrip(s, bytes);
    }
  }

  lemma AsciiRoundTrip(s: string, bytes: seq<Byte>)
    requires Decode(s) == Ok(bytes) && IsAscii(s)
    ensures Encode(bytes) == s <==> s == "" || exists i :: 0 <= i < |s| && s[i] != '1'
  {
    DecodableText(s);
    hide Convert, ToText, Decode;
    DecodeAscii(s);
    DigitsOfText(s);
    ConvertRoundTrip(Values(s), 58, 256);
    EncodedDigitsBelow(bytes);
    TextOfDigits(Convert(bytes, 256, 58));
  }

  lemma DecodableText(s: string)
    requires Decode(s).Ok?
    ensures Decodable(s)
  {}

  // ------------------------------------------- characters beyond ASCII

  /** The character 256 code points further on, which the decoder cannot tell apart. */
  function Foreign(ch: char): char
    requires ch as int < 128
  {
    (ch as int + 256) as char
  }

  lemma ForeignValue(ch: char)
    requires ch as int < 128
    ensures SymbolValue(Foreign(ch)) == SymbolValue(ch) && Foreign(ch) != '1' && Foreign(ch) as int >= 128
  {
    hide ALPHABET, PositionIn;
    assert (ch as int + 256) % 256 == ch as int % 256;
  }

  lemma SameValues(s: string, t: string)
    requires Decodable(s) && |s| == |t| && forall i :: 0 <= i < |s| ==> SymbolValue(t[i]) == SymbolValue(s[i])
    ensures Decodable(t) && Values(t) == Values(s)
  {}

  lemma {:induction false} SameLeadingOnes(s: string, t: string)
    requires |s| == |t| && forall i :: 0 <= i < |s| ==> (t[i] == '1' <==> s[i] == '1')
    ensures LeadingOnes(t) == LeadingOnes(s)
  {
    if s != "" { SameLeadingOnes(s[1..], t[1..]); }
  }

  lemma SameDecoding(s: string, t: string)
    requires Decodable(s) && Decodable(t) && Values(s) == Values(t) && LeadingOnes(s) == LeadingOnes(t)
    ensures Decode(t) == Decode(s)
  {
    assert s == "" <==> t == "" by { assert |Values(s)| == |s| && |Values(t)| == |t|; }
  }

  /** Every text with a symbol other than '1' has a twin beyond ASCII that decodes alike and never comes back. */
  lemma ForeignTwin(s: string, i: nat)
    requires Decodable(s) && IsAscii(s) && i < |s| && s[i] != '1'
    ensures var t := s[i := Foreign(s[i])];
            && !IsAscii(t) && t != s && Decode(t) == Decode(s) && Decode(s).Ok?
            && Encode(Decode(t).value) == s
  {
    var t := s[i := Foreign(s[i])];
    ForeignValue(s[i]);
    assert t[i] == Foreign(s[i]);
    hide SymbolValue, Encode;
    SameValues(s, t);
    SameLeadingOnes(s, t);
    SameDecoding(s, t);
    DecodableText(s);
    EncodeDecode(s, Decode(s).value);
  }

  // ------------------------------------------------------------ the loops

  method CountZeros(input: seq<Byte>) returns (leading: nat)
    ensures leading == LeadingZeros(input)
  {
    leading := 0;
    while leading < |input| && input[leading] == 0
      invariant leading <= |input| && LeadingZeros(input) == leading + LeadingZeros(input[leading..])
    {
      leading := leading + 1;
    }
  }

  method CountOnes(input: string) returns (leading: nat)
    ensures leading == LeadingOnes(input)
  {
    leading := 0;
    while leading < |input| && input[leading] == '1'
      invariant leading <= |input| && LeadingOnes(input) == leading + LeadingOnes(input[leading..])
    {
      leading := leading + 1;
    }
  }

  method EncodeLoop(input: seq<Byte>) returns (result: string)
    ensures result == Encode(input)
  {
    hide ALPHABET, Symbol;
    if |input| == 0 { return ""; }
    var leading := CountZeros(input);
    var num: seq<U32> := [0];
    for i := 0 to |input|
      invariant DigitsBelow(num, 58) && Tidy(num) && ValueLE(num, 58) == ValueBE(input[..i], 256)
    {
      num := ShiftIn(num, input[i], 256, 58);
      assert input[..i + 1][..i] == input[..i];
    }
    assert input[..|input|] == input;
    TidyIsDetermined(num, 58);
    SymbolRoundTrip(0);
    result := seq(leading, _ => '1') + ToText(Reversed<nat>(num));
  }

  /** The accumulation loop of the decoder, stopping at the first character outside the alphabet. */
  method Accumulate(input: string) returns (num: seq<U32>, bad: Option<char>)
    ensures bad == FirstInvalid(input)
    ensures bad.None? ==> DigitsBelow(num, 256) && Tidy(num) && ValueLE(num, 256) == ValueBE(Values(input), 58)
  {
    hide SymbolValue, FirstInvalid;
    num, bad := [0], None;
    for i := 0 to |input|
      invariant Decodable(input[..i])
      invariant DigitsBelow(num, 256) && Tidy(num) && ValueLE(num, 256) == ValueBE(Values(input[..i]), 58)
    {
      var val := SymbolValue(input[i]);
      if val.None? {
        FirstInvalidAt(input, i);
        return num, Some(input[i]);
      }
      num := ShiftIn(num, val.value, 58, 256);
      assert Values(input[..i + 1])[..i] == Values(input[..i]);
    }
    assert input[..|input|] == input;
  }

  method DecodeLoop(input: string) returns (r: Result<seq<Byte>, char>)
    ensures r == Decode(input)
  {
    hide SymbolValue, FirstInvalid;
    if |input| == 0 { return Ok([]); }
    var leading := CountOnes(input);
    var num, bad := Accumulate(input);
    if bad.Some? { return Err(bad.value); }
    // The source pops superfluous top zeros here; a tidy list has none.
    TidyIsDetermined(num, 256);
    r := Ok(Zeros(leading) + Reversed<nat>(num));
  }

  lemma {:induction false} FirstInvalidAt(s: string, i: nat)
    requires i < |s| && Decodable(s[..i]) && SymbolValue(s[i]).None?
    ensures FirstInvalid(s) == Some(s[i])
  {
    if i > 0 {
      assert s[..i][0] == s[0];
      assert s[1..][..i - 1] == s[..i][1..];
      FirstInvalidAt(s[1..], i - 1);
    }
  }
}
