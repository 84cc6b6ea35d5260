/** Base58 (Bitcoin alphabet) by carry propagation, in both directions. */
module Base58 {
  import opened Prelude

  /** The original's carries and digits are `u32`; every assignment below is checked against that width. */
  type U32 = n: nat | n < 0x1_0000_0000

  // ------------------------------------------------------- positional values

  /** Value of a digit list, least significant digit first. */
  function ValueLE(d: seq<nat>, base: nat): nat {
    if d == [] then 0 else d[0] + base * ValueLE(d[1..], base)
  }

  /** Value of a digit list, most significant digit first. */
  function ValueBE(d: seq<nat>, base: nat): nat {
    if d == [] then 0 else ValueBE(d[..|d| - 1], base) * base + d[|d| - 1]
  }

  /** The canonical digits of a number, least significant first, without superfluous zeros. */
  function Digits(v: nat, base: nat): (d: seq<nat>)
    requires base >= 2
    ensures forall i :: 0 <= i < |d| ==> d[i] < base
    ensures v > 0 ==> |d| > 0 && d[|d| - 1] != 0
    ensures v == 0 ==> d == []
    decreases v
  {
    if v == 0 then [] else [v % base] + Digits(v / base, base)
  }

  ghost predicate DigitsBelow(d: seq<nat>, base: nat) {
    forall i :: 0 <= i < |d| ==> d[i] < base
  }

  /** A digit list as the loops keep it: a lone zero, or no zero on top. */
  ghost predicate Tidy(d: seq<nat>) {
    |d| > 0 && (d == [0] || d[|d| - 1] != 0)
  }

  /** The tidy list of a value. */
  function TidyDigits(v: nat, base: nat): seq<nat>
    requires base >= 2
  {
    if v == 0 then [0] else Digits(v, base)
  }

  /** Canonical digits are determined by their value. */
  lemma {:induction false} DigitsOfValue(d: seq<nat>, base: nat)
    requires base >= 2 && DigitsBelow(d, base) && (d == [] || d[|d| - 1] != 0)
    ensures Digits(ValueLE(d, base), base) == d
  {
    if d != [] {
      DigitsOfValue(d[1..], base);
      DivModOf(d[0], ValueLE(d[1..], base), base);
      PositiveValue(d, base);
    }
  }

  lemma {:induction false} PositiveValue(d: seq<nat>, base: nat)
    requires base >= 2 && d != [] && d[|d| - 1] != 0
    ensures ValueLE(d, base) > 0
  {
    if |d| > 1 {
      PositiveValue(d[1..], base);
      MulLeq(base, 1, ValueLE(d[1..], base));
    }
  }

  lemma ConsValue(x: nat, rest: seq<nat>, base: nat)
    ensures ValueLE([x] + rest, base) == x + base * ValueLE(rest, base)
  {}

  lemma DivModIdentity(v: nat, base: nat)
    requires base >= 2
    ensures v % base + base * (v / base) == v
    ensures v > 0 ==> v / base < v
  {}

  lemma DigitsUnroll(v: nat, base: nat)
    requires base >= 2 && v > 0
    ensures Digits(v, base) == [v % base] + Digits(v / base, base)
  {}

  lemma {:induction false} ValueOfDigits(v: nat, base: nat)
    requires base >= 2
    ensures ValueLE(Digits(v, base), base) == v
    decreases v
  {
    hide Digits, ValueLE;
    if v == 0 {
      assert ValueLE([], base) == 0 by { NoDigits(base); }
    } else {
      DivModIdentity(v, base);
      DigitsUnroll(v, base);
      ValueOfDigits(v / base, base);
      ConsValue(v % base, Digits(v / base, base), base);
    }
  }

  lemma NoDigits(base: nat)
    ensures ValueLE([], base) == 0
  {}

  lemma {:induction false} ReversedValue(d: seq<nat>, base: nat)
    ensures ValueBE(Reversed(d), base) == ValueLE(d, base)
  {
    if d != [] {
      ReversedValue(d[1..], base);
      var r := Reversed(d);
      assert r[..|r| - 1] == Reversed(d[1..]);
    }
  }

  lemma TidyIsDetermined(d: seq<nat>, base: nat)
    requires base >= 2 && DigitsBelow(d, base) && Tidy(d)
    ensures d == TidyDigits(ValueLE(d, base), base)
  {
    if d == [0] {
      assert ValueLE(d, base) == 0 + base * ValueLE([], base);
    } else {
      DigitsOfValue(d, base);
      PositiveValue(d, base);
    }
  }

  // ------------------------------------------------------ the carry loop

  /** What one round of the carry loop leaves: multiply by `factor`, add `carry`. */
  function Carried(num: seq<nat>, carry: nat, factor: nat, base: nat): seq<nat>
    requires base >= 2
    decreases |num|
  {
    if num == [] then Digits(carry, base)
    else
      var t := carry + num[0] * factor;
      [t % base] + Carried(num[1..], t / base, factor, base)
  }

  lemma {:induction false} CarriedValue(num: seq<nat>, carry: nat, factor: nat, base: nat)
    requires base >= 2
    ensures ValueLE(Carried(num, carry, factor, base), base) == ValueLE(num, base) * factor + carry
    decreases |num|
  {
    if num == [] {
      ValueOfDigits(carry, base);
    } else {
      var t := carry + num[0] * factor;
      CarriedValue(num[1..], t / base, factor, base);
      var rest := Carried(num[1..], t / base, factor, base);
      var v := ValueLE(num[1..], base);
      assert Carried(num, carry, factor, base)[1..] == rest;
      CarryAlgebra(t, v, factor, base);
      assert (num[0] + base * v) * factor == num[0] * factor + base * (v * factor) by {
        Distribute(num[0], base, v, factor);
      }
    }
  }

  lemma Distribute(x: nat, base: nat, v: nat, factor: nat)
    ensures (x + base * v) * factor == x * factor + base * (v * factor)
  {}

  lemma CarryAlgebra(t: nat, v: nat, factor: nat, base: nat)
    requires base >= 2
    ensures t % base + base * (v * factor + t / base) == t + base * (v * factor)
  {}

  lemma {:induction false} CarriedDigits(num: seq<nat>, carry: nat, factor: nat, base: nat)
    requires base >= 2
    ensures DigitsBelow(Carried(num, carry, factor, base), base)
    decreases |num|
  {
    if num != [] {
      CarriedDigits(num[1..], (carry + num[0] * factor) / base, factor, base);
    }
  }

  lemma SmallRemainder(t: nat, base: nat)
    requires base >= 2
    ensures t / base == 0 ==> t % base == t
  {}

  /** A list with a non-zero top digit keeps one. */
  lemma {:induction false} CarriedTop(num: seq<nat>, carry: nat, factor: nat, base: nat)
    requires base >= 2 && factor >= 1 && num != [] && num[|num| - 1] != 0
    ensures var r := Carried(num, carry, factor, base); r != [] && r[|r| - 1] != 0
    decreases |num|
  {
    var t := carry + num[0] * factor;
    var r, q := t % base, t / base;
    assert Carried(num, carry, factor, base) == [r] + Carried(num[1..], q, factor, base);
    if |num| == 1 {
      MulLeq(factor, 1, num[0]);
      SmallRemainder(t, base);
      assert Carried(num[1..], q, factor, base) == Digits(q, base);
    } else {
      CarriedTop(num[1..], q, factor, base);
    }
  }

  lemma CarriedZero(carry: nat, factor: nat, base: nat)
    requires base >= 2
    ensures Carried([0], carry, factor, base) == [carry % base] + Digits(carry / base, base)
  {
    assert carry + 0 * factor == carry;
    assert [0][1..] == [];
  }

  lemma TidyCons(low: nat, rest: nat, base: nat)
    requires base >= 2
    ensures Tidy([low] + Digits(rest, base))
  {
    if rest > 0 { TopOfCons(low, Digits(rest, base)); }
    hide Digits;
  }

  lemma TopOfCons(x: nat, rest: seq<nat>)
    requires rest != []
    ensures ([x] + rest)[|[x] + rest| - 1] == rest[|rest| - 1]
  {}

  lemma CarriedTidy(num: seq<nat>, carry: nat, factor: nat, base: nat)
    requires base >= 2 && factor >= 1 && Tidy(num)
    ensures Tidy(Carried(num, carry, factor, base))
  {
    hide Carried, Digits;
    if num == [0] {
      CarriedZero(carry, factor, base);
      TidyCons(carry % base, carry / base, base);
    } else {
      CarriedTop(num, carry, factor, base);
    }
  }

  lemma CarryStaysSmall(carry: nat, digit: nat, factor: nat, base: nat)
    requires 2 <= base <= 256 && 2 <= factor <= 256 && carry < factor && digit < base
    ensures carry + digit * factor < base * factor <= 65536
    ensures (carry + digit * factor) / base < factor
  {
    MulLeq(factor, digit, base - 1);
    MulLeq(factor, base, 256);
    assert digit * factor <= (base - 1) * factor == base * factor - factor;
    var t := carry + digit * factor;
    if t / base >= factor { MulLeq(base, factor, t / base); }
  }

  lemma CarriedStep(num: seq<nat>, i: nat, carry: nat, factor: nat, base: nat)
    requires base >= 2 && i < |num|
    ensures var t := carry + num[i] * factor;
            Carried(num[i..], carry, factor, base) == [t % base] + Carried(num[i + 1..], t / base, factor, base)
  {}

  /** One digit of the in-place loop: take in the carry, keep the remainder, pass the quotient on. */
  method CarryDigit(digit: U32, carry0: U32, factor: U32, base: U32) returns (out: U32, carry: U32)
    requires 2 <= base <= 256 && 2 <= factor <= 256 && carry0 < factor && digit < base
    ensures out == (carry0 + digit * factor) % base && carry == (carry0 + digit * factor) / base
    ensures out < base && carry < factor
  {
    CarryStaysSmall(carry0, digit, factor, base);
    var t: U32 := carry0 + digit * factor;
    out, carry := DivMod(t, base);
  }

  method DivMod(t: U32, base: U32) returns (out: U32, carry: U32)
    requires 2 <= base
    ensures out == t % base && carry == t / base && out < base
  {
    DivModIdentity(t, base);
    out := t % base;
    carry := t / base;
  }

  /** The in-place part: one digit after the other takes its share of the running carry. */
  method CarryThrough(num: seq<U32>, value: U32, factor: U32, base: U32) returns (r: seq<U32>, carry: U32)
    requires 2 <= base <= 256 && 2 <= factor <= 256 && value < factor && DigitsBelow(num, base)
    ensures |r| == |num| && carry < factor
    ensures r + Digits(carry, base) == Carried(num, value, factor, base)
  {
    hide Carried, Digits, DigitsBelow;
    r, carry := num, value;
    assert num[0..] == num;
    for i := 0 to |num|
      invariant |r| == |num| && r[i..] == num[i..] && carry < factor
      invariant r[..i] + Carried(num[i..], carry, factor, base) == Carried(num, value, factor, base)
    {
      DigitAt(num, i, base);
      CarriedStep(num, i, carry, factor, base);
      ghost var before := r;
      var out: U32;
      out, carry := CarryDigit(r[i], carry, factor, base);
      r := r[i := out];
      assert r[..i + 1] == before[..i] + [out];
    }
    assert Carried(num[|num|..], carry, factor, base) == Digits(carry, base) by { CarriedEnd(carry, factor, base); }
    assert r[..|num|] == r;
  }

  lemma DigitAt(num: seq<nat>, i: nat, base: nat)
    requires DigitsBelow(num, base) && i < |num|
    ensures num[i] < base
  {}

  lemma CarriedEnd(carry: nat, factor: nat, base: nat)
    requires base >= 2
    ensures Carried([], carry, factor, base) == Digits(carry, base)
  {}

  /** The pushing part: whatever is left of the carry becomes new top digits. */
  method PushCarry(num: seq<U32>, carry0: U32, base: U32) returns (r: seq<U32>)
    requires 2 <= base
    ensures r == num + Digits(carry0, base)
  {
    hide Digits;
    r := num;
    var carry: U32 := carry0;
    while carry > 0
      invariant r + Digits(carry, base) == num + Digits(carry0, base)
      decreases carry
    {
      DivModIdentity(carry, base);
      DigitsUnroll(carry, base);
      r := r + [carry % base];
      carry := carry / base;
    }
  }

  /** One outer iteration of either loop: `num = num * factor + value`. */
  method ShiftIn(num: seq<U32>, value: U32, factor: U32, base: U32) returns (r: seq<U32>)
    requires 2 <= base <= 256 && 2 <= factor <= 256 && value < factor
    requires DigitsBelow(num, base) && Tidy(num)
    ensures DigitsBelow(r, base) && Tidy(r)
    ensures ValueLE(r, base) == ValueLE(num, base) * factor + value
  {
    hide Carried, Digits, ValueLE, Tidy, DigitsBelow;
    var carry: U32;
    r, carry := CarryThrough(num, value, factor, base);
    r := PushCarry(r, carry, base);
    CarriedValue(num, value, factor, base);
    CarriedDigits(num, value, factor, base);
    CarriedTidy(num, value, factor, base);
  }

  // ------------------------------------------- converting between two bases

  function LeadingZeros(s: seq<nat>): nat {
    if s == [] || s[0] != 0 then 0 else 1 + LeadingZeros(s[1..])
  }

  function Zeros(n: nat): (s: seq<nat>)
    ensures |s| == n && forall i :: 0 <= i < n ==> s[i] == 0
  {
    seq(n, _ => 0)
  }

  /** Both directions of the codec are this function on digit lists. */
  function Convert(s: seq<nat>, from: nat, to: nat): seq<nat>
    requires to >= 2
  {
    if s == [] then [] else Zeros(LeadingZeros(s)) + Reversed(TidyDigits(ValueBE(s, from), to))
  }

  ghost predicate SomeNonZero(s: seq<nat>) {
    exists i :: 0 <= i < |s| && s[i] != 0
  }

  lemma {:induction false} ZerosLead(s: seq<nat>)
    ensures LeadingZeros(s) <= |s|
    ensures forall i :: 0 <= i < LeadingZeros(s) ==> s[i] == 0
    ensures LeadingZeros(s) < |s| ==> s[LeadingZeros(s)] != 0
  {
    if s != [] && s[0] == 0 {
      ZerosLead(s[1..]);
      assert forall i :: 0 < i < |s| ==> s[i] == s[1..][i - 1];
    }
  }

  lemma LeadingZerosSplit(s: seq<nat>)
    ensures LeadingZeros(s) <= |s|
    ensures s == Zeros(LeadingZeros(s)) + s[LeadingZeros(s)..]
    ensures LeadingZeros(s) < |s| ==> s[LeadingZeros(s)] != 0
    ensures SomeNonZero(s) <==> LeadingZeros(s) < |s|
  {
    hide LeadingZeros;
    ZerosLead(s);
  }

  lemma {:induction false} LeadingZerosOf(n: nat, t: seq<nat>)
    requires t == [] || t[0] != 0
    ensures LeadingZeros(Zeros(n) + t) == n
  {
    if n > 0 {
      LeadingZerosOf(n - 1, t);
      assert (Zeros(n) + t)[1..] == Zeros(n - 1) + t;
    } else {
      assert Zeros(0) + t == t;
    }
  }

  lemma {:induction false} ValueWithZeros(n: nat, t: seq<nat>, base: nat)
    ensures ValueBE(Zeros(n) + t, base) == ValueBE(t, base)
    decreases n + |t|
  {
    var s := Zeros(n) + t;
    if t != [] {
      ValueWithZeros(n, t[..|t| - 1], base);
      assert s[..|s| - 1] == Zeros(n) + t[..|t| - 1];
    } else if n > 0 {
      ValueWithZeros(n - 1, t, base);
      assert s[..|s| - 1] == Zeros(n - 1) + t;
    }
  }

  lemma ReversedTwice(s: seq<nat>)
    ensures Reversed(Reversed(s)) == s
  {}

  /** A list without leading zeros is the reversal of the canonical digits of its value. */
  lemma CanonicalBE(t: seq<nat>, base: nat)
    requires base >= 2 && DigitsBelow(t, base) && t != [] && t[0] != 0
    ensures ValueBE(t, base) > 0 && Reversed(Digits(ValueBE(t, base), base)) == t
  {
    var d := Reversed(t);
    ReversedTwice(t);
    ReversedValue(d, base);
    DigitsOfValue(d, base);
    PositiveValue(d, base);
  }

  /**
   * What conversion does to a list with a non-zero digit: the zeros stay, the value stays, the digits are
   * canonical.
   */
  lemma ConvertShape(s: seq<nat>, from: nat, to: nat)
    requires from >= 2 && to >= 2 && DigitsBelow(s, from) && SomeNonZero(s)
    ensures var t := Convert(s, from, to);
            && t == Zeros(LeadingZeros(s)) + Reversed(Digits(ValueBE(s, from), to))
            && LeadingZeros(t) == LeadingZeros(s) && ValueBE(t, to) == ValueBE(s, from) > 0
            && DigitsBelow(t, to) && SomeNonZero(t)
  {
    hide LeadingZeros, ValueBE, ValueLE;
    var n, v := LeadingZeros(s), ValueBE(s, from);
    TailValue(s, from);
    var r := Reversed(Digits(v, to));
    LeadingZerosOf(n, r);
    ValueWithZeros(n, r, to);
    ReversedValue(Digits(v, to), to);
    ValueOfDigits(v, to);
    assert (Zeros(n) + r)[n] == r[0] != 0;
  }

  /** The part after the leading zeros carries the whole value and is canonical. */
  lemma TailValue(s: seq<nat>, base: nat)
    requires base >= 2 && DigitsBelow(s, base) && SomeNonZero(s)
    ensures LeadingZeros(s) < |s| && ValueBE(s, base) > 0
    ensures s == Zeros(LeadingZeros(s)) + Reversed(Digits(ValueBE(s, base), base))
  {
    hide LeadingZeros, ValueBE, Digits;
    LeadingZerosSplit(s);
    var tail := s[LeadingZeros(s)..];
    ValueWithZeros(LeadingZeros(s), tail, base);
    CanonicalBE(tail, base);
  }

  /** Converting there and back is the identity exactly on the lists that are empty or have a non-zero digit. */
  lemma ConvertRoundTrip(s: seq<nat>, from: nat, to: nat)
    requires from >= 2 && to >= 2 && DigitsBelow(s, from)
    ensures Convert(Convert(s, from, to), to, from) == s <==> s == [] || SomeNonZero(s)
  {
    hide Convert, SomeNonZero, ValueBE, LeadingZeros, Digits, DigitsBelow;
    if SomeNonZero(s) {
      ConvertShape(s, from, to);
      ConvertShape(Convert(s, from, to), to, from);
      TailValue(s, from);
    } else if s != [] {
      AllZeroGrows(s, from, to);
      AllZeroGrows(Convert(s, from, to), to, from);
    } else {
      assert Convert(s, from, to) == [] && Convert([], to, from) == [] by {
        ConvertEmpty(from, to);
        ConvertEmpty(to, from);
      }
    }
  }

  lemma ConvertEmpty(from: nat, to: nat)
    requires to >= 2
    ensures Convert([], from, to) == []
  {}

  /** An all-zero list comes out one zero longer. */
  lemma AllZeroGrows(s: seq<nat>, from: nat, to: nat)
    requires from >= 2 && to >= 2 && s != [] && !SomeNonZero(s)
    ensures Convert(s, from, to) == Zeros(|s| + 1) && !SomeNonZero(Convert(s, from, to))
  {
    LeadingZerosSplit(s);
    ValueWithZeros(|s|, [], from);
    assert s == Zeros(|s|) + [];
    assert Reversed([0]) == [0];
  }
}
