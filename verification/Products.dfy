/**
 * Multiplication of reals under a name. Proofs hide the definition, treat products as atoms and
 * reason about them with the laws below.
 */
module Products {

  function Times(a: real, b: real): real {
    a * b
  }

  lemma TimesOne(a: real)
    ensures Times(1.0, a) == a && Times(a, 1.0) == a
  {}

  lemma TimesZero(a: real)
    ensures Times(0.0, a) == 0.0 && Times(a, 0.0) == 0.0
  {}

  lemma TimesCommutes(a: real, b: real)
    ensures Times(a, b) == Times(b, a)
  {}

  lemma TimesAssociates(a: real, b: real, c: real)
    ensures Times(Times(a, b), c) == Times(a, Times(b, c))
  {}

  lemma TimesAdds(a: real, b: real, c: real)
    ensures Times(a, b + c) == Times(a, b) + Times(a, c)
  {}

  lemma TimesSubtracts(a: real, b: real, c: real)
    ensures Times(a, b - c) == Times(a, b) - Times(a, c)
  {}

  lemma TimesNonNegative(a: real, b: real)
    requires 0.0 <= a && 0.0 <= b
    ensures 0.0 <= Times(a, b)
  {}

  lemma TimesPositive(a: real, b: real)
    requires 0.0 < a && 0.0 < b
    ensures 0.0 < Times(a, b)
  {}

  /** The sign of a product of factors of opposite signs. */
  lemma TimesNegative(a: real, b: real)
    requires a <= 0.0 && 0.0 <= b
    ensures Times(a, b) <= 0.0
  {}

  lemma TimesStrictlyNegative(a: real, b: real)
    requires a < 0.0 && 0.0 < b
    ensures Times(a, b) < 0.0
  {}

  /** A non-negative factor keeps an inequality. */
  lemma TimesMonotone(factor: real, a: real, b: real)
    requires a <= b && 0.0 <= factor
    ensures Times(factor, a) <= Times(factor, b)
  {
    hide Times;
    TimesNonNegative(factor, b - a);
    TimesSubtracts(factor, b, a);
  }

  lemma TimesStrictlyMonotone(factor: real, a: real, b: real)
    requires a < b && 0.0 < factor
    ensures Times(factor, a) < Times(factor, b)
  {
    hide Times;
    TimesPositive(factor, b - a);
    TimesSubtracts(factor, b, a);
  }

  lemma TimesNegates(a: real, b: real)
    ensures Times(-a, b) == -Times(a, b)
  {}

  /** A factor other than zero can be cancelled. */
  lemma TimesCancels(factor: real, a: real, b: real)
    requires Times(factor, a) == Times(factor, b) && factor != 0.0
    ensures a == b
  {
    hide Times;
    var positive := if factor > 0.0 then factor else -factor;
    TimesNegates(factor, a);
    TimesNegates(factor, b);
    if a < b { TimesStrictlyMonotone(positive, a, b); }
    if b < a { TimesStrictlyMonotone(positive, b, a); }
  }

  lemma QuotientTimes(num: real, den: real)
    requires den != 0.0
    ensures Times(den, num / den) == num
  {}

  /** Bounds on a numerator are bounds on the quotient. */
  lemma QuotientBounds(num: real, den: real, lo: real, hi: real)
    requires 0.0 < den && Times(den, lo) <= num <= Times(den, hi)
    ensures lo <= num / den <= hi
  {
    hide Times;
    var q := num / den;
    assert Times(den, q) == num by { QuotientTimes(num, den); }
    if q < lo { TimesStrictlyMonotone(den, q, lo); }
    if hi < q { TimesStrictlyMonotone(den, hi, q); }
  }

  lemma QuotientIs(num: real, den: real, q: real)
    requires den != 0.0 && num == Times(den, q)
    ensures num / den == q
  {
    hide Times;
    QuotientTimes(num, den);
    TimesCancels(den, num / den, q);
  }

  lemma QuotientMonotone(x: real, y: real, den: real)
    requires x <= y && 0.0 < den
    ensures x / den <= y / den
  {
    hide Times;
    assert Times(den, x / den) == x by { QuotientTimes(x, den); }
    assert Times(den, y / den) == y by { QuotientTimes(y, den); }
    if y / den < x / den { TimesStrictlyMonotone(den, y / den, x / den); }
  }

  lemma QuotientSign(x: real, den: real)
    requires den != 0.0
    ensures 0.0 <= x && 0.0 < den ==> 0.0 <= x / den
  {
    hide Times;
    if 0.0 <= x && 0.0 < den {
      TimesZero(den);
      QuotientIs(0.0, den, 0.0);
      QuotientMonotone(0.0, x, den);
    }
  }

  lemma QuotientReversed(x: real, y: real, den: real)
    requires x <= y && den < 0.0
    ensures y / den <= x / den
  {
    hide Times;
    assert Times(den, x / den) == x by { QuotientTimes(x, den); }
    assert Times(den, y / den) == y by { QuotientTimes(y, den); }
    TimesNegates(den, x / den);
    TimesNegates(den, y / den);
    if x / den < y / den { TimesStrictlyMonotone(-den, x / den, y / den); }
  }

  /** A product of numbers in [0,1] is in [0,1] and below both. */
  lemma UnitTimes(a: real, b: real)
    requires 0.0 <= a <= 1.0 && 0.0 <= b <= 1.0
    ensures 0.0 <= Times(a, b) <= 1.0
    ensures Times(a, b) <= a && Times(a, b) <= b
  {
    hide Times;
    ShareTimes(a, b);
    ShareTimes(b, a);
    TimesCommutes(a, b);
  }

  /** A share of a non-negative amount lies between nothing and the amount. */
  lemma ShareTimes(share: real, amount: real)
    requires 0.0 <= share <= 1.0 && 0.0 <= amount
    ensures 0.0 <= Times(share, amount) <= amount
  {
    hide Times;
    TimesNonNegative(share, amount);
    TimesMonotone(amount, share, 1.0);
    TimesCommutes(share, amount);
    TimesOne(amount);
  }

  /** Products of non-negative numbers are ordered like their factors. */
  lemma TimesOrdered(a: real, b: real, x: real, y: real)
    requires 0.0 <= a <= b && 0.0 <= x <= y
    ensures Times(a, x) <= Times(b, y)
  {
    hide Times;
    TimesMonotone(a, x, y);
    TimesMonotone(y, a, b);
    TimesCommutes(y, a);
    TimesCommutes(y, b);
  }

  /** A factor can be taken out of the middle. */
  lemma TimesSwaps(a: real, b: real, x: real)
    ensures Times(a, Times(b, x)) == Times(b, Times(a, x))
  {
    hide Times;
    TimesAssociates(a, b, x);
    TimesAssociates(b, a, x);
    TimesCommutes(a, b);
  }

  // ---------------------------------------------------------------- powers

  function Power(x: real, n: nat): real {
    if n == 0 then 1.0 else Times(Power(x, n - 1), x)
  }

  lemma {:induction false} PowerPositive(x: real, n: nat)
    requires 0.0 < x
    ensures 0.0 < Power(x, n)
  {
    hide Times;
    if n > 0 {
      PowerPositive(x, n - 1);
      TimesPositive(Power(x, n - 1), x);
    }
  }

  lemma {:induction false} PowerNonNegative(x: real, n: nat)
    requires 0.0 <= x
    ensures 0.0 <= Power(x, n)
  {
    hide Times;
    if n > 0 {
      PowerNonNegative(x, n - 1);
      TimesNonNegative(Power(x, n - 1), x);
    }
  }

  lemma {:induction false} PowerAdds(x: real, a: nat, b: nat)
    ensures Power(x, a + b) == Times(Power(x, a), Power(x, b))
    decreases b
  {
    hide Times;
    if b > 0 {
      PowerAdds(x, a, b - 1);
      TimesAssociates(Power(x, a), Power(x, b - 1), x);
    } else {
      TimesOne(Power(x, a));
    }
  }
}
