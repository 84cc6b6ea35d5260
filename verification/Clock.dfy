/** Clock readings and time spans of the fault and trust layers. */
module Clock {

  /** Nanoseconds on a clock that never runs backwards. */
  type Time = int

  /** The longest span chrono can hold: i64::MAX milliseconds. */
  const MAX_SPAN := 9223372036854775807 * 1_000_000

  /** A configured span, or the fallback when chrono cannot hold it. */
  function SpanOr(span: nat, fallback: nat): nat {
    if span <= MAX_SPAN then span else fallback
  }

  /** Spans of up to i64::MAX milliseconds are taken as configured. */
  lemma SpanIsConfigured(span: nat, fallback: nat)
    ensures span <= 9_223_372_036_854_775_807_000_000 ==> SpanOr(span, fallback) == span
    ensures span > 9_223_372_036_854_775_807_000_000 ==> SpanOr(span, fallback) == fallback
  {}
}
