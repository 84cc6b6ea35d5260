/** Small types and facts shared by every layer. */
module Prelude {

  datatype Option<+T> = None | Some(value: T)

  datatype Result<+T, +E> = Ok(value: T) | Err(error: E)

  type Byte = b: nat | b < 256

  function Min(a: real, b: real): real {
    if a <= b then a else b
  }

  function Max(a: real, b: real): real {
    if a >= b then a else b
  }

  /** The original's `clamp(0.0, 1.0)`. */
  function ClampUnit(x: real): real {
    Max(0.0, Min(x, 1.0))
  }

  lemma ClampMeaning(x: real)
    ensures x <= 0.0 ==> ClampUnit(x) == 0.0
    ensures 0.0 <= x <= 1.0 ==> ClampUnit(x) == x
    ensures 1.0 <= x ==> ClampUnit(x) == 1.0
  {}

  function Reversed<T>(s: seq<T>): (r: seq<T>)
    ensures |r| == |s| && forall i :: 0 <= i < |s| ==> r[i] == s[|s| - 1 - i]
  {
    seq(|s|, i requires 0 <= i < |s| => s[|s| - 1 - i])
  }

  lemma DivModOf(r: nat, q: nat, base: nat)
    requires r < base
    ensures (r + base * q) % base == r && (r + base * q) / base == q
  {
    var v := r + base * q;
    assert v == base * (v / base) + v % base;
    if v / base < q {
      assert base * (v / base) <= base * (q - 1) by { MulLeq(base, v / base, q - 1); }
    } else if v / base > q {
      assert base * (v / base) >= base * (q + 1) by { MulLeq(base, q + 1, v / base); }
    }
  }

  lemma MulLeq(c: nat, a: int, b: int)
    requires a <= b
    ensures c * a <= c * b
  {}

  ghost predicate Distinct<T>(s: seq<T>) {
    forall i, j :: 0 <= i < j < |s| ==> s[i] != s[j]
  }

  function Range(n: nat): (s: set<nat>)
    ensures |s| == n
    ensures forall i: nat :: i in s <==> i < n
  {
    if n == 0 then {} else Range(n - 1) + {n - 1}
  }

  /** The members of a duplicate-free sequence are as many as its length. */
  lemma {:induction false} DistinctCardinality<T>(s: seq<T>)
    requires Distinct(s)
    ensures |set x | x in s| == |s|
  {
    if s == [] {
      assert (set x | x in s) == {};
    } else {
      var front, last := s[..|s| - 1], s[|s| - 1];
      DistinctCardinality(front);
      assert (set x | x in s) == (set x | x in front) + {last};
      assert last !in front;
    }
  }

  lemma SubsetCardinality<T>(a: set<T>, b: set<T>)
    requires a <= b
    ensures |a| <= |b|
    decreases a
  {
    if a != {} {
      var x :| x in a;
      SubsetCardinality(a - {x}, b - {x});
    }
  }

  /** A sequence of numbers below `n` that is longer than `n` repeats one of them. */
  lemma PigeonHole(s: seq<nat>, n: nat)
    requires forall i :: 0 <= i < |s| ==> s[i] < n
    requires |s| > n
    ensures !Distinct(s)
  {
    if Distinct(s) {
      DistinctCardinality(s);
      SubsetCardinality((set x | x in s), Range(n));
    }
  }
}
