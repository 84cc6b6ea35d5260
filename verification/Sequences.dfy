/** The standard library's sequence operations: stable sorting, filtering, truncation and deduplication. */
module Sequences {

  // -------------------------------------------------------------- filtering

  function Filter<T(!new)>(s: seq<T>, keep: T -> bool): (r: seq<T>)
    ensures forall x :: x in r <==> x in s && keep(x)
    ensures |r| <= |s|
  {
    if s == [] then []
    else if keep(s[0]) then [s[0]] + Filter(s[1..], keep)
    else Filter(s[1..], keep)
  }

  lemma EmptyIffNoMember<T>(s: seq<T>)
    ensures s == [] <==> forall x :: x !in s
  {
    if s != [] { assert s[0] in s; }
  }

  // ---------------------------------------------------------------- sorting

  /** `le` compares any two values and is transitive, as a comparator must. */
  ghost predicate TotalPreorder<T(!new)>(le: (T, T) -> bool) {
    && (forall x, y :: le(x, y) || le(y, x))
    && (forall x, y, z :: le(x, y) && le(y, z) ==> le(x, z))
  }

  ghost predicate SortedBy<T(!new)>(s: seq<T>, le: (T, T) -> bool) {
    forall i, j :: 0 <= i < j < |s| ==> le(s[i], s[j])
  }

  function Insert<T(!new)>(x: T, s: seq<T>, le: (T, T) -> bool): seq<T> {
    if s == [] || le(x, s[0]) then [x] + s else [s[0]] + Insert(x, s[1..], le)
  }

  /** What `sort_by` returns: the one stable sorted rearrangement. */
  function StableSort<T(!new)>(s: seq<T>, le: (T, T) -> bool): seq<T> {
    if s == [] then [] else Insert(s[0], StableSort(s[1..], le), le)
  }

  lemma {:induction false} InsertKeeps<T(!new)>(x: T, s: seq<T>, le: (T, T) -> bool)
    ensures multiset(Insert(x, s, le)) == multiset{x} + multiset(s)
    ensures |Insert(x, s, le)| == |s| + 1
  {
    if s != [] && !le(x, s[0]) {
      InsertKeeps(x, s[1..], le);
      assert s == [s[0]] + s[1..];
    }
  }

  lemma {:induction false} SortPermutes<T(!new)>(s: seq<T>, le: (T, T) -> bool)
    ensures multiset(StableSort(s, le)) == multiset(s)
    ensures |StableSort(s, le)| == |s|
    ensures forall x :: x in StableSort(s, le) <==> x in s
  {
    hide Insert;
    if s != [] {
      SortPermutes(s[1..], le);
      InsertKeeps(s[0], StableSort(s[1..], le), le);
      assert s == [s[0]] + s[1..];
    }
    SameMultisetMembers(StableSort(s, le), s);
  }

  lemma SameMultisetMembers<T>(a: seq<T>, b: seq<T>)
    requires multiset(a) == multiset(b)
    ensures forall x :: x in a <==> x in b
  {
    forall x ensures x in a <==> x in b {
      assert x in multiset(a) <==> x in multiset(b);
    }
  }

  lemma {:induction false} InsertSorted<T(!new)>(x: T, s: seq<T>, le: (T, T) -> bool)
    requires TotalPreorder(le) && SortedBy(s, le)
    ensures SortedBy(Insert(x, s, le), le)
  {
    if s != [] && !le(x, s[0]) {
      InsertSorted(x, s[1..], le);
      InsertKeeps(x, s[1..], le);
      var t := Insert(x, s[1..], le);
      forall k | 0 <= k < |t| ensures le(s[0], t[k]) {
        assert t[k] in multiset(t);
      }
    }
  }

  lemma {:induction false} SortSorts<T(!new)>(s: seq<T>, le: (T, T) -> bool)
    requires TotalPreorder(le)
    ensures SortedBy(StableSort(s, le), le)
  {
    if s != [] {
      SortSorts(s[1..], le);
      InsertSorted(s[0], StableSort(s[1..], le), le);
    }
  }

  /** Values that compare equal to `x`. */
  function TiedWith<T(!new)>(x: T, le: (T, T) -> bool): T -> bool {
    y => le(x, y) && le(y, x)
  }

  lemma {:induction false} InsertStable<T(!new)>(x: T, s: seq<T>, le: (T, T) -> bool, y: T)
    requires TotalPreorder(le) && SortedBy(s, le)
    ensures Filter(Insert(x, s, le), TiedWith(y, le)) == Filter([x] + s, TiedWith(y, le))
  {
    if s != [] && !le(x, s[0]) {
      InsertStable(x, s[1..], le, y);
      assert ([s[0]] + Insert(x, s[1..], le))[1..] == Insert(x, s[1..], le);
      assert ([x] + s)[1..] == s && ([x] + s[1..])[1..] == s[1..];
    }
  }

  /** Tied values keep their order. */
  lemma {:induction false} SortStable<T(!new)>(s: seq<T>, le: (T, T) -> bool, y: T)
    requires TotalPreorder(le)
    ensures Filter(StableSort(s, le), TiedWith(y, le)) == Filter(s, TiedWith(y, le))
  {
    if s != [] {
      SortStable(s[1..], le, y);
      SortSorts(s[1..], le);
      InsertStable(s[0], StableSort(s[1..], le), le, y);
      var t := [s[0]] + StableSort(s[1..], le);
      assert t[1..] == StableSort(s[1..], le);
    }
  }

  // ---------------------------------------------------------- distinct keys

  ghost predicate KeysDistinct<T(!new), K>(s: seq<T>, key: T -> K) {
    forall i, j :: 0 <= i < j < |s| ==> key(s[i]) != key(s[j])
  }

  lemma OccursTwice<T>(s: seq<T>, i: nat, j: nat)
    requires i < j < |s| && s[i] == s[j]
    ensures multiset(s)[s[i]] >= 2
  {
    assert s == s[..j] + s[j..];
    assert s[i] in s[..j] && s[j] in s[j..];
    assert multiset(s) == multiset(s[..j]) + multiset(s[j..]);
  }

  lemma OccursOnce<T(!new), K>(s: seq<T>, key: T -> K, m: nat)
    requires KeysDistinct(s, key) && m < |s|
    ensures multiset(s)[s[m]] == 1
  {
    assert s == s[..m] + [s[m]] + s[m + 1..];
    assert s[m] !in s[..m] && s[m] !in s[m + 1..];
    assert multiset(s) == multiset(s[..m]) + multiset{s[m]} + multiset(s[m + 1..]);
  }

  lemma KeysSurvivePermutation<T(!new), K>(a: seq<T>, b: seq<T>, key: T -> K)
    requires KeysDistinct(a, key) && multiset(a) == multiset(b)
    ensures KeysDistinct(b, key)
  {
    forall i, j | 0 <= i < j < |b| ensures key(b[i]) != key(b[j]) {
      assert b[i] in multiset(a) && b[j] in multiset(a);
      var m :| 0 <= m < |a| && a[m] == b[i];
      var n :| 0 <= n < |a| && a[n] == b[j];
      OccursOnce(a, key, m);
      if m == n { OccursTwice(b, i, j); }
    }
  }

  /** Sorting neither removes nor creates a repeated key. */
  lemma SortKeepsKeys<T(!new), K>(s: seq<T>, le: (T, T) -> bool, key: T -> K)
    ensures KeysDistinct(StableSort(s, le), key) <==> KeysDistinct(s, key)
  {
    SortPermutes(s, le);
    if KeysDistinct(s, key) { KeysSurvivePermutation(s, StableSort(s, le), key); }
    if KeysDistinct(StableSort(s, le), key) { KeysSurvivePermutation(StableSort(s, le), s, key); }
  }

  // ------------------------------------------------------------- truncation

  /** What `take` and `truncate` keep. */
  function Take<T>(s: seq<T>, n: nat): seq<T> {
    if |s| <= n then s else s[..n]
  }

  // ---------------------------------------------------------- deduplication

  /** `retain(|x| seen.insert(key(x)))`: keep the first value of every key not seen before. */
  function DistinctBy<T(!new), K(==)>(s: seq<T>, key: T -> K, seen: set<K>): seq<T> {
    if s == [] then []
    else if key(s[0]) in seen then DistinctBy(s[1..], key, seen)
    else [s[0]] + DistinctBy(s[1..], key, seen + {key(s[0])})
  }

  ghost function KeysOf<T, K>(s: seq<T>, key: T -> K): set<K> {
    set x | x in s :: key(x)
  }

  lemma KeysOfCons<T, K>(x: T, s: seq<T>, key: T -> K)
    ensures KeysOf([x] + s, key) == {key(x)} + KeysOf(s, key)
  {}

  /** Exactly the keys not seen before survive, each once. */
  lemma {:induction false} DistinctByKeys<T(!new), K>(s: seq<T>, key: T -> K, seen: set<K>)
    ensures KeysOf(DistinctBy(s, key, seen), key) == KeysOf(s, key) - seen
    ensures KeysDistinct(DistinctBy(s, key, seen), key)
    ensures forall x :: x in DistinctBy(s, key, seen) ==> x in s
    decreases |s|
  {
    if s != [] {
      assert s == [s[0]] + s[1..];
      KeysOfCons(s[0], s[1..], key);
      var more := if key(s[0]) in seen then seen else seen + {key(s[0])};
      DistinctByKeys(s[1..], key, more);
      if key(s[0]) !in seen {
        var rest := DistinctBy(s[1..], key, more);
        KeysOfCons(s[0], rest, key);
        forall k | 0 <= k < |rest| ensures key(rest[k]) != key(s[0]) {
          assert key(rest[k]) in KeysOf(rest, key);
        }
      }
    }
  }

  /** Deduplication only removes values, so it keeps an order and the first value. */
  lemma {:induction false} DistinctByOrder<T(!new), K>(s: seq<T>, key: T -> K, seen: set<K>, le: (T, T) -> bool)
    requires SortedBy(s, le)
    ensures SortedBy(DistinctBy(s, key, seen), le)
    ensures s != [] && key(s[0]) !in seen ==> DistinctBy(s, key, seen) != [] && DistinctBy(s, key, seen)[0] == s[0]
    decreases |s|
  {
    if s != [] {
      var more := if key(s[0]) in seen then seen else seen + {key(s[0])};
      DistinctByOrder(s[1..], key, more, le);
      DistinctByKeys(s[1..], key, more);
      var rest := DistinctBy(s[1..], key, more);
      forall k | 0 <= k < |rest| ensures le(s[0], rest[k]) {
        assert rest[k] in s[1..];
      }
    }
  }

  /** In a sorted list the value kept for a key is a least one. */
  lemma {:induction false} DistinctByFirst<T(!new), K>(s: seq<T>, key: T -> K, seen: set<K>, le: (T, T) -> bool, x: T)
    requires TotalPreorder(le) && SortedBy(s, le) && x in s && key(x) !in seen
    ensures exists y :: y in DistinctBy(s, key, seen) && key(y) == key(x) && le(y, x)
    decreases |s|
  {
    hide TotalPreorder;
    if key(s[0]) == key(x) {
      var k :| 0 <= k < |s| && s[k] == x;
      FirstIsLeast(s, le, k);
      assert s[0] in DistinctBy(s, key, seen);
    } else {
      assert s == [s[0]] + s[1..];
      var rest := s[1..];
      var more := if key(s[0]) in seen then seen else seen + {key(s[0])};
      assert forall i :: 0 <= i < |rest| ==> rest[i] == s[i + 1];
      assert SortedBy(rest, le) && x in rest && key(x) !in more;
      DistinctByFirst(rest, key, more, le, x);
    }
  }

  lemma FirstIsLeast<T(!new)>(s: seq<T>, le: (T, T) -> bool, k: nat)
    requires TotalPreorder(le) && SortedBy(s, le) && k < |s|
    ensures le(s[0], s[k])
  {}

  /** Truncating a sorted, deduplicated list leaves a value out only when it is full of values that are no worse. */
  lemma TopKept<T(!new), K>(s: seq<T>, key: T -> K, le: (T, T) -> bool, n: nat, x: T)
    requires TotalPreorder(le) && SortedBy(s, le) && x in s
    ensures var top := Take(DistinctBy(s, key, {}), n);
            || (exists y :: y in top && key(y) == key(x) && le(y, x))
            || (|top| == n && forall y :: y in top ==> le(y, x))
  {
    DistinctByFirst(s, key, {}, le, x);
    DistinctByOrder(s, key, {}, le);
    var unique := DistinctBy(s, key, {});
    var top := Take(unique, n);
    hide DistinctBy;
    var y :| y in unique && key(y) == key(x) && le(y, x);
    var k :| 0 <= k < |unique| && unique[k] == y;
    if k < |top| {
      assert top[k] == y;
    } else {
      forall z | z in top ensures le(z, x) {
        var j :| 0 <= j < |top| && top[j] == z;
        assert le(unique[j], unique[k]);
      }
    }
  }

  lemma {:induction false} DistinctByNothing<T(!new), K>(s: seq<T>, key: T -> K, seen: set<K>)
    requires KeysDistinct(s, key) && forall x :: x in s ==> key(x) !in seen
    ensures DistinctBy(s, key, seen) == s
    decreases |s|
  {
    if s != [] {
      forall x | x in s[1..] ensures key(x) !in seen + {key(s[0])} {
        var i :| 0 <= i < |s[1..]| && s[1..][i] == x;
        assert s[i + 1] == x;
      }
      DistinctByNothing(s[1..], key, seen + {key(s[0])});
    }
  }
}
