/** Reconstruction of a context from a payload, and merging more chunks into a payload. */
module Adaptive {
  import opened Prelude
  import opened Sequences
  import opened Extraction

  // ------------------------------------------------------- reconstruction

  function DataOf(chunks: seq<Chunk>): seq<Byte> {
    if chunks == [] then [] else chunks[0].data + DataOf(chunks[1..])
  }

  /** Concatenation of the held chunks in index order. */
  function ApplyDiff(diff: ContextDiff): seq<Byte> {
    DataOf(StableSort(diff.chunks, ByIndex))
  }

  method ApplyDiffLoop(diff: ContextDiff) returns (result: seq<Byte>)
    ensures result == ApplyDiff(diff)
  {
    var sorted := StableSort(diff.chunks, ByIndex);
    result := [];
    for i := 0 to |sorted|
      invariant result + DataOf(sorted[i..]) == DataOf(sorted)
    {
      assert sorted[i..][1..] == sorted[i + 1..];
      result := result + sorted[i].data;
    }
    assert sorted[|sorted|..] == [];
  }

  ghost function Indices(chunks: seq<Chunk>): set<nat> {
    KeysOf(chunks, IndexKey)
  }

  /** The chunks of the original whose index is held, in order. */
  ghost function Holding(raw: seq<seq<Byte>>, held: set<nat>, n: nat): seq<Byte>
    requires n <= |raw|
  {
    if n == 0 then [] else Holding(raw, held, n - 1) + (if n - 1 in held then raw[n - 1] else [])
  }

  lemma DataOfCons(c: Chunk, rest: seq<Chunk>)
    ensures DataOf([c] + rest) == c.data + DataOf(rest)
  {
    assert ([c] + rest)[1..] == rest;
  }

  lemma {:induction false} DataOfConcat(a: seq<Chunk>, b: seq<Chunk>)
    ensures DataOf(a + b) == DataOf(a) + DataOf(b)
  {
    if a == [] {
      assert a + b == b;
    } else {
      hide DataOf;
      DataOfConcat(a[1..], b);
      DataOfCons(a[0], a[1..]);
      DataOfCons(a[0], a[1..] + b);
      assert a == [a[0]] + a[1..] && a + b == [a[0]] + (a[1..] + b);
      ConcatAssociates(a[0].data, DataOf(a[1..]), DataOf(b));
    }
  }

  lemma ConcatAssociates(x: seq<Byte>, y: seq<Byte>, z: seq<Byte>)
    ensures (x + y) + z == x + (y + z)
  {}

  /** In a sorted duplicate-free list the largest index stands last. */
  lemma LargestIsLast(s: seq<Chunk>, top: nat)
    requires SortedBy(s, ByIndex) && UniqueIndices(s) && top in Indices(s)
    requires forall c :: c in s ==> c.index <= top
    ensures s != [] && s[|s| - 1].index == top
    ensures forall c :: c in s[..|s| - 1] ==> c.index < top
    ensures Indices(s[..|s| - 1]) == Indices(s) - {top}
  {}

  lemma {:induction false} SortedData(s: seq<Chunk>, raw: seq<seq<Byte>>, relevance: Relevance, n: nat)
    requires SortedBy(s, ByIndex) && UniqueIndices(s) && AllFaithful(raw, relevance, s)
    requires n <= |raw| && forall c :: c in s ==> c.index < n
    ensures DataOf(s) == Holding(raw, Indices(s), n)
    decreases n
  {
    if n == 0 {
      EmptyIffNoMember(s);
    } else if n - 1 in Indices(s) {
      LargestIsLast(s, n - 1);
      var front, last := s[..|s| - 1], s[|s| - 1];
      assert s == front + [last] && last in s && forall x :: x in front ==> x in s;
      SortedData(front, raw, relevance, n - 1);
      DataOfConcat(front, [last]);
      assert DataOf([last]) == last.data == raw[n - 1];
      HoldingAgrees(raw, Indices(front), Indices(s), n - 1);
    } else {
      forall c | c in s ensures c.index < n - 1 {
        assert c.index in Indices(s);
      }
      SortedData(s, raw, relevance, n - 1);
    }
  }

  lemma {:induction false} HoldingAgrees(raw: seq<seq<Byte>>, a: set<nat>, b: set<nat>, n: nat)
    requires n <= |raw| && forall i :: 0 <= i < n ==> (i in a <==> i in b)
    ensures Holding(raw, a, n) == Holding(raw, b, n)
  {
    if n > 0 { HoldingAgrees(raw, a, b, n - 1); }
  }

  lemma {:induction false} HoldingAll(raw: seq<seq<Byte>>, held: set<nat>, n: nat)
    requires n <= |raw| && forall i :: 0 <= i < n ==> i in held
    ensures Holding(raw, held, n) == Concat(raw[..n])
  {
    if n > 0 {
      HoldingAll(raw, held, n - 1);
      ConcatSnoc(raw[..n - 1], raw[n - 1]);
      assert raw[..n] == raw[..n - 1] + [raw[n - 1]];
    }
  }

  lemma {:induction false} ConcatSnoc(a: seq<seq<Byte>>, x: seq<Byte>)
    ensures Concat(a + [x]) == Concat(a) + x
  {
    if a != [] {
      ConcatSnoc(a[1..], x);
      assert (a + [x])[1..] == a[1..] + [x];
    } else {
      assert a + [x] == [x] && [x][1..] == [];
    }
  }

  lemma {:induction false} DataSize(chunks: seq<Chunk>)
    ensures |DataOf(chunks)| == SizeSum(chunks)
  {
    if chunks != [] { DataSize(chunks[1..]); }
  }

  /** The invariant of the receiver's payload against the sender's data. */
  ghost predicate Consistent(raw: seq<seq<Byte>>, relevance: Relevance, diff: ContextDiff) {
    && UniqueIndices(diff.chunks) && AllFaithful(raw, relevance, diff.chunks)
    && diff.compressedSize == SizeSum(diff.chunks)
  }

  /** A consistent payload reconstructs exactly the held slices, in order, and reports their size. */
  lemma Reconstruction(raw: seq<seq<Byte>>, relevance: Relevance, diff: ContextDiff)
    requires Consistent(raw, relevance, diff)
    ensures ApplyDiff(diff) == Holding(raw, Indices(diff.chunks), |raw|)
    ensures |ApplyDiff(diff)| == diff.compressedSize
  {
    var s := StableSort(diff.chunks, ByIndex);
    RelevanceIsOrder();
    SortSorts(diff.chunks, ByIndex);
    SortPermutes(diff.chunks, ByIndex);
    SortKeepsKeys(diff.chunks, ByIndex, IndexKey);
    SortKeepsSize(diff.chunks, ByIndex);
    DataSize(s);
    SortedData(s, raw, relevance, |raw|);
    assert Indices(s) == Indices(diff.chunks);
  }

  /** Once every index is held, the original context is back. */
  lemma FullReconstruction(data: seq<Byte>, size: nat, relevance: Relevance, diff: ContextDiff)
    requires size > 0 && Consistent(Split(data, size), relevance, diff)
    requires forall i :: 0 <= i < |Split(data, size)| ==> i in Indices(diff.chunks)
    ensures ApplyDiff(diff) == data
  {
    var raw := Split(data, size);
    Reconstruction(raw, relevance, diff);
    HoldingAll(raw, Indices(diff.chunks), |raw|);
    assert raw[..|raw|] == raw;
  }

  // -------------------------------------------------------------- merging

  /** The chunks of `additional` whose index was not held before the call. */
  function Fresh(additional: seq<Chunk>, existing: set<nat>): (r: seq<Chunk>)
    ensures forall c :: c in r <==> c in additional && c.index !in existing
  {
    if additional == [] then []
    else (if additional[0].index in existing then [] else [additional[0]]) + Fresh(additional[1..], existing)
  }

  function HeldIndices(chunks: seq<Chunk>): (r: set<nat>)
    ensures r == Indices(chunks)
  {
    set c | c in chunks :: c.index
  }

  /** Push what is new, sort by relevance, recompute size and confidence. */
  function Merge(diff: ContextDiff, additional: seq<Chunk>): ContextDiff {
    var chunks := StableSort(diff.chunks + Fresh(additional, HeldIndices(diff.chunks)), MoreRelevant);
    ContextDiff(chunks, if chunks == [] then diff.confidence else Average(chunks), diff.originalSize, SizeSum(chunks))
  }

  /** The loop that pushes what was not held before the call. */
  method PushFresh(chunks0: seq<Chunk>, additional: seq<Chunk>, existing: set<nat>) returns (chunks: seq<Chunk>)
    ensures chunks == chunks0 + Fresh(additional, existing)
  {
    hide Fresh;
    chunks := chunks0;
    assert additional[0..] == additional;
    for i := 0 to |additional|
      invariant chunks + Fresh(additional[i..], existing) == chunks0 + Fresh(additional, existing)
    {
      FreshUnroll(additional, existing, i);
      if additional[i].index !in existing {
        chunks := chunks + [additional[i]];
      }
    }
    assert Fresh(additional[|additional|..], existing) == [] by { FreshEmpty(existing); }
  }

  lemma FreshUnroll(additional: seq<Chunk>, existing: set<nat>, i: nat)
    requires i < |additional|
    ensures Fresh(additional[i..], existing) ==
            (if additional[i].index in existing then [] else [additional[i]]) + Fresh(additional[i + 1..], existing)
  {}

  lemma FreshEmpty(existing: set<nat>)
    ensures Fresh([], existing) == []
  {}

  method MergeChunks(diff: ContextDiff, additional: seq<Chunk>) returns (merged: ContextDiff)
    ensures merged == Merge(diff, additional)
  {
    hide StableSort, Average, SizeSum, Fresh;
    var chunks := PushFresh(diff.chunks, additional, HeldIndices(diff.chunks));
    chunks := StableSort(chunks, MoreRelevant);
    merged := diff.(chunks := chunks, compressedSize := SizeSum(chunks));
    if |chunks| > 0 {
      merged := merged.(confidence := Average(chunks));
    }
  }

  /** A supply may repeat an index only if it was held already. */
  ghost predicate RepeatsAreHeld(additional: seq<Chunk>, held: set<nat>) {
    forall i, j :: 0 <= i < j < |additional| && additional[i].index == additional[j].index ==>
        additional[i].index in held
  }

  lemma UniqueCons(c: Chunk, rest: seq<Chunk>)
    ensures UniqueIndices([c] + rest) <==> UniqueIndices(rest) && forall x :: x in rest ==> x.index != c.index
  {
    var s := [c] + rest;
    if UniqueIndices(s) {
      forall i, j | 0 <= i < j < |rest| ensures rest[i].index != rest[j].index {
        assert s[i + 1] == rest[i] && s[j + 1] == rest[j];
        assert IndexKey(s[i + 1]) != IndexKey(s[j + 1]);
      }
      forall x | x in rest ensures x.index != c.index {
        var k :| 0 <= k < |rest| && rest[k] == x;
        assert IndexKey(s[0]) != IndexKey(s[k + 1]);
      }
    }
  }

  lemma RepeatsCons(c: Chunk, rest: seq<Chunk>, held: set<nat>)
    ensures RepeatsAreHeld([c] + rest, held) <==>
            RepeatsAreHeld(rest, held) && (c.index in held || forall x :: x in rest ==> x.index != c.index)
  {
    var s := [c] + rest;
    if RepeatsAreHeld(s, held) {
      forall i, j | 0 <= i < j < |rest| && rest[i].index == rest[j].index ensures rest[i].index in held {
        assert s[i + 1] == rest[i] && s[j + 1] == rest[j];
      }
      forall x | c.index !in held && x in rest ensures x.index != c.index {
        var k :| 0 <= k < |rest| && rest[k] == x;
        assert s[k + 1] == x && s[0] == c;
      }
    }
  }

  /** What is pushed is duplicate-free exactly when the supply repeats only indices that are held. */
  lemma {:induction false} FreshUniqueIff(additional: seq<Chunk>, held: set<nat>)
    ensures UniqueIndices(Fresh(additional, held)) <==> RepeatsAreHeld(additional, held)
  {
    if additional != [] {
      hide UniqueIndices, RepeatsAreHeld;
      var c, rest := additional[0], additional[1..];
      FreshUniqueIff(rest, held);
      assert additional == [c] + rest;
      RepeatsCons(c, rest, held);
      UniqueCons(c, Fresh(rest, held));
      assert c.index in held ==> Fresh(additional, held) == Fresh(rest, held);
    }
  }

  lemma JoinUnique(a: seq<Chunk>, b: seq<Chunk>)
    requires UniqueIndices(a) && forall c :: c in b ==> c.index !in Indices(a)
    ensures UniqueIndices(a + b) <==> UniqueIndices(b)
  {
    var s := a + b;
    if UniqueIndices(s) {
      forall i, j | 0 <= i < j < |b| ensures b[i].index != b[j].index {
        assert IndexKey(s[|a| + i]) != IndexKey(s[|a| + j]);
      }
    }
    forall i, j | 0 <= i < |a| && 0 <= j < |b| ensures a[i].index != b[j].index {
      assert b[j] in b && a[i] in a && IndexKey(a[i]) in Indices(a);
    }
  }

  /** Merging keeps indices unique exactly when the supply repeats only indices that were held before the call. */
  lemma MergeUniqueIff(diff: ContextDiff, additional: seq<Chunk>)
    requires UniqueIndices(diff.chunks)
    ensures UniqueIndices(Merge(diff, additional).chunks) <==> RepeatsAreHeld(additional, HeldIndices(diff.chunks))
  {
    hide UniqueIndices, RepeatsAreHeld, SizeSum, Average;
    var held := HeldIndices(diff.chunks);
    FreshUniqueIff(additional, held);
    JoinUnique(diff.chunks, Fresh(additional, held));
    UniqueAfterSort(diff.chunks + Fresh(additional, held), MoreRelevant);
  }

  lemma UniqueAfterSort(s: seq<Chunk>, le: (Chunk, Chunk) -> bool)
    ensures UniqueIndices(StableSort(s, le)) <==> UniqueIndices(s)
  {
    SortKeepsKeys(s, le, IndexKey);
  }

  /** The chunks after a merge are those held and those pushed. */
  lemma MergedMembers(diff: ContextDiff, additional: seq<Chunk>)
    ensures forall c :: c in Merge(diff, additional).chunks <==>
                        c in diff.chunks || (c in additional && c.index !in HeldIndices(diff.chunks))
  {
    SortPermutes(diff.chunks + Fresh(additional, HeldIndices(diff.chunks)), MoreRelevant);
    hide StableSort;
  }

  /** The merged chunks are most relevant first, and each is there as often as it was held or pushed. */
  lemma MergedOrder(diff: ContextDiff, additional: seq<Chunk>)
    ensures SortedBy(Merge(diff, additional).chunks, MoreRelevant)
    ensures multiset(Merge(diff, additional).chunks) ==
            multiset(diff.chunks) + multiset(Fresh(additional, HeldIndices(diff.chunks)))
  {
    RelevanceIsOrder();
    SortSorts(diff.chunks + Fresh(additional, HeldIndices(diff.chunks)), MoreRelevant);
    SortPermutes(diff.chunks + Fresh(additional, HeldIndices(diff.chunks)), MoreRelevant);
    hide StableSort;
  }

  /** A merge leaves the original size alone; its confidence is the balance of what is held, or what it was. */
  lemma MergedConfidence(diff: ContextDiff, additional: seq<Chunk>)
    ensures var m := Merge(diff, additional);
            && m.originalSize == diff.originalSize
            && (m.chunks == [] ==> m.confidence == diff.confidence)
            && (m.chunks != [] ==> Imbalance(m.chunks, m.confidence) == 0.0)
  {
    ConfidenceBalances(Merge(diff, additional).chunks, 0);
    hide StableSort, Imbalance, SizeSum, Average;
  }

  /** Whatever is supplied, a merge adds exactly the supplied indices. */
  lemma MergedIndices(diff: ContextDiff, additional: seq<Chunk>)
    ensures Indices(Merge(diff, additional).chunks) == Indices(diff.chunks) + Indices(additional)
  {
    var merged := Merge(diff, additional).chunks;
    MergedMembers(diff, additional);
    hide Merge;
    forall i ensures i in Indices(merged) <==> i in Indices(diff.chunks) + Indices(additional) {
      if i in Indices(diff.chunks) {
        var c :| c in diff.chunks && c.index == i;
        assert c in merged;
      } else if i in Indices(additional) {
        var c :| c in additional && c.index == i;
        assert c in merged;
      }
    }
  }

  /**
   * A merge keeps a payload consistent exactly when the supply repeats only indices that were held,
   * and every chunk of an index that was not held is the sender's own.
   */
  lemma MergeConsistent(raw: seq<seq<Byte>>, relevance: Relevance, diff: ContextDiff, additional: seq<Chunk>)
    requires Consistent(raw, relevance, diff)
    ensures Consistent(raw, relevance, Merge(diff, additional)) <==>
            && RepeatsAreHeld(additional, HeldIndices(diff.chunks))
            && forall c :: c in additional && c.index !in HeldIndices(diff.chunks) ==> Faithful(raw, relevance, c)
    ensures Indices(Merge(diff, additional).chunks) == Indices(diff.chunks) + Indices(additional)
  {
    MergeUniqueIff(diff, additional);
    MergedMembers(diff, additional);
    MergedIndices(diff, additional);
    assert Merge(diff, additional).compressedSize == SizeSum(Merge(diff, additional).chunks);
    hide Merge, UniqueIndices, RepeatsAreHeld, Faithful, SizeSum;
  }

  lemma UniqueRepeatsNothing(additional: seq<Chunk>, held: set<nat>)
    requires UniqueIndices(additional)
    ensures RepeatsAreHeld(additional, held)
  {
    forall i, j | 0 <= i < j < |additional| ensures additional[i].index != additional[j].index {
      assert IndexKey(additional[i]) != IndexKey(additional[j]);
    }
  }

  /** A supply that shows it: an index repeated in one supply, and not held before, is kept twice. */
  lemma RepeatedSupplyIsKeptTwice(c: Chunk)
    ensures Merge(ContextDiff([], 0.0, 0, 0), [c, c]).chunks == [c, c] && !UniqueIndices([c, c])
  {
    assert [c, c][1..] == [c] && [c][1..] == [];
    assert Fresh([c], {}) == [c] + Fresh([], {});
    assert Fresh([c, c], {}) == [c] + Fresh([c], {}) == [c, c];
    assert [] + [c, c] == [c, c];
    assert StableSort([c], MoreRelevant) == Insert(c, [], MoreRelevant) == [c];
    assert StableSort([c, c], MoreRelevant) == Insert(c, [c], MoreRelevant) == [c, c];
    assert HeldIndices([]) == {};
    assert IndexKey([c, c][0]) == IndexKey([c, c][1]);
  }
}
