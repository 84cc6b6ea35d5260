/** Splitting a context into chunks and extracting the most relevant ones. */
module Extraction {
  import opened Prelude
  import opened Products
  import opened Sequences

  datatype Chunk = Chunk(index: nat, data: seq<Byte>, relevance: real)

  datatype ContextError =
    | DimensionMismatch(expected: nat, got: nat)
    | ExtractionFailed
    | LowConfidence(confidence: real)

  datatype MscConfig = MscConfig(relevanceThreshold: real, maxChunks: nat, chunkSize: nat, dimensions: nat)

  /** A wire-format payload without its hash. */
  datatype ContextDiff = ContextDiff(chunks: seq<Chunk>, confidence: real, originalSize: nat, compressedSize: nat)

  /** Relevance of chunk data to the task: embeddings and similarity, uninterpreted. */
  type Relevance = seq<Byte> -> real

  // ---------------------------------------------------------------- chunks

  function Split(data: seq<Byte>, size: nat): (r: seq<seq<Byte>>)
    ensures size > 0 ==> Concat(r) == data
    ensures forall c :: c in r ==> 0 < |c| <= size
    decreases |data|
  {
    if data == [] || size == 0 then []
    else if |data| <= size then
      assert Concat([data]) == data + Concat([]);
      [data]
    else
      var rest := Split(data[size..], size);
      assert ([data[..size]] + rest)[1..] == rest;
      [data[..size]] + rest
  }

  function Concat(chunks: seq<seq<Byte>>): seq<Byte> {
    if chunks == [] then [] else chunks[0] + Concat(chunks[1..])
  }

  /** Up to `n` bytes from position `from`. */
  function Slice(data: seq<Byte>, from: nat, n: nat): seq<Byte>
    requires from <= |data|
  {
    if from + n <= |data| then data[from..from + n] else data[from..]
  }

  lemma SplitUnroll(data: seq<Byte>, size: nat)
    requires size > 0 && |data| > size
    ensures Split(data, size) == [data[..size]] + Split(data[size..], size)
  {}

  lemma SplitShort(data: seq<Byte>, size: nat)
    requires size > 0 && 0 < |data| <= size
    ensures Split(data, size) == [data]
  {}

  lemma ShiftSlice(data: seq<Byte>, size: nat, from: nat, n: nat)
    requires size <= |data| && from <= |data| - size
    ensures Slice(data[size..], from, n) == Slice(data, from + size, n)
  {}

  /** Chunk `i` is the slice of the data that starts at `i * size`, and all but the last are full. */
  lemma {:induction false} SplitSlices(data: seq<Byte>, size: nat, i: nat)
    requires size > 0 && i < |Split(data, size)|
    ensures i * size < |data| && Split(data, size)[i] == Slice(data, i * size, size)
    ensures i + 1 < |Split(data, size)| ==> |Split(data, size)[i]| == size
    decreases i
  {
    hide Split, Slice, Concat;
    if |data| == 0 {
      assert Split(data, size) == [] by { NothingToSplit(data, size); }
    } else if |data| <= size {
      SplitShort(data, size);
      SliceStart(data, size);
    } else {
      SplitUnroll(data, size);
      SliceStart(data, size);
      if i > 0 {
        SplitSlices(data[size..], size, i - 1);
        NextMultiple(i, size);
        ShiftSlice(data, size, (i - 1) * size, size);
      }
    }
  }

  lemma NextMultiple(i: nat, size: nat)
    requires i > 0
    ensures (i - 1) * size + size == i * size
  {}

  lemma SliceStart(data: seq<Byte>, size: nat)
    ensures Slice(data, 0, size) == if size <= |data| then data[..size] else data
  {}

  lemma NothingToSplit(data: seq<Byte>, size: nat)
    requires data == []
    ensures Split(data, size) == []
  {}

  // ------------------------------------------------------------ extraction

  function SizeSum(chunks: seq<Chunk>): nat {
    if chunks == [] then 0 else |chunks[0].data| + SizeSum(chunks[1..])
  }

  function ScoreSum(chunks: seq<Chunk>): real {
    if chunks == [] then 0.0 else chunks[0].relevance + ScoreSum(chunks[1..])
  }

  function Average(chunks: seq<Chunk>): real
    requires chunks != []
  {
    ScoreSum(chunks) / |chunks| as real
  }

  predicate MoreRelevant(a: Chunk, b: Chunk) {
    a.relevance >= b.relevance
  }

  function ChunkOf(raw: seq<seq<Byte>>, relevance: Relevance, i: nat): Chunk
    requires i < |raw|
  {
    Chunk(i, raw[i], relevance(raw[i]))
  }

  /** Chunks that score above the threshold, in data order. */
  function Scored(raw: seq<seq<Byte>>, relevance: Relevance, threshold: real, n: nat): (r: seq<Chunk>)
    requires n <= |raw|
    ensures forall c :: c in r <==> c.index < n && c == ChunkOf(raw, relevance, c.index) && c.relevance > threshold
    ensures forall i, j :: 0 <= i < j < |r| ==> r[i].index < r[j].index
  {
    if n == 0 then []
    else
      var before := Scored(raw, relevance, threshold, n - 1);
      assert forall i :: 0 <= i < |before| ==> before[i] in before;
      if relevance(raw[n - 1]) > threshold then before + [ChunkOf(raw, relevance, n - 1)] else before
  }

  function Budgeted(chunks: seq<Chunk>, maxChunks: nat): seq<Chunk> {
    if maxChunks > 0 && |chunks| > maxChunks then chunks[..maxChunks] else chunks
  }

  function Selected(data: seq<Byte>, relevance: Relevance, config: MscConfig): seq<Chunk> {
    var raw := Split(data, config.chunkSize);
    Budgeted(StableSort(Scored(raw, relevance, config.relevanceThreshold, |raw|), MoreRelevant), config.maxChunks)
  }

  function Packed(chunks: seq<Chunk>, originalSize: nat): ContextDiff {
    ContextDiff(chunks, if chunks == [] then 0.0 else Average(chunks), originalSize, SizeSum(chunks))
  }

  /** Extraction followed by the conversion to a diff. No surviving chunk is not an error. */
  function Compress(data: seq<Byte>, relevance: Relevance, taskDimensions: nat, config: MscConfig)
    : Result<ContextDiff, ContextError>
  {
    if taskDimensions != config.dimensions then Err(DimensionMismatch(config.dimensions, taskDimensions))
    else if Split(data, config.chunkSize) == [] then Err(ExtractionFailed)
    else Ok(Packed(Selected(data, relevance, config), |data|))
  }

  method ScoreChunks(raw: seq<seq<Byte>>, relevance: Relevance, threshold: real) returns (scored: seq<Chunk>)
    ensures scored == Scored(raw, relevance, threshold, |raw|)
  {
    scored := [];
    for i := 0 to |raw|
      invariant scored == Scored(raw, relevance, threshold, i)
    {
      var similarity := relevance(raw[i]);
      if similarity > threshold {
        scored := scored + [Chunk(i, raw[i], similarity)];
      }
    }
  }

  /** The scoring loop, the sort and the truncation. */
  method ExtractMsc(data: seq<Byte>, relevance: Relevance, taskDimensions: nat, config: MscConfig)
    returns (r: Result<ContextDiff, ContextError>)
    ensures r == Compress(data, relevance, taskDimensions, config)
  {
    if taskDimensions != config.dimensions { return Err(DimensionMismatch(config.dimensions, taskDimensions)); }
    hide Split, StableSort, Average, SizeSum, Scored;
    var raw := Split(data, config.chunkSize);
    if |raw| == 0 { return Err(ExtractionFailed); }
    var scored := ScoreChunks(raw, relevance, config.relevanceThreshold);
    scored := StableSort(scored, MoreRelevant);
    if config.maxChunks > 0 && |scored| > config.maxChunks {
      scored := scored[..config.maxChunks];
    }
    r := Ok(Packed(scored, |data|));
  }

  // ------------------------------------------------------------ properties

  /** The chunk is the one the sender would cut at its index. */
  ghost predicate Faithful(raw: seq<seq<Byte>>, relevance: Relevance, c: Chunk) {
    c.index < |raw| && c == ChunkOf(raw, relevance, c.index)
  }

  ghost predicate AllFaithful(raw: seq<seq<Byte>>, relevance: Relevance, chunks: seq<Chunk>) {
    forall c :: c in chunks ==> Faithful(raw, relevance, c)
  }

  function IndexKey(c: Chunk): nat {
    c.index
  }

  ghost predicate UniqueIndices(chunks: seq<Chunk>) {
    KeysDistinct(chunks, IndexKey)
  }

  lemma RelevanceIsOrder()
    ensures TotalPreorder(MoreRelevant) && TotalPreorder(ByIndex)
  {}

  predicate ByIndex(a: Chunk, b: Chunk) {
    a.index <= b.index
  }

  lemma {:induction false} InsertSize(x: Chunk, s: seq<Chunk>, le: (Chunk, Chunk) -> bool)
    ensures SizeSum(Insert(x, s, le)) == |x.data| + SizeSum(s)
  {
    if s == [] || le(x, s[0]) {
      assert ([x] + s)[1..] == s;
    } else {
      InsertSize(x, s[1..], le);
      assert ([s[0]] + Insert(x, s[1..], le))[1..] == Insert(x, s[1..], le);
    }
  }

  /** Sorting moves chunks but not bytes. */
  lemma {:induction false} SortKeepsSize(s: seq<Chunk>, le: (Chunk, Chunk) -> bool)
    ensures SizeSum(StableSort(s, le)) == SizeSum(s)
  {
    if s != [] {
      SortKeepsSize(s[1..], le);
      InsertSize(s[0], StableSort(s[1..], le), le);
    }
  }

  lemma {:induction false} ScoresAbove(chunks: seq<Chunk>, threshold: real)
    requires forall c :: c in chunks ==> c.relevance > threshold
    ensures chunks != [] ==> ScoreSum(chunks) > Times(threshold, |chunks| as real)
    ensures chunks == [] ==> ScoreSum(chunks) == 0.0
  {
    hide Times;
    if chunks == [] {
      TimesZero(threshold);
    } else {
      ScoresAbove(chunks[1..], threshold);
      assert chunks[0] in chunks;
      TimesZero(threshold);
      TimesOne(threshold);
      TimesAdds(threshold, |chunks[1..]| as real, 1.0);
    }
  }

  lemma SortedScores(raw: seq<seq<Byte>>, relevance: Relevance, threshold: real)
    ensures var sorted := StableSort(Scored(raw, relevance, threshold, |raw|), MoreRelevant);
            && SortedBy(sorted, MoreRelevant) && UniqueIndices(sorted)
            && forall c :: c in sorted <==> Faithful(raw, relevance, c) && c.relevance > threshold
  {
    var scored := Scored(raw, relevance, threshold, |raw|);
    hide Scored;
    RelevanceIsOrder();
    SortSorts(scored, MoreRelevant);
    SortPermutes(scored, MoreRelevant);
    SortKeepsKeys(scored, MoreRelevant, IndexKey);
  }

  /** Extraction selects faithful chunks above the threshold, each once, best first, within budget. */
  lemma SelectionIsSound(data: seq<Byte>, relevance: Relevance, config: MscConfig)
    ensures AllFaithful(Split(data, config.chunkSize), relevance, Selected(data, relevance, config))
    ensures UniqueIndices(Selected(data, relevance, config))
        && SortedBy(Selected(data, relevance, config), MoreRelevant)
    ensures forall c :: c in Selected(data, relevance, config) ==> c.relevance > config.relevanceThreshold
    ensures config.maxChunks > 0 ==> |Selected(data, relevance, config)| <= config.maxChunks
  {
    hide Split, StableSort, Scored;
    var raw := Split(data, config.chunkSize);
    SortedScores(raw, relevance, config.relevanceThreshold);
    var sorted := StableSort(Scored(raw, relevance, config.relevanceThreshold, |raw|), MoreRelevant);
    var s := Selected(data, relevance, config);
    assert forall c :: c in s ==> c in sorted;
  }

  /** When a qualifying chunk is left out, the budget is full of chunks at least as relevant. */
  lemma SelectionIsBest(data: seq<Byte>, relevance: Relevance, config: MscConfig, c: Chunk)
    requires Faithful(Split(data, config.chunkSize), relevance, c) && c.relevance > config.relevanceThreshold
    requires c !in Selected(data, relevance, config)
    ensures |Selected(data, relevance, config)| == config.maxChunks
    ensures forall x :: x in Selected(data, relevance, config) ==> x.relevance >= c.relevance
  {
    hide Split, StableSort, Scored, Faithful;
    var raw := Split(data, config.chunkSize);
    SortedScores(raw, relevance, config.relevanceThreshold);
    var sorted := StableSort(Scored(raw, relevance, config.relevanceThreshold, |raw|), MoreRelevant);
    assert c in sorted;
    var k :| 0 <= k < |sorted| && sorted[k] == c;
    var s := Selected(data, relevance, config);
    assert |s| <= k;
    forall x | x in s ensures x.relevance >= c.relevance {
      var j :| 0 <= j < |s| && s[j] == x;
      assert MoreRelevant(sorted[j], sorted[k]);
    }
  }

  /** A non-empty selection is more confident than the threshold. */
  lemma ConfidenceAboveThreshold(data: seq<Byte>, relevance: Relevance, config: MscConfig)
    requires Selected(data, relevance, config) != []
    ensures Packed(Selected(data, relevance, config), |data|).confidence > config.relevanceThreshold
  {
    hide Times, Selected, ScoreSum, SizeSum, SortedBy, UniqueIndices, AllFaithful, Split;
    var s := Selected(data, relevance, config);
    SelectionIsSound(data, relevance, config);
    ScoresAbove(s, config.relevanceThreshold);
    AverageAbove(ScoreSum(s), |s| as real, config.relevanceThreshold);
  }

  lemma AverageAbove(sum: real, n: real, threshold: real)
    requires n > 0.0 && sum > Times(threshold, n)
    ensures sum / n > threshold
  {
    hide Times;
    QuotientTimes(sum, n);
    TimesCommutes(n, threshold);
    if sum / n <= threshold { TimesMonotone(n, sum / n, threshold); }
  }

  lemma {:induction false} ScoreSumSplits(a: seq<Chunk>, b: seq<Chunk>)
    ensures ScoreSum(a + b) == ScoreSum(a) + ScoreSum(b)
  {
    if a == [] {
      assert a + b == b;
    } else {
      ScoreSumSplits(a[1..], b);
      assert (a + b)[1..] == a[1..] + b;
    }
  }

  /** The sum of the chunks' distances from a value. */
  ghost function Imbalance(chunks: seq<Chunk>, x: real): real {
    if chunks == [] then 0.0
    else Imbalance(chunks[..|chunks| - 1], x) + (chunks[|chunks| - 1].relevance - x)
  }

  lemma {:induction false} ImbalanceIs(chunks: seq<Chunk>, x: real)
    ensures Imbalance(chunks, x) == ScoreSum(chunks) - Times(x, |chunks| as real)
  {
    hide Times;
    if chunks == [] {
      TimesZero(x);
    } else {
      var front, last := chunks[..|chunks| - 1], chunks[|chunks| - 1];
      ImbalanceIs(front, x);
      assert chunks == front + [last];
      ScoreSumSplits(front, [last]);
      assert [last][1..] == [] && ScoreSum([last]) == last.relevance + ScoreSum([]);
      TimesOne(x);
      TimesAdds(x, |front| as real, 1.0);
    }
  }

  /** The confidence of a non-empty payload is where its relevances balance; of an empty one it is 0. */
  lemma ConfidenceBalances(chunks: seq<Chunk>, originalSize: nat)
    ensures chunks == [] ==> Packed(chunks, originalSize).confidence == 0.0
    ensures chunks != [] ==> Imbalance(chunks, Packed(chunks, originalSize).confidence) == 0.0
    ensures Packed(chunks, originalSize).originalSize == originalSize
  {
    hide Times, Imbalance, ScoreSum;
    if chunks != [] {
      var x := Average(chunks);
      ImbalanceIs(chunks, x);
      QuotientTimes(ScoreSum(chunks), |chunks| as real);
      TimesCommutes(x, |chunks| as real);
    }
  }

  // ------------------------------------------------- when extraction fails

  /** Extraction fails exactly on a dimension mismatch or when there is nothing to split, and says which. */
  lemma ExtractionFailsIff(data: seq<Byte>, relevance: Relevance, taskDimensions: nat, config: MscConfig)
    ensures var r := Compress(data, relevance, taskDimensions, config);
            && (r.Ok? <==> taskDimensions == config.dimensions && data != [] && config.chunkSize > 0)
            && (r.Err? ==> r.error == if taskDimensions != config.dimensions
                                      then DimensionMismatch(config.dimensions, taskDimensions) else ExtractionFailed)
            && (r.Ok? ==> r.value == Packed(Selected(data, relevance, config), |data|))
  {
    SplitsIff(data, config.chunkSize);
    hide Split, Selected;
  }

  lemma SplitsIff(data: seq<Byte>, size: nat)
    ensures Split(data, size) != [] <==> data != [] && size > 0
  {}

  ghost predicate SomeRelevant(data: seq<Byte>, relevance: Relevance, config: MscConfig) {
    exists c :: Faithful(Split(data, config.chunkSize), relevance, c) && c.relevance > config.relevanceThreshold
  }

  /** The selection is empty exactly when no chunk scores above the threshold. */
  lemma SelectionEmptyIff(data: seq<Byte>, relevance: Relevance, config: MscConfig)
    ensures Selected(data, relevance, config) == [] <==> !SomeRelevant(data, relevance, config)
  {
    hide Split, StableSort, Scored;
    var raw := Split(data, config.chunkSize);
    SortedScores(raw, relevance, config.relevanceThreshold);
    var sorted := StableSort(Scored(raw, relevance, config.relevanceThreshold, |raw|), MoreRelevant);
    if sorted != [] { assert sorted[0] in sorted; }
  }

  /**
   * The documented error for a context without a surviving chunk never occurs: extraction returns an empty
   * selection.
   */
  lemma NothingRelevantIsNoError(data: seq<Byte>, relevance: Relevance, config: MscConfig)
    requires data != [] && config.chunkSize > 0
    ensures (Compress(data, relevance, config.dimensions, config).Ok? &&
             Compress(data, relevance, config.dimensions, config).value == ContextDiff([], 0.0, |data|, 0))
            <==> !SomeRelevant(data, relevance, config)
  {
    hide Split, Selected, SomeRelevant;
    ExtractionFailsIff(data, relevance, config.dimensions, config);
    SelectionEmptyIff(data, relevance, config);
  }

  /** One such input. */
  lemma NothingRelevantExample() returns (data: seq<Byte>, relevance: Relevance, config: MscConfig)
    ensures data == [0] && config == MscConfig(0.5, 0, 1, 0) && !SomeRelevant(data, relevance, config)
    ensures Compress(data, relevance, 0, config) == Ok(ContextDiff([], 0.0, 1, 0))
  {
    data, relevance, config := [0], (bytes: seq<Byte>) => 0.0, MscConfig(0.5, 0, 1, 0);
    assert !SomeRelevant(data, relevance, config);
    NothingRelevantIsNoError(data, relevance, config);
  }
}
