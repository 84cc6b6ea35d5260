/** The refinement session: a receiver that asks for half of what it lacks, and a provider that supplies it. */
module Session {
  import opened Prelude
  import opened Sequences
  import opened Extraction
  import opened Adaptive

  // ------------------------------------------------------------- provider

  datatype Provider = Provider(data: seq<Byte>, config: MscConfig, taskDimensions: nat, relevance: Relevance) {
    function Raw(): seq<seq<Byte>> {
      Split(data, config.chunkSize)
    }

    function TotalChunks(): nat {
      |Raw()|
    }

    function InitialDiff(): Result<ContextDiff, ContextError> {
      Compress(data, relevance, taskDimensions, config)
    }

    /** Requested chunks in request order; an index out of range is dropped. */
    function HandleRequest(indices: seq<nat>): seq<Chunk> {
      if indices == [] then []
      else (if indices[0] < |Raw()| then [ChunkOf(Raw(), relevance, indices[0])] else []) + HandleRequest(indices[1..])
    }
  }

  lemma {:induction false} SupplyInOrder(p: Provider, indices: seq<nat>)
    requires forall k :: 0 <= k < |indices| ==> 0 <= indices[k] < |p.Raw()|
    ensures |p.HandleRequest(indices)| == |indices|
    ensures forall k :: 0 <= k < |indices| ==> p.HandleRequest(indices)[k] == ChunkOf(p.Raw(), p.relevance, indices[k])
  {
    if indices != [] {
      SupplyInOrder(p, indices[1..]);
      var rest := p.HandleRequest(indices[1..]);
      assert p.HandleRequest(indices) == [ChunkOf(p.Raw(), p.relevance, indices[0])] + rest;
      forall k | 0 < k < |indices|
        ensures p.HandleRequest(indices)[k] == ChunkOf(p.Raw(), p.relevance, indices[k])
      {
        assert rest[k - 1] == ChunkOf(p.Raw(), p.relevance, indices[1..][k - 1]);
      }
    }
  }

  /** Indices out of range are dropped, and nothing else. */
  lemma {:induction false} OutOfRangeIsDropped(p: Provider, indices: seq<nat>)
    ensures p.HandleRequest(indices) == p.HandleRequest(Filter(indices, (i: nat) => i < p.TotalChunks()))
  {
    if indices != [] {
      OutOfRangeIsDropped(p, indices[1..]);
      hide Split;
      var kept := Filter(indices[1..], (i: nat) => i < p.TotalChunks());
      assert ([indices[0]] + kept)[1..] == kept;
    }
  }

  /** A duplicate-free request in range is supplied exactly, with faithful chunks. */
  lemma SupplyIsExact(p: Provider, indices: seq<nat>)
    requires Distinct(indices) && forall k :: 0 <= k < |indices| ==> 0 <= indices[k] < |p.Raw()|
    ensures |p.HandleRequest(indices)| == |indices|
    ensures forall k :: 0 <= k < |indices| ==> p.HandleRequest(indices)[k] == ChunkOf(p.Raw(), p.relevance, indices[k])
    ensures UniqueIndices(p.HandleRequest(indices)) && AllFaithful(p.Raw(), p.relevance, p.HandleRequest(indices))
    ensures Indices(p.HandleRequest(indices)) == set i | i in indices
  {
    SupplyInOrder(p, indices);
    var s := p.HandleRequest(indices);
    forall i | i in indices ensures i in Indices(s) {
      var k :| 0 <= k < |indices| && indices[k] == i;
      assert s[k] in s && IndexKey(s[k]) == i;
    }
  }

  // ------------------------------------------------------------- receiver

  datatype Manager = Manager(threshold: real, rounds: nat, maxRounds: nat, received: set<nat>)

  datatype Verdict = Sufficient | Request(indices: seq<nat>) | TooLow(confidence: real)

  /** Indices below `total` that are not in `received`, ascending. */
  function Missing(received: set<nat>, total: nat): (r: seq<nat>)
    ensures forall i: nat :: i in r <==> i < total && i !in received
    ensures forall a, b :: 0 <= a < b < |r| ==> r[a] < r[b]
  {
    if total == 0 then []
    else
      var before := Missing(received, total - 1);
      assert forall k :: 0 <= k < |before| ==> before[k] in before;
      if total - 1 in received then before else before + [total - 1]
  }

  /** `div_ceil(2).max(1)` */
  function BatchSize(needed: nat): nat {
    if (needed + 1) / 2 >= 1 then (needed + 1) / 2 else 1
  }

  function Evaluate(m: Manager, diff: ContextDiff, total: nat): (Manager, Verdict) {
    var seen := m.(received := m.received + HeldIndices(diff.chunks));
    if diff.confidence >= m.threshold then (seen, Sufficient)
    else if m.rounds >= m.maxRounds then (seen, TooLow(diff.confidence))
    else
      var next := seen.(rounds := m.rounds + 1);
      var needed := Missing(next.received, total);
      if needed == [] then (next, TooLow(diff.confidence))
      else (next, Request(needed[..BatchSize(|needed|)]))
  }

  ghost predicate AllReceived(received: set<nat>, total: nat) {
    forall i: nat :: i < total ==> i in received
  }

  lemma MissingIff(received: set<nat>, total: nat)
    ensures Missing(received, total) == [] <==> AllReceived(received, total)
  {
    hide Missing;
    EmptyIffNoMember(Missing(received, total));
  }

  /** The request names the lowest missing indices, ascending: half of the missing ones, rounded up. */
  ghost predicate Asks(received: set<nat>, total: nat, asked: seq<nat>) {
    && |asked| == (|Range(total) - received| + 1) / 2
    && (forall a, b :: 0 <= a < b < |asked| ==> asked[a] < asked[b])
    && (forall i :: i in asked ==> i < total && i !in received)
    && forall i: nat, a :: i < total && i !in received && i !in asked && a in asked ==> a < i
  }

  lemma LowestTaken(needed: seq<nat>, n: nat, i: nat, a: nat)
    requires n <= |needed| && forall k, j :: 0 <= k < j < |needed| ==> needed[k] < needed[j]
    requires i in needed && i !in needed[..n] && a in needed[..n]
    ensures a < i
  {
    var k :| 0 <= k < |needed| && needed[k] == i;
    var j :| 0 <= j < |needed[..n]| && needed[..n][j] == a;
    assert forall m :: 0 <= m < n ==> needed[..n][m] == needed[m];
    assert k >= n;
  }

  lemma FirstHalf(received: set<nat>, total: nat)
    requires Missing(received, total) != []
    ensures var needed := Missing(received, total); Asks(received, total, needed[..BatchSize(|needed|)])
  {
    MissingCount(received, total);
    hide Missing, Range;
    var needed := Missing(received, total);
    var n := BatchSize(|needed|);
    var asked := needed[..n];
    forall i | i in asked ensures i < total && i !in received { assert i in needed; }
    forall i: nat, a | i < total && i !in received && i !in asked && a in asked ensures a < i {
      LowestTaken(needed, n, i, a);
    }
  }

  class AdaptiveContextManager {
    var confidenceThreshold: real
    var refinementRounds: nat
    var maxRounds: nat
    var receivedIndices: set<nat>

    function Snapshot(): Manager
      reads this
    {
      Manager(confidenceThreshold, refinementRounds, maxRounds, receivedIndices)
    }

    constructor (threshold: real, maxRounds: nat)
      ensures Snapshot() == Manager(threshold, 0, maxRounds, {})
    {
      this.confidenceThreshold, this.refinementRounds, this.maxRounds := threshold, 0, maxRounds;
      this.receivedIndices := {};
    }

    method EvaluateDiff(diff: ContextDiff, totalChunks: nat) returns (v: Verdict)
      modifies this
      ensures (Snapshot(), v) == Evaluate(old(Snapshot()), diff, totalChunks)
      ensures confidenceThreshold == old(confidenceThreshold) && maxRounds == old(maxRounds)
      ensures receivedIndices == old(receivedIndices) + Indices(diff.chunks)
      ensures v.Sufficient? <==> diff.confidence >= confidenceThreshold
      ensures v.TooLow? <==> diff.confidence < confidenceThreshold &&
                             (old(refinementRounds) >= maxRounds || AllReceived(receivedIndices, totalChunks))
      ensures v.Request? <==> diff.confidence < confidenceThreshold && old(refinementRounds) < maxRounds &&
                              !AllReceived(receivedIndices, totalChunks)
      ensures v.Request? ==> Asks(receivedIndices, totalChunks, v.indices)
      ensures refinementRounds == if diff.confidence < confidenceThreshold && old(refinementRounds) < maxRounds
                                  then old(refinementRounds) + 1 else old(refinementRounds)
    {
      hide Missing, HeldIndices, Asks, Range;
      Record(diff.chunks);
      MissingIff(receivedIndices, totalChunks);
      if diff.confidence >= confidenceThreshold { return Sufficient; }
      if refinementRounds >= maxRounds { return TooLow(diff.confidence); }
      refinementRounds := refinementRounds + 1;
      var needed := Missing(receivedIndices, totalChunks);
      if |needed| == 0 { return TooLow(diff.confidence); }
      v := Request(needed[..BatchSize(|needed|)]);
      FirstHalf(receivedIndices, totalChunks);
    }

    /** Record the chunk indices received. */
    method Record(chunks: seq<Chunk>)
      modifies this`receivedIndices
      ensures receivedIndices == old(receivedIndices) + HeldIndices(chunks)
    {
      ghost var before := receivedIndices;
      for i := 0 to |chunks|
        invariant receivedIndices == before + HeldIndices(chunks[..i])
      {
        assert chunks[..i + 1] == chunks[..i] + [chunks[i]];
        receivedIndices := receivedIndices + {chunks[i].index};
      }
      assert chunks[..|chunks|] == chunks;
    }

    method Reset()
      modifies this
      ensures Snapshot() == old(Snapshot()).(rounds := 0, received := {})
    {
      refinementRounds := 0;
      receivedIndices := {};
    }
  }

  // -------------------------------------------------------------- sessions

  datatype State = State(manager: Manager, diff: ContextDiff)

  /** One answered round, or nothing when the evaluation ends the session. */
  function Advance(p: Provider, s: State): Option<State> {
    var (m, v) := Evaluate(s.manager, s.diff, p.TotalChunks());
    if v.Request? then Some(State(m, Merge(s.diff, p.HandleRequest(v.indices)))) else None
  }

  function After(p: Provider, s: State, rounds: nat): Option<State> {
    if rounds == 0 then Some(s)
    else match After(p, s, rounds - 1)
         case None => None
         case Some(t) => Advance(p, t)
  }

  ghost predicate Inv(p: Provider, s: State) {
    Consistent(p.Raw(), p.relevance, s.diff) && s.manager.received <= Indices(s.diff.chunks)
  }

  /** How many chunks the receiver still lacks. */
  function Lacking(p: Provider, s: State): nat {
    |Missing(HeldIndices(s.diff.chunks), p.TotalChunks())|
  }

  /** A fresh receiver with the provider's first payload satisfies the invariant. */
  lemma SessionStarts(p: Provider, threshold: real, maxRounds: nat)
    requires p.InitialDiff().Ok?
    ensures Inv(p, State(Manager(threshold, 0, maxRounds, {}), p.InitialDiff().value))
  {
    SelectionIsSound(p.data, p.relevance, p.config);
  }

  lemma MissingCount(received: set<nat>, total: nat)
    ensures |Missing(received, total)| == |Range(total) - received|
  {
    hide Missing, Range;
    var l := Missing(received, total);
    DistinctCardinality(l);
    SameMembers((set x | x in l), Range(total) - received);
  }

  lemma SameMembers(a: set<nat>, b: set<nat>)
    requires forall x: nat :: x in a <==> x in b
    ensures a == b
  {}

  /** Half of what is missing, rounded up, is asked for: distinct, in range and not held. */
  lemma RequestIsSound(m: Manager, diff: ContextDiff, total: nat)
    requires m.received <= Indices(diff.chunks) && Evaluate(m, diff, total).1.Request?
    ensures var lacking, asked := |Missing(Indices(diff.chunks), total)|, Evaluate(m, diff, total).1.indices;
            && |asked| == (lacking + 1) / 2 > 0 && Distinct(asked)
            && forall k :: 0 <= k < |asked| ==> asked[k] < total && asked[k] !in Indices(diff.chunks)
    ensures Evaluate(m, diff, total).0.received == Indices(diff.chunks)
  {
    var held := Indices(diff.chunks);
    assert m.received + HeldIndices(diff.chunks) == held;
    var needed := Missing(held, total);
    var asked := Evaluate(m, diff, total).1.indices;
    assert asked == needed[..BatchSize(|needed|)];
    forall k | 0 <= k < |asked| ensures asked[k] in needed { assert asked[k] == needed[k]; }
  }

  lemma TakingHalf(held: set<nat>, asked: seq<nat>, total: nat)
    requires Distinct(asked) && (forall k :: 0 <= k < |asked| ==> asked[k] < total && asked[k] !in held)
    requires |asked| == (|Missing(held, total)| + 1) / 2
    ensures |Missing(held + (set i | i in asked), total)| == |Missing(held, total)| / 2
  {
    hide Missing, Range, Distinct;
    var taken := set i | i in asked;
    assert |taken| == |asked| by { DistinctCardinality(asked); }
    MissingCount(held, total);
    MissingCount(held + taken, total);
    var open := Range(total) - held;
    assert taken <= open;
    assert Range(total) - (held + taken) == open - taken;
    assert |open - taken| == |open| - |taken|;
  }

  /** One round keeps the invariant, uses one round of the limit and halves what is missing, rounding down. */
  lemma RoundHalves(p: Provider, s: State)
    requires Inv(p, s) && Advance(p, s).Some?
    ensures Inv(p, Advance(p, s).value)
    ensures Lacking(p, Advance(p, s).value) == Lacking(p, s) / 2
    ensures s.manager.rounds < s.manager.maxRounds
    ensures Advance(p, s).value.manager.rounds == s.manager.rounds + 1
    ensures Advance(p, s).value.manager.maxRounds == s.manager.maxRounds
  {
    AdvanceMerges(p, s);
    hide Missing, Consistent, Merge, Indices, HeldIndices, Advance, Evaluate, Distinct;
    var total := p.TotalChunks();
    var asked := Evaluate(s.manager, s.diff, total).1.indices;
    RequestIsSound(s.manager, s.diff, total);
    SupplyIsExact(p, asked);
    var supply := p.HandleRequest(asked);
    UniqueRepeatsNothing(supply, HeldIndices(s.diff.chunks));
    MergeConsistent(p.Raw(), p.relevance, s.diff, supply);
    TakingHalf(Indices(s.diff.chunks), asked, total);
    assert HeldIndices(Merge(s.diff, supply).chunks) == Indices(s.diff.chunks) + (set i | i in asked);
  }

  /** What an answered round leaves: the merged payload, and the manager after its evaluation. */
  lemma AdvanceMerges(p: Provider, s: State)
    requires Advance(p, s).Some?
    ensures var (m, v) := Evaluate(s.manager, s.diff, p.TotalChunks());
            && v.Request? && Advance(p, s).value == State(m, Merge(s.diff, p.HandleRequest(v.indices)))
            && s.manager.rounds < s.manager.maxRounds
            && m.maxRounds == s.manager.maxRounds && m.rounds == s.manager.rounds + 1
  {}

  function Pow2(r: nat): (n: nat)
    ensures n >= 1
  {
    if r == 0 then 1 else 2 * Pow2(r - 1)
  }

  lemma HalveAgain(m: nat, p: nat)
    requires p >= 1
    ensures (m / p) / 2 == m / (2 * p)
  {
    var q, r := m / p, m % p;
    var h, b := q / 2, q % 2;
    assert m == p * q + r && q == 2 * h + b;
    assert p * (2 * h + b) == (2 * p) * h + b * p;
    assert b == 0 || b == 1;
    DivModOf(b * p + r, h, 2 * p);
  }

  /** After r answered rounds exactly floor(m0 / 2^r) chunks are missing, and r never exceeds the round limit. */
  lemma {:induction false} HalvingLaw(p: Provider, s: State, r: nat)
    requires Inv(p, s) && After(p, s, r).Some?
    ensures Inv(p, After(p, s, r).value)
    ensures Lacking(p, After(p, s, r).value) == Lacking(p, s) / Pow2(r)
    ensures After(p, s, r).value.manager.rounds == s.manager.rounds + r
    ensures After(p, s, r).value.manager.maxRounds == s.manager.maxRounds
    ensures r > 0 ==> s.manager.rounds + r <= s.manager.maxRounds
  {
    hide Inv, Lacking, Advance;
    if r > 0 {
      HalvingLaw(p, s, r - 1);
      RoundHalves(p, After(p, s, r - 1).value);
      HalveAgain(Lacking(p, s), Pow2(r - 1));
    }
  }

  /** An answered round started below the threshold, within the limit and with something missing. */
  lemma AnsweredIff(p: Provider, s: State)
    requires Inv(p, s)
    ensures Advance(p, s).Some? <==>
            s.diff.confidence < s.manager.threshold && s.manager.rounds < s.manager.maxRounds && Lacking(p, s) > 0
    ensures Advance(p, s).Some? ==> Advance(p, s).value.manager.threshold == s.manager.threshold
  {
    assert s.manager.received + HeldIndices(s.diff.chunks) == HeldIndices(s.diff.chunks);
  }

  /** How a session ends at a state: satisfied, or giving up. */
  lemma EndsHow(p: Provider, s: State)
    requires Inv(p, s) && Advance(p, s).None?
    ensures var v := Evaluate(s.manager, s.diff, p.TotalChunks()).1;
            if s.diff.confidence >= s.manager.threshold then v == Sufficient else v == TooLow(s.diff.confidence)
  {}

  /** Through a whole session: every answered round started below the threshold, which never changes. */
  lemma {:induction false} AnsweredBelowThreshold(p: Provider, s: State, r: nat, k: nat)
    requires Inv(p, s) && k < r && After(p, s, r).Some?
    ensures After(p, s, k).Some? && After(p, s, k).value.diff.confidence < s.manager.threshold
    ensures After(p, s, r).value.manager.threshold == s.manager.threshold
    decreases r
  {
    hide Inv, Lacking, Advance;
    if k < r - 1 {
      AnsweredBelowThreshold(p, s, r - 1, k);
    } else if r > 1 {
      AnsweredBelowThreshold(p, s, r - 1, 0);
    }
    HalvingLaw(p, s, r - 1);
    AnsweredIff(p, After(p, s, r - 1).value);
  }

  /** A session that ends satisfied holds a payload at or above the threshold; one that gives up is below it. */
  lemma SatisfiedIff(p: Provider, s: State, r: nat)
    requires Inv(p, s) && After(p, s, r).Some? && After(p, s, r + 1).None?
    ensures var t := After(p, s, r).value;
            var v := Evaluate(t.manager, t.diff, p.TotalChunks()).1;
            && (v.Sufficient? <==> t.diff.confidence >= s.manager.threshold)
            && (v.TooLow? <==> t.diff.confidence < s.manager.threshold)
  {
    hide Inv, Lacking, Advance, Evaluate;
    HalvingLaw(p, s, r);
    if r > 0 { AnsweredBelowThreshold(p, s, r, 0); }
    EndsHow(p, After(p, s, r).value);
  }

  /** Nothing is lacking exactly when every index is held. */
  lemma LackingNothing(p: Provider, s: State)
    ensures Lacking(p, s) == 0 <==> forall i :: 0 <= i < p.TotalChunks() ==> i in Indices(s.diff.chunks)
  {
    EmptyIffNoMember(Missing(HeldIndices(s.diff.chunks), p.TotalChunks()));
  }

  /** Evaluation number maxRounds + 1 at the latest ends the session. */
  lemma SessionEnds(p: Provider, s: State)
    requires Inv(p, s) && s.manager.rounds == 0
    ensures After(p, s, s.manager.maxRounds + 1).None?
  {
    if After(p, s, s.manager.maxRounds + 1).Some? {
      HalvingLaw(p, s, s.manager.maxRounds + 1);
    }
  }

  /**
   * A session that gives up does so with the complete original context in hand exactly when fewer than
   * 2^maxRounds chunks were missing at the start; otherwise floor(m0 / 2^maxRounds) are still missing.
   */
  lemma GivingUp(p: Provider, s: State, r: nat)
    requires Inv(p, s) && s.manager.rounds == 0 && p.config.chunkSize > 0
    requires After(p, s, r).Some?
    requires Evaluate(After(p, s, r).value.manager, After(p, s, r).value.diff, p.TotalChunks()).1.TooLow?
    ensures Lacking(p, After(p, s, r).value) == 0 <==> Lacking(p, s) < Pow2(s.manager.maxRounds)
    ensures Lacking(p, s) < Pow2(s.manager.maxRounds) ==> ApplyDiff(After(p, s, r).value.diff) == p.data
    ensures Lacking(p, s) >= Pow2(s.manager.maxRounds) ==>
              r == s.manager.maxRounds && Lacking(p, After(p, s, r).value) == Lacking(p, s) / Pow2(r)
  {
    HalvingLaw(p, s, r);
    var t, m0, limit := After(p, s, r).value, Lacking(p, s), s.manager.maxRounds;
    LackingNothing(p, t);
    GivesUpWhen(p, t);
    hide Evaluate, After, Lacking;
    if r < limit {
      assert Lacking(p, t) == 0;
      Pow2Grows(r, limit);
      SmallQuotient(m0, Pow2(r));
    } else {
      SmallQuotient(m0, Pow2(limit));
    }
    if Lacking(p, t) == 0 {
      FullReconstruction(p.data, p.config.chunkSize, p.relevance, t.diff);
    }
  }

  lemma GivesUpWhen(p: Provider, t: State)
    requires Inv(p, t) && Evaluate(t.manager, t.diff, p.TotalChunks()).1.TooLow?
    ensures t.manager.rounds >= t.manager.maxRounds || Lacking(p, t) == 0
  {
    assert t.manager.received + HeldIndices(t.diff.chunks) == HeldIndices(t.diff.chunks);
  }

  lemma {:induction false} Pow2Grows(a: nat, b: nat)
    requires a <= b
    ensures Pow2(a) <= Pow2(b)
    decreases b
  {
    if a < b { Pow2Grows(a, b - 1); }
  }

  lemma SmallQuotient(m: nat, d: nat)
    requires d >= 1
    ensures m / d == 0 <==> m < d
  {}
}
