/** Time-decayed trust. */
module Trust {
  import opened Prelude
  import opened Products
  import opened Clock
  import opened Types
  import opened Sequences

  datatype InteractionRecord = InteractionRecord(subject: AgentId, taskType: TaskType, qualityScore: real,
                                                 timestamp: Time)

  /** `decay` stands for e^(-lambda / 86400): the weight lost per second of age. */
  datatype Engine = Engine(decay: real, prior: real) {
    predicate Valid() {
      decay > 0.0
    }
  }

  const SECOND := 1_000_000_000

  /** Whole seconds of age, never negative; chrono truncates towards zero. */
  function AgeSeconds(timestamp: Time, now: Time): nat {
    if now >= timestamp then (now - timestamp) / SECOND else 0
  }

  function Weight(e: Engine, r: InteractionRecord, now: Time): real {
    Times(Power(e.decay, AgeSeconds(r.timestamp, now)), ComplexityWeight(r.taskType))
  }

  function Numerator(e: Engine, records: seq<InteractionRecord>, now: Time): real {
    if records == [] then 0.0
    else
      var last := records[|records| - 1];
      Numerator(e, records[..|records| - 1], now) + Times(last.qualityScore, Weight(e, last, now))
  }

  function Denominator(e: Engine, records: seq<InteractionRecord>, now: Time): real {
    if records == [] then 0.0
    else Denominator(e, records[..|records| - 1], now) + Weight(e, records[|records| - 1], now)
  }

  /** The score before clamping; the prior when there is nothing to average. */
  function Score(e: Engine, records: seq<InteractionRecord>, now: Time): real {
    if records == [] || Denominator(e, records, now) == 0.0 then e.prior
    else ClampUnit(Numerator(e, records, now) / Denominator(e, records, now))
  }

  function Count(e: Engine, records: seq<InteractionRecord>, now: Time): nat {
    if records == [] || Denominator(e, records, now) == 0.0 then 0 else |records|
  }

  /** The accumulation loop: both sums in one pass. */
  method Accumulate(e: Engine, records: seq<InteractionRecord>, now: Time) returns (numerator: real, denominator: real)
    ensures numerator == Numerator(e, records, now) && denominator == Denominator(e, records, now)
  {
    hide Times, Weight;
    numerator, denominator := 0.0, 0.0;
    for i := 0 to |records|
      invariant numerator == Numerator(e, records[..i], now) && denominator == Denominator(e, records[..i], now)
    {
      assert records[..i + 1][..i] == records[..i];
      var weight := Weight(e, records[i], now);
      numerator := numerator + Times(records[i].qualityScore, weight);
      denominator := denominator + weight;
    }
    assert records[..|records|] == records;
  }

  method WeightedAverage(e: Engine, records: seq<InteractionRecord>, now: Time) returns (score: real, count: nat)
    ensures score == Score(e, records, now) && count == Count(e, records, now)
  {
    hide Numerator, Denominator;
    if |records| == 0 { return e.prior, 0; }
    var numerator, denominator := Accumulate(e, records, now);
    if denominator == 0.0 { return e.prior, 0; }
    score, count := ClampUnit(numerator / denominator), |records|;
  }

  function About(subject: AgentId): InteractionRecord -> bool {
    (r: InteractionRecord) => r.subject == subject
  }

  function AboutTask(subject: AgentId, task: TaskType): InteractionRecord -> bool {
    (r: InteractionRecord) => r.subject == subject && r.taskType == task
  }

  /** The records that count have qualities between `lo` and `hi`. */
  ghost predicate RelevantWithin(records: seq<InteractionRecord>, keep: InteractionRecord -> bool, lo: real, hi: real) {
    forall r :: r in records && keep(r) ==> lo <= r.qualityScore <= hi
  }

  /**
   * What a score over the relevant records means: the prior when there is none, otherwise a value between the
   * least and the greatest relevant quality, each cut to [0,1].
   */
  ghost predicate ScoresRelevant(e: Engine, records: seq<InteractionRecord>, keep: InteractionRecord -> bool,
                                 score: real)
  {
    && ((forall r :: r in records ==> !keep(r)) ==> score == e.prior)
    && ((exists r :: r in records && keep(r)) ==>
          forall lo, hi :: RelevantWithin(records, keep, lo, hi) ==> ClampUnit(lo) <= score <= ClampUnit(hi))
  }

  lemma FilteredScore(e: Engine, records: seq<InteractionRecord>, keep: InteractionRecord -> bool, now: Time)
    requires e.Valid()
    ensures ScoresRelevant(e, records, keep, Score(e, Filter(records, keep), now))
    ensures Count(e, Filter(records, keep), now) == |Filter(records, keep)|
  {
    var relevant := Filter(records, keep);
    if relevant == [] {
      forall r | r in records ensures !keep(r) { assert keep(r) ==> r in relevant; }
    } else {
      assert relevant[0] in relevant;
      DenominatorPositive(e, relevant, now);
      forall lo, hi | RelevantWithin(records, keep, lo, hi)
        ensures ClampUnit(lo) <= Score(e, relevant, now) <= ClampUnit(hi)
      {
        assert forall i :: 0 <= i < |relevant| ==> relevant[i] in relevant;
        ScoreBounds(e, relevant, now, lo, hi);
      }
    }
  }

  /** Trust in one agent for one task type. */
  method ComputeTrustScore(e: Engine, subject: AgentId, task: TaskType, records: seq<InteractionRecord>, now: Time)
    returns (score: real, count: nat)
    ensures score == Score(e, Filter(records, AboutTask(subject, task)), now)
    ensures count == Count(e, Filter(records, AboutTask(subject, task)), now)
    ensures e.Valid() ==> ScoresRelevant(e, records, AboutTask(subject, task), score)
    ensures e.Valid() ==> count == |Filter(records, AboutTask(subject, task))|
  {
    hide Score, Count, ScoresRelevant;
    score, count := WeightedAverage(e, Filter(records, AboutTask(subject, task)), now);
    if e.Valid() { FilteredScore(e, records, AboutTask(subject, task), now); }
  }

  /** Trust in one agent over all task types. */
  method ComputeAggregateTrust(e: Engine, subject: AgentId, records: seq<InteractionRecord>, now: Time)
    returns (score: real)
    ensures score == Score(e, Filter(records, About(subject)), now)
    ensures e.Valid() ==> ScoresRelevant(e, records, About(subject), score)
  {
    hide Numerator, Denominator, ScoresRelevant;
    if e.Valid() { FilteredScore(e, records, About(subject), now); }
    var relevant := Filter(records, About(subject));
    if |relevant| == 0 { return e.prior; }
    var numerator, denominator := Accumulate(e, relevant, now);
    score := if denominator == 0.0 then e.prior else ClampUnit(numerator / denominator);
  }

  // ------------------------------------------------------------ properties

  lemma {:induction false} FilterIgnores(a: seq<InteractionRecord>, r: InteractionRecord, b: seq<InteractionRecord>,
                                         keep: InteractionRecord -> bool)
    requires !keep(r)
    ensures Filter(a + [r] + b, keep) == Filter(a + b, keep)
  {
    if a == [] {
      assert [] + [r] + b == [r] + b && ([r] + b)[1..] == b && [] + b == b;
    } else {
      FilterIgnores(a[1..], r, b, keep);
      assert (a + [r] + b)[1..] == a[1..] + [r] + b && (a + b)[1..] == a[1..] + b;
    }
  }

  lemma {:induction false} FilterKeeps(a: seq<InteractionRecord>, r: InteractionRecord, b: seq<InteractionRecord>,
                                       keep: InteractionRecord -> bool)
    requires keep(r)
    ensures |Filter(a + [r] + b, keep)| == |Filter(a + b, keep)| + 1
  {
    if a == [] {
      assert [] + [r] + b == [r] + b && ([r] + b)[1..] == b && [] + b == b;
    } else {
      FilterKeeps(a[1..], r, b, keep);
      assert (a + [r] + b)[1..] == a[1..] + [r] + b && (a + b)[1..] == a[1..] + b;
    }
  }

  /** A record of the agent counts for its task type, and for the aggregate, wherever it stands. */
  lemma OwnRecordCounts(e: Engine, a: seq<InteractionRecord>, r: InteractionRecord, b: seq<InteractionRecord>,
                        now: Time)
    requires e.Valid()
    ensures Count(e, Filter(a + [r] + b, AboutTask(r.subject, r.taskType)), now) ==
            Count(e, Filter(a + b, AboutTask(r.subject, r.taskType)), now) + 1
    ensures Count(e, Filter(a + [r] + b, About(r.subject)), now) == Count(e, Filter(a + b, About(r.subject)), now) + 1
  {
    hide Score, Count, ScoresRelevant;
    FilterKeeps(a, r, b, AboutTask(r.subject, r.taskType));
    FilterKeeps(a, r, b, About(r.subject));
    FilteredScore(e, a + [r] + b, AboutTask(r.subject, r.taskType), now);
    FilteredScore(e, a + b, AboutTask(r.subject, r.taskType), now);
    FilteredScore(e, a + [r] + b, About(r.subject), now);
    FilteredScore(e, a + b, About(r.subject), now);
  }

  /** A record of another agent, or for the task score of another task type, has no influence wherever it stands. */
  lemma OthersHaveNoInfluence(e: Engine, subject: AgentId, task: TaskType, a: seq<InteractionRecord>,
                              r: InteractionRecord, b: seq<InteractionRecord>, now: Time)
    requires r.subject != subject || r.taskType != task
    ensures Score(e, Filter(a + [r] + b, AboutTask(subject, task)), now) ==
            Score(e, Filter(a + b, AboutTask(subject, task)), now)
    ensures Count(e, Filter(a + [r] + b, AboutTask(subject, task)), now) ==
            Count(e, Filter(a + b, AboutTask(subject, task)), now)
    ensures r.subject != subject ==>
        Score(e, Filter(a + [r] + b, About(subject)), now) == Score(e, Filter(a + b, About(subject)), now)
  {
    hide Score, Count;
    FilterIgnores(a, r, b, AboutTask(subject, task));
    if r.subject != subject { FilterIgnores(a, r, b, About(subject)); }
  }

  /** Ages count whole seconds that have passed; a record from the future is fresh. */
  lemma AgeMeaning(timestamp: Time, now: Time, n: nat)
    ensures now >= timestamp ==>
              (AgeSeconds(timestamp, now) == n <==> n * 1_000_000_000 <= now - timestamp < (n + 1) * 1_000_000_000)
    ensures now < timestamp ==> AgeSeconds(timestamp, now) == 0
  {}

  /** A record without age weighs by its task type alone, and every further second costs the same factor. */
  lemma WeightMeaning(e: Engine, r: InteractionRecord, now: Time)
    ensures AgeSeconds(r.timestamp, now) == 0 ==>
              Weight(e, r, now) == match r.taskType case CodeGeneration => 1.5 case Analysis => 1.2
                                                    case CreativeWriting => 1.0 case DataProcessing => 0.8
    ensures r.timestamp <= now ==> Weight(e, r, now + 1_000_000_000) == Times(e.decay, Weight(e, r, now))
  {
    hide Times;
    TimesOne(ComplexityWeight(r.taskType));
    if r.timestamp <= now {
      WeightScales(e, r, now, 1);
      assert Power(e.decay, 1) == Times(Power(e.decay, 0), e.decay) == e.decay by { TimesOne(e.decay); }
    }
  }

  /** How far the records' qualities, weighted, are above a value; below it they count negative. */
  ghost function Surplus(e: Engine, records: seq<InteractionRecord>, now: Time, x: real): real {
    if records == [] then 0.0
    else
      var last := records[|records| - 1];
      Surplus(e, records[..|records| - 1], now, x) + Times(Weight(e, last, now), last.qualityScore - x)
  }

  lemma {:induction false} SurplusIs(e: Engine, records: seq<InteractionRecord>, now: Time, x: real)
    ensures Surplus(e, records, now, x) == Numerator(e, records, now) - Times(Denominator(e, records, now), x)
  {
    hide Times, Weight;
    if records == [] {
      TimesZero(x);
    } else {
      var front, last := records[..|records| - 1], records[|records| - 1];
      var w := Weight(e, last, now);
      SurplusIs(e, front, now, x);
      TimesSubtracts(w, last.qualityScore, x);
      TimesCommutes(w, last.qualityScore);
      TimesCommutes(w, x);
      TimesCommutes(Denominator(e, front, now), x);
      TimesCommutes(Denominator(e, records, now), x);
      TimesAdds(x, Denominator(e, front, now), w);
    }
  }

  /** The score of qualities in [0,1] is where the weighted records balance. */
  lemma ScoreBalances(e: Engine, records: seq<InteractionRecord>, now: Time)
    requires e.Valid() && records != [] && QualitiesWithin(records, 0.0, 1.0)
    ensures Surplus(e, records, now, Score(e, records, now)) == 0.0
  {
    hide Times, Numerator, Denominator, Surplus;
    DenominatorPositive(e, records, now);
    WeightedBounds(e, records, now, 0.0, 1.0);
    QuotientBounds(Numerator(e, records, now), Denominator(e, records, now), 0.0, 1.0);
    QuotientTimes(Numerator(e, records, now), Denominator(e, records, now));
    SurplusIs(e, records, now, Score(e, records, now));
  }

  lemma WeightPositive(e: Engine, r: InteractionRecord, now: Time)
    requires e.Valid()
    ensures 0.0 < Weight(e, r, now)
  {
    hide Times, Power, AgeSeconds;
    PowerPositive(e.decay, AgeSeconds(r.timestamp, now));
    TimesPositive(Power(e.decay, AgeSeconds(r.timestamp, now)), ComplexityWeight(r.taskType));
  }

  /** The division is always defined: the zero-denominator branch is never taken for exact weights. */
  lemma {:induction false} DenominatorPositive(e: Engine, records: seq<InteractionRecord>, now: Time)
    requires e.Valid()
    ensures records != [] ==> 0.0 < Denominator(e, records, now)
    ensures records == [] ==> Denominator(e, records, now) == 0.0
  {
    hide Weight;
    if records != [] {
      DenominatorPositive(e, records[..|records| - 1], now);
      WeightPositive(e, records[|records| - 1], now);
    }
  }

  ghost predicate QualitiesWithin(records: seq<InteractionRecord>, lo: real, hi: real) {
    forall i :: 0 <= i < |records| ==> lo <= records[i].qualityScore <= hi
  }

  /** The numerator of a weighted average of values between `lo` and `hi`. */
  ghost predicate Between(num: real, den: real, lo: real, hi: real) {
    Times(den, lo) <= num <= Times(den, hi)
  }

  lemma BetweenMore(num: real, den: real, q: real, w: real, lo: real, hi: real)
    requires Between(num, den, lo, hi) && lo <= q <= hi && 0.0 < w
    ensures Between(num + Times(q, w), den + w, lo, hi)
  {
    hide Times;
    TimesMonotone(w, lo, q);
    TimesMonotone(w, q, hi);
    TimesCommutes(w, q);
    TimesCommutes(w, lo);
    TimesCommutes(w, hi);
    TimesCommutes(den, lo);
    TimesCommutes(den, hi);
    TimesCommutes(den + w, lo);
    TimesCommutes(den + w, hi);
    TimesAdds(lo, den, w);
    TimesAdds(hi, den, w);
  }

  lemma {:induction false} WeightedBounds(e: Engine, records: seq<InteractionRecord>, now: Time, lo: real, hi: real)
    requires e.Valid() && QualitiesWithin(records, lo, hi)
    ensures Between(Numerator(e, records, now), Denominator(e, records, now), lo, hi)
  {
    hide Times, Weight, Between;
    if records == [] {
      assert Between(0.0, 0.0, lo, hi) by { BetweenNothing(lo, hi); }
    } else {
      var front, last := records[..|records| - 1], records[|records| - 1];
      WeightedBounds(e, front, now, lo, hi);
      WeightPositive(e, last, now);
      BetweenMore(Numerator(e, front, now), Denominator(e, front, now), last.qualityScore, Weight(e, last, now),
                  lo, hi);
    }
  }

  lemma BetweenNothing(lo: real, hi: real)
    ensures Between(0.0, 0.0, lo, hi)
  {
    TimesZero(lo);
    TimesZero(hi);
  }

  /**
   * A score from at least one record lies between the least and the greatest recorded quality,
   * each cut to [0,1]; qualities in [0,1] are their own cut.
   */
  lemma ScoreBounds(e: Engine, records: seq<InteractionRecord>, now: Time, lo: real, hi: real)
    requires e.Valid() && records != [] && QualitiesWithin(records, lo, hi)
    ensures ClampUnit(lo) <= Score(e, records, now) <= ClampUnit(hi)
    ensures Count(e, records, now) == |records|
  {
    hide Times, Numerator, Denominator;
    DenominatorPositive(e, records, now);
    WeightedBounds(e, records, now, lo, hi);
    QuotientBounds(Numerator(e, records, now), Denominator(e, records, now), lo, hi);
  }

  /** Past every timestamp, a whole number of seconds adds itself to every age. */
  lemma AgeShifts(timestamp: Time, now: Time, d: nat)
    requires timestamp <= now
    ensures AgeSeconds(timestamp, now + d * SECOND) == AgeSeconds(timestamp, now) + d
  {}

  lemma WeightScales(e: Engine, r: InteractionRecord, now: Time, d: nat)
    requires r.timestamp <= now
    ensures Weight(e, r, now + d * SECOND) == Times(Power(e.decay, d), Weight(e, r, now))
  {
    hide Times, Power, AgeSeconds, ComplexityWeight;
    AgeShifts(r.timestamp, now, d);
    var n, gamma := AgeSeconds(r.timestamp, now), ComplexityWeight(r.taskType);
    PowerAdds(e.decay, d, n);
    TimesAssociates(Power(e.decay, d), Power(e.decay, n), gamma);
  }

  lemma {:induction false} SumsScale(e: Engine, records: seq<InteractionRecord>, now: Time, d: nat)
    requires forall i :: 0 <= i < |records| ==> records[i].timestamp <= now
    ensures Numerator(e, records, now + d * SECOND) == Times(Power(e.decay, d), Numerator(e, records, now))
    ensures Denominator(e, records, now + d * SECOND) == Times(Power(e.decay, d), Denominator(e, records, now))
  {
    hide Times, Weight, Power;
    var k := Power(e.decay, d);
    if records == [] {
      TimesZero(k);
    } else {
      var front, last := records[..|records| - 1], records[|records| - 1];
      SumsScale(e, front, now, d);
      WeightScales(e, last, now, d);
      TimesSwaps(last.qualityScore, k, Weight(e, last, now));
      TimesAdds(k, Numerator(e, front, now), Times(last.qualityScore, Weight(e, last, now)));
      TimesAdds(k, Denominator(e, front, now), Weight(e, last, now));
    }
  }

  /** Numerators and denominators in the same proportion have the same quotient. */
  lemma SameQuotient(num: real, den: real, num': real, den': real, g: real, h: real)
    requires 0.0 < den && 0.0 < den' && 0.0 < g
    requires Times(g, num') == Times(h, num) && Times(g, den') == Times(h, den)
    ensures num' / den' == num / den
  {
    hide Times;
    var q := num / den;
    assert Times(den, q) == num by { QuotientTimes(num, den); }
    TimesAssociates(g, den', q);
    TimesAssociates(h, den, q);
    TimesCancels(g, num', Times(den', q));
    QuotientIs(num', den', q);
  }

  /** Waiting alone changes no trust: all weights decay by the same factor. */
  lemma WaitingChangesNothing(e: Engine, records: seq<InteractionRecord>, now: Time, d: nat)
    requires e.Valid() && forall i :: 0 <= i < |records| ==> records[i].timestamp <= now
    ensures Score(e, records, now + d * SECOND) == Score(e, records, now)
    ensures Count(e, records, now + d * SECOND) == Count(e, records, now)
  {
    hide Times, Numerator, Denominator, Power;
    if records != [] {
      var later := now + d * SECOND;
      DenominatorPositive(e, records, now);
      DenominatorPositive(e, records, later);
      SumsScale(e, records, now, d);
      TimesOne(Numerator(e, records, later));
      TimesOne(Denominator(e, records, later));
      SameQuotient(Numerator(e, records, now), Denominator(e, records, now),
                   Numerator(e, records, later), Denominator(e, records, later), 1.0, Power(e.decay, d));
    }
  }

  // ------------------------------------- complexity weights within one task

  /** The same records with another task type. */
  function Relabelled(records: seq<InteractionRecord>, task: TaskType): (r: seq<InteractionRecord>)
    ensures |r| == |records| && forall i :: 0 <= i < |records| ==> r[i] == records[i].(taskType := task)
  {
    seq(|records|, i requires 0 <= i < |records| => records[i].(taskType := task))
  }

  lemma RelabelledWeight(e: Engine, r: InteractionRecord, now: Time, to: TaskType)
    ensures Times(ComplexityWeight(r.taskType), Weight(e, r.(taskType := to), now)) ==
            Times(ComplexityWeight(to), Weight(e, r, now))
  {
    hide Times, Power, AgeSeconds, ComplexityWeight;
    var p, g, h := Power(e.decay, AgeSeconds(r.timestamp, now)), ComplexityWeight(r.taskType), ComplexityWeight(to);
    TimesCommutes(p, h);
    TimesCommutes(p, g);
    TimesSwaps(g, h, p);
  }

  lemma {:induction false} RelabelledSums(e: Engine, records: seq<InteractionRecord>, now: Time, from: TaskType,
                                          to: TaskType)
    requires forall i :: 0 <= i < |records| ==> records[i].taskType == from
    ensures Times(ComplexityWeight(from), Numerator(e, Relabelled(records, to), now)) ==
            Times(ComplexityWeight(to), Numerator(e, records, now))
    ensures Times(ComplexityWeight(from), Denominator(e, Relabelled(records, to), now)) ==
            Times(ComplexityWeight(to), Denominator(e, records, now))
  {
    hide Times, Weight, ComplexityWeight;
    var g, h := ComplexityWeight(from), ComplexityWeight(to);
    if records == [] {
      TimesZero(g);
      TimesZero(h);
    } else {
      var front, last := records[..|records| - 1], records[|records| - 1];
      var w, w' := Weight(e, last, now), Weight(e, last.(taskType := to), now);
      var other := Relabelled(front, to);
      RelabelledSums(e, front, now, from, to);
      RelabelledWeight(e, last, now, to);
      assert Relabelled(records, to)[..|records| - 1] == other;
      TimesSwaps(g, last.qualityScore, w');
      TimesSwaps(h, last.qualityScore, w);
      TimesAdds(g, Numerator(e, other, now), Times(last.qualityScore, w'));
      TimesAdds(h, Numerator(e, front, now), Times(last.qualityScore, w));
      TimesAdds(g, Denominator(e, other, now), w');
      TimesAdds(h, Denominator(e, front, now), w);
    }
  }

  /** Within a single task type the complexity weight cancels: it cannot influence a per-task score. */
  lemma ComplexityCancels(e: Engine, records: seq<InteractionRecord>, now: Time, from: TaskType, to: TaskType)
    requires e.Valid() && forall i :: 0 <= i < |records| ==> records[i].taskType == from
    ensures Score(e, Relabelled(records, to), now) == Score(e, records, now)
  {
    hide Times, Numerator, Denominator, Weight;
    if records != [] {
      var other := Relabelled(records, to);
      DenominatorPositive(e, records, now);
      DenominatorPositive(e, other, now);
      RelabelledSums(e, records, now, from, to);
      SameQuotient(Numerator(e, records, now), Denominator(e, records, now),
                   Numerator(e, other, now), Denominator(e, other, now), ComplexityWeight(from), ComplexityWeight(to));
    }
  }
}
