/** Route metrics, their scalarisation and the constraint check. */
module Cost {
  import opened Prelude
  import opened Products
  import opened Types

  datatype CostWeights = CostWeights(quality: real, latency: real, cost: real) {
    predicate NonNegative() {
      0.0 <= quality && 0.0 <= latency && 0.0 <= cost
    }
  }

  const DEFAULT_WEIGHTS := CostWeights(0.34, 0.33, 0.33)

  const PARETO_SAMPLE_VECTORS: seq<CostWeights> := [
    CostWeights(1.0, 0.0, 0.0),
    CostWeights(0.0, 1.0, 0.0),
    CostWeights(0.0, 0.0, 1.0),
    CostWeights(0.5, 0.5, 0.0),
    CostWeights(0.5, 0.0, 0.5),
    CostWeights(0.0, 0.5, 0.5),
    CostWeights(0.34, 0.33, 0.33),
    CostWeights(0.6, 0.2, 0.2),
    CostWeights(0.2, 0.6, 0.2),
    CostWeights(0.2, 0.2, 0.6)]

  /** The transfer latency assumed where the graph records no link: 5 ms. */
  const DEFAULT_TRANSFER_LATENCY: Duration := 0.005

  datatype CostModel = CostModel(latencyRef: Duration, costRef: real)

  /** `(x / ref).min(2.0)`; a zero reference yields infinity or NaN, which `min` turns into 2. */
  function Share(x: real, ref: real): real {
    if ref == 0.0 then 2.0 else Min(x / ref, 2.0)
  }

  function Weighted(w: CostWeights, q: real, l: real, c: real): real {
    Times(w.quality, q) + Times(w.latency, l) + Times(w.cost, c)
  }

  function ScalarEdgeCost(model: CostModel, cap: Capability, transfer: Duration, w: CostWeights): real {
    Weighted(w,
             1.0 - ClampUnit(cap.estimatedQuality),
             Share(cap.estimatedLatency + transfer, model.latencyRef),
             Share(cap.costPerTask, model.costRef))
  }

  function ScalarRouteCost(model: CostModel, m: RouteMetrics, w: CostWeights): real {
    Weighted(w,
             1.0 - ClampUnit(m.quality),
             Share(m.latency, model.latencyRef),
             Share(m.cost, model.costRef))
  }

  function QualityProduct(caps: seq<Capability>): real {
    if caps == [] then 1.0 else Times(ClampUnit(caps[0].estimatedQuality), QualityProduct(caps[1..]))
  }

  function LatencySum(caps: seq<Capability>): Duration {
    if caps == [] then 0.0 else caps[0].estimatedLatency + LatencySum(caps[1..])
  }

  function TransferSum(transfers: seq<Duration>): Duration {
    if transfers == [] then 0.0 else transfers[0] + TransferSum(transfers[1..])
  }

  function CostSum(caps: seq<Capability>): real {
    if caps == [] then 0.0 else caps[0].costPerTask + CostSum(caps[1..])
  }

  function ComputeRouteMetrics(caps: seq<Capability>, transfers: seq<Duration>): RouteMetrics {
    if caps == [] then RouteMetrics(0.0, 0.0, 0.0)
    else RouteMetrics(QualityProduct(caps), LatencySum(caps) + TransferSum(transfers), CostSum(caps))
  }

  predicate SatisfiesConstraints(m: RouteMetrics, qos: QoS) {
    m.quality >= qos.minQuality && m.latency <= qos.maxLatency && m.cost <= qos.maxCost
  }

  /**
   * Weights that grow as a bound tightens. A budget of exactly -1 divides by zero in the original; every
   * cost is then a NaN, all comparisons tie and sorting keeps the given order, as it does with zero weights.
   */
  function WeightsFromConstraints(qos: QoS): (w: CostWeights)
    ensures 0.0 <= qos.minQuality && -1.0 < qos.maxCost ==> w.NonNegative()
  {
    if qos.maxCost == -1.0 then CostWeights(0.0, 0.0, 0.0) else
    QuotientSign(1.0, 1.0 + qos.maxLatency);
    QuotientSign(1.0, 1.0 + qos.maxCost);
    var q := qos.minQuality;
    var l := 1.0 / (1.0 + qos.maxLatency);
    var c := 1.0 / (1.0 + qos.maxCost);
    var total := q + l + c;
    if total < EPSILON then DEFAULT_WEIGHTS else
    QuotientSign(q, total);
    QuotientSign(l, total);
    QuotientSign(c, total);
    CostWeights(q / total, l / total, c / total)
  }

  /** `f64::EPSILON`, that is 2 to the power -52. */
  const EPSILON := 1.0 / 4503599627370496.0

  // ------------------------------------------------------ sampled weights

  /** Ten vectors that each add up to one: pure, even over two, even over three, or mostly one objective. */
  lemma SampledWeights(w: CostWeights)
    requires w in PARETO_SAMPLE_VECTORS
    ensures w.NonNegative() && w.quality + w.latency + w.cost == 1.0
    ensures || 1.0 in {w.quality, w.latency, w.cost}
            || (0.0 in {w.quality, w.latency, w.cost} && 0.5 in {w.quality, w.latency, w.cost})
            || w == DEFAULT_WEIGHTS
            || (0.6 in {w.quality, w.latency, w.cost} && 0.2 in {w.quality, w.latency, w.cost})
  {}

  lemma SampleCoversObjectives()
    ensures |PARETO_SAMPLE_VECTORS| == 10
    ensures forall i, j :: 0 <= i < j < 10 ==> PARETO_SAMPLE_VECTORS[i] != PARETO_SAMPLE_VECTORS[j]
  {}

  // -------------------------------------------------- the derived weights

  /** The sum that normalises the weights: the quality floor and the inverses of one plus each ceiling. */
  function Tightness(qos: QoS): real
    requires qos.maxCost != -1.0
  {
    qos.minQuality + 1.0 / (1.0 + qos.maxLatency) + 1.0 / (1.0 + qos.maxCost)
  }

  /** The bounds are tight enough to be normalised; otherwise the weights are the default ones. */
  predicate Normalised(qos: QoS) {
    qos.maxCost != -1.0 && Tightness(qos) >= 1.0 / 4503599627370496.0
  }

  lemma InverseOf(x: real)
    requires x != 0.0
    ensures Times(x, 1.0 / x) == 1.0
  {
    QuotientTimes(1.0, x);
  }

  /** A share of the whole, scaled by what the share is the inverse of, is the inverse of the whole. */
  lemma ShareOfWhole(x: real, a: real, whole: real)
    requires Times(a, x) == 1.0 && whole != 0.0
    ensures Times(x / whole, a) == 1.0 / whole
  {
    hide Times;
    QuotientTimes(x, whole);
    InverseOf(whole);
    TimesAssociates(whole, x / whole, a);
    TimesCommutes(x, a);
    TimesCancels(whole, Times(x / whole, a), 1.0 / whole);
  }

  lemma WholeOfShares(x: real, y: real, z: real)
    requires x + y + z != 0.0
    ensures x / (x + y + z) + y / (x + y + z) + z / (x + y + z) == 1.0
  {
    hide Times;
    var whole := x + y + z;
    QuotientTimes(x, whole);
    QuotientTimes(y, whole);
    QuotientTimes(z, whole);
    TimesAdds(whole, x / whole, y / whole);
    TimesAdds(whole, x / whole + y / whole, z / whole);
    TimesOne(whole);
    TimesCancels(whole, x / whole + y / whole + z / whole, 1.0);
  }

  lemma QuotientAsTimes(x: real, whole: real)
    requires whole != 0.0
    ensures x / whole == Times(x, 1.0 / whole)
  {
    hide Times;
    InverseOf(whole);
    TimesOne(x);
    TimesSwaps(whole, x, 1.0 / whole);
    QuotientIs(x, whole, Times(x, 1.0 / whole));
  }

  /**
   * What the derived weights are: in inverse proportion to one plus each ceiling, the quality weight in proportion
   * to the floor, one in all; fixed values where the bounds cannot be normalised.
   */
  lemma WeightsMeaning(qos: QoS)
    ensures var w := WeightsFromConstraints(qos);
            if Normalised(qos) then
              && Times(w.latency, 1.0 + qos.maxLatency) == Times(w.cost, 1.0 + qos.maxCost)
              && w.quality == Times(qos.minQuality, Times(w.latency, 1.0 + qos.maxLatency))
              && w.quality + w.latency + w.cost == 1.0
            else if qos.maxCost == -1.0 then w == CostWeights(0.0, 0.0, 0.0)
            else w == CostWeights(0.34, 0.33, 0.33)
  {
    hide Times;
    if Normalised(qos) {
      var a, c, whole := 1.0 + qos.maxLatency, 1.0 + qos.maxCost, Tightness(qos);
      InverseOf(a);
      InverseOf(c);
      ShareOfWhole(1.0 / a, a, whole);
      ShareOfWhole(1.0 / c, c, whole);
      QuotientAsTimes(qos.minQuality, whole);
      WholeOfShares(qos.minQuality, 1.0 / a, 1.0 / c);
    }
  }

  /** A part that grows beside a fixed rest takes a larger share of the whole. */
  lemma ShareGrows(x: real, y: real, rest: real)
    requires 0.0 <= x <= y && 0.0 <= rest && 0.0 < x + rest
    ensures x / (x + rest) <= y / (y + rest)
  {
    hide Times;
    var s, t := x / (x + rest), y / (y + rest);
    QuotientTimes(x, x + rest);
    QuotientTimes(y, y + rest);
    QuotientSign(x, x + rest);
    if t < s {
      TimesStrictlyMonotone(y + rest, t, s);
      TimesCommutes(s, x + rest);
      TimesCommutes(s, y + rest);
      TimesAdds(s, x + rest, y - x);
      ShareBelowOne(x, rest);
      ShareTimes(s, y - x);
    }
  }

  lemma ShareBelowOne(x: real, rest: real)
    requires 0.0 <= x && 0.0 <= rest && 0.0 < x + rest
    ensures 0.0 <= x / (x + rest) <= 1.0
  {
    hide Times;
    TimesZero(x + rest);
    TimesOne(x + rest);
    QuotientBounds(x, x + rest, 0.0, 1.0);
  }

  lemma InverseFalls(a: real, b: real)
    requires 0.0 < a <= b
    ensures 0.0 < 1.0 / b <= 1.0 / a
  {
    hide Times;
    InverseOf(a);
    InverseOf(b);
    TimesZero(b);
    QuotientSign(1.0, b);
    TimesMonotone(1.0 / b, a, b);
    TimesCommutes(1.0 / b, a);
    TimesCommutes(1.0 / b, b);
    if 1.0 / a < 1.0 / b { TimesStrictlyMonotone(a, 1.0 / a, 1.0 / b); }
  }

  ghost predicate SaneBounds(qos: QoS) {
    0.0 <= qos.minQuality && -1.0 < qos.maxCost && Normalised(qos)
  }

  /** Tightening one bound never lowers that bound's own weight. */
  lemma TighterWeighsMore(qos: QoS, floor: real, latency: Duration, budget: real)
    requires SaneBounds(qos) && qos.minQuality <= floor && latency <= qos.maxLatency && -1.0 < budget <= qos.maxCost
    ensures WeightsFromConstraints(qos).quality <= WeightsFromConstraints(qos.(minQuality := floor)).quality
    ensures WeightsFromConstraints(qos).latency <= WeightsFromConstraints(qos.(maxLatency := latency)).latency
    ensures WeightsFromConstraints(qos).cost <= WeightsFromConstraints(qos.(maxCost := budget)).cost
  {
    var q, l, c := qos.minQuality, 1.0 / (1.0 + qos.maxLatency), 1.0 / (1.0 + qos.maxCost);
    var l', c' := 1.0 / (1.0 + latency), 1.0 / (1.0 + budget);
    InverseFalls(1.0 + latency, 1.0 + qos.maxLatency);
    InverseFalls(1.0 + budget, 1.0 + qos.maxCost);
    ShareGrows(q, floor, l + c);
    ShareGrows(l, l', q + c);
    ShareGrows(c, c', q + l);
    assert q + (l + c) == q + l + c && l + (q + c) == q + l + c && c + (q + l) == q + l + c;
    assert floor + (l + c) == floor + l + c && l' + (q + c) == q + l' + c && c' + (q + l) == q + l + c';
  }

  // ------------------------------------------------------------ dominance

  predicate Dominates(a: RouteMetrics, b: RouteMetrics) {
    && (a.quality >= b.quality && a.latency <= b.latency && a.cost <= b.cost)
    && (a.quality > b.quality || a.latency < b.latency || a.cost < b.cost)
  }

  /** One dominates the other when they differ and it is nowhere worse. */
  lemma DominatesMeaning(a: RouteMetrics, b: RouteMetrics)
    ensures Dominates(a, b) <==> a != b && a.quality >= b.quality && a.latency <= b.latency && a.cost <= b.cost
  {}

  lemma DominatorMeetsBounds(a: RouteMetrics, b: RouteMetrics, qos: QoS)
    requires a == b || Dominates(a, b)
    requires SatisfiesConstraints(b, qos)
    ensures SatisfiesConstraints(a, qos)
  {}

  lemma ShareMonotone(x: real, y: real, ref: real)
    requires x <= y && 0.0 <= ref
    ensures Share(x, ref) <= Share(y, ref)
  {
    if ref > 0.0 { QuotientMonotone(x, y, ref); }
  }

  lemma ShareReversed(x: real, y: real, ref: real)
    requires x <= y && ref < 0.0
    ensures Share(y, ref) <= Share(x, ref)
  {
    QuotientReversed(x, y, ref);
  }

  lemma ShareUnits(ref: real)
    requires ref != 0.0
    ensures Share(0.0, ref) == 0.0 && Share(ref, ref) == 1.0
  {
    TimesZero(ref);
    TimesOne(ref);
    QuotientIs(0.0, ref, 0.0);
    QuotientIs(ref, ref, 1.0);
  }

  /** The signs under which no objective is rewarded for getting worse. */
  predicate Aligned(model: CostModel, w: CostWeights) {
    0.0 <= w.quality && InStep(w.latency, model.latencyRef) && InStep(w.cost, model.costRef)
  }

  /** A weight and its reference do not have opposite signs. */
  predicate InStep(weight: real, ref: real) {
    (ref > 0.0 ==> 0.0 <= weight) && (ref < 0.0 ==> weight <= 0.0)
  }

  /** One objective: a larger figure never lowers its share of the cost when weight and reference are in step. */
  lemma TermMonotone(weight: real, x: real, y: real, ref: real)
    requires x <= y && InStep(weight, ref)
    ensures Times(weight, Share(x, ref)) <= Times(weight, Share(y, ref))
  {
    hide Times;
    if ref > 0.0 {
      ShareMonotone(x, y, ref);
      TimesMonotone(weight, Share(x, ref), Share(y, ref));
    } else if ref < 0.0 {
      ShareReversed(x, y, ref);
      TimesMonotone(-weight, Share(y, ref), Share(x, ref));
      TimesNegates(weight, Share(x, ref));
      TimesNegates(weight, Share(y, ref));
    }
  }

  /** Scalarising with aligned weights never prefers the dominated route. */
  lemma DominanceLowersCost(model: CostModel, a: RouteMetrics, b: RouteMetrics, w: CostWeights)
    requires (a == b || Dominates(a, b)) && Aligned(model, w)
    ensures ScalarRouteCost(model, a, w) <= ScalarRouteCost(model, b, w)
  {
    hide Times, Share;
    TimesMonotone(w.quality, 1.0 - ClampUnit(a.quality), 1.0 - ClampUnit(b.quality));
    TermMonotone(w.latency, a.latency, b.latency, model.latencyRef);
    TermMonotone(w.cost, a.cost, b.cost, model.costRef);
  }

  /** Scalarising never prefers a dominated route: what ranking by scalar cost relies on. */
  ghost predicate RespectsDominance(model: CostModel, w: CostWeights) {
    forall a, b :: Dominates(a, b) ==> ScalarRouteCost(model, a, w) <= ScalarRouteCost(model, b, w)
  }

  lemma MisalignedPrefersWorse(model: CostModel, w: CostWeights) returns (a: RouteMetrics, b: RouteMetrics)
    requires !Aligned(model, w)
    ensures Dominates(a, b) && ScalarRouteCost(model, a, w) > ScalarRouteCost(model, b, w)
  {
    if model.latencyRef != 0.0 { ShareUnits(model.latencyRef); }
    if model.costRef != 0.0 { ShareUnits(model.costRef); }
    hide Times, Share;
    TimesZero(w.quality);
    TimesOne(w.quality);
    TimesZero(w.latency);
    TimesOne(w.latency);
    TimesZero(w.cost);
    TimesOne(w.cost);
    var none := RouteMetrics(0.0, 0.0, 0.0);
    if w.quality < 0.0 {
      a, b := RouteMetrics(1.0, 0.0, 0.0), none;
    } else if !InStep(w.latency, model.latencyRef) {
      a, b := none, RouteMetrics(0.0, model.latencyRef, 0.0);
    } else {
      var priced := RouteMetrics(0.0, 0.0, model.costRef);
      if model.costRef > 0.0 { a, b := none, priced; } else { a, b := priced, none; }
    }
  }

  /** Ranking by scalar cost respects dominance exactly for weights that are in step with their references. */
  lemma DominanceRespectedIffAligned(model: CostModel, w: CostWeights)
    ensures RespectsDominance(model, w) <==> Aligned(model, w)
  {
    hide ScalarRouteCost, Dominates, Aligned;
    if Aligned(model, w) {
      forall a, b | Dominates(a, b) ensures ScalarRouteCost(model, a, w) <= ScalarRouteCost(model, b, w) {
        DominanceLowersCost(model, a, b, w);
      }
    } else {
      var a, b := MisalignedPrefersWorse(model, w);
    }
  }

  /** Edges are never free money: with sane prices and weights relaxation sees no negative cost. */
  lemma EdgeCostNonNegative(model: CostModel, cap: Capability, transfer: Duration, w: CostWeights)
    requires w.NonNegative() && 0.0 <= cap.costPerTask && 0.0 <= model.costRef
    ensures 0.0 <= ScalarEdgeCost(model, cap, transfer, w)
  {
    var l, c := Share(cap.estimatedLatency + transfer, model.latencyRef), Share(cap.costPerTask, model.costRef);
    ShareNonNegative(cap.estimatedLatency + transfer, model.latencyRef);
    ShareNonNegative(cap.costPerTask, model.costRef);
    hide Times, Share;
    TimesNonNegative(w.quality, 1.0 - ClampUnit(cap.estimatedQuality));
    TimesNonNegative(w.latency, l);
    TimesNonNegative(w.cost, c);
  }

  lemma ShareNonNegative(x: real, ref: real)
    requires 0.0 <= x && 0.0 <= ref
    ensures 0.0 <= Share(x, ref)
  {
    if ref > 0.0 {
      ShareUnits(ref);
      ShareMonotone(0.0, x, ref);
    }
  }

  // -------------------------------------------------- what a share counts

  /** The quotient where it is at most 2, and 2 where it is capped or the reference is zero. */
  lemma ShareCounts(x: real, ref: real)
    ensures ref > 0.0 && x <= 2.0 * ref ==> Times(ref, Share(x, ref)) == x
    ensures ref > 0.0 && x > 2.0 * ref ==> Share(x, ref) == 2.0
    ensures ref < 0.0 && x >= 2.0 * ref ==> Times(ref, Share(x, ref)) == x
    ensures ref < 0.0 && x < 2.0 * ref ==> Share(x, ref) == 2.0
    ensures ref == 0.0 ==> Share(x, ref) == 2.0
  {
    if ref != 0.0 {
      QuotientTimes(x, ref);
      TwiceQuotient(ref);
      if x <= 2.0 * ref && ref > 0.0 { QuotientMonotone(x, 2.0 * ref, ref); }
      if x > 2.0 * ref && ref > 0.0 { QuotientMonotone(2.0 * ref, x, ref); }
      if x >= 2.0 * ref && ref < 0.0 { QuotientReversed(2.0 * ref, x, ref); }
      if x < 2.0 * ref && ref < 0.0 { QuotientReversed(x, 2.0 * ref, ref); }
    }
  }

  lemma TwiceQuotient(ref: real)
    requires ref != 0.0
    ensures (2.0 * ref) / ref == 2.0
  {
    TimesCommutes(2.0, ref);
    QuotientIs(2.0 * ref, ref, 2.0);
  }

  // ------------------------------------- a path against each of its agents

  function Solo(cap: Capability): RouteMetrics {
    ComputeRouteMetrics([cap], [])
  }

  lemma SoloMetrics(cap: Capability)
    ensures Solo(cap) == RouteMetrics(ClampUnit(cap.estimatedQuality), cap.estimatedLatency, cap.costPerTask)
  {
    var q := ClampUnit(cap.estimatedQuality);
    assert QualityProduct([cap]) == Times(q, QualityProduct([])) == q by { TimesOne(q); }
    assert LatencySum([cap]) == cap.estimatedLatency + LatencySum([]);
    assert CostSum([cap]) == cap.costPerTask + CostSum([]);
  }

  lemma {:induction false} ProductInUnit(caps: seq<Capability>)
    ensures 0.0 <= QualityProduct(caps) <= 1.0
  {
    hide Times;
    if caps != [] {
      ProductInUnit(caps[1..]);
      UnitTimes(ClampUnit(caps[0].estimatedQuality), QualityProduct(caps[1..]));
    }
  }

  /** A chain is no better than, and no faster than, any one of its agents. */
  lemma {:induction false} PathNoBetterThanMember(caps: seq<Capability>, i: nat)
    requires i < |caps|
    ensures QualityProduct(caps) <= ClampUnit(caps[i].estimatedQuality)
    ensures caps[i].estimatedLatency <= LatencySum(caps)
  {
    hide Times;
    ProductInUnit(caps[1..]);
    UnitTimes(ClampUnit(caps[0].estimatedQuality), QualityProduct(caps[1..]));
    if i > 0 { PathNoBetterThanMember(caps[1..], i - 1); }
  }

  lemma {:induction false} CostSumNonNegative(caps: seq<Capability>)
    requires forall c :: c in caps ==> 0.0 <= c.costPerTask
    ensures 0.0 <= CostSum(caps)
  {
    if caps != [] { CostSumNonNegative(caps[1..]); }
  }

  lemma {:induction false} MemberCostBelowSum(caps: seq<Capability>, i: nat)
    requires i < |caps| && forall c :: c in caps ==> 0.0 <= c.costPerTask
    ensures caps[i].costPerTask <= CostSum(caps)
  {
    if i == 0 {
      CostSumNonNegative(caps[1..]);
    } else {
      MemberCostBelowSum(caps[1..], i - 1);
    }
  }

  /** Some member costs at most any non-negative bound on the sum. */
  lemma {:induction false} AffordableMember(caps: seq<Capability>, bound: real) returns (i: nat)
    requires caps != [] && CostSum(caps) <= bound && 0.0 <= bound
    ensures i < |caps| && caps[i].costPerTask <= bound
  {
    if caps[0].costPerTask <= bound {
      i := 0;
    } else if caps[1..] == [] {
      assert false;
    } else {
      var k := AffordableMember(caps[1..], 0.0);
      i := k + 1;
    }
  }

  /** With non-negative prices every agent of a chain that meets the bounds meets them alone. */
  lemma MembersMeetBounds(caps: seq<Capability>, transfers: seq<Duration>, qos: QoS, i: nat)
    requires i < |caps| && forall c :: c in caps ==> 0.0 <= c.costPerTask
    requires SatisfiesConstraints(ComputeRouteMetrics(caps, transfers), qos)
    ensures SatisfiesConstraints(Solo(caps[i]), qos)
  {
    SoloMetrics(caps[i]);
    PathNoBetterThanMember(caps, i);
    MemberCostBelowSum(caps, i);
  }

  /** Whatever the prices, under a non-negative budget some agent of such a chain meets them alone. */
  lemma SomeMemberMeetsBounds(caps: seq<Capability>, transfers: seq<Duration>, qos: QoS) returns (i: nat)
    requires caps != [] && 0.0 <= qos.maxCost
    requires SatisfiesConstraints(ComputeRouteMetrics(caps, transfers), qos)
    ensures i < |caps| && SatisfiesConstraints(Solo(caps[i]), qos)
  {
    i := AffordableMember(caps, qos.maxCost);
    SoloMetrics(caps[i]);
    PathNoBetterThanMember(caps, i);
  }

  /** The budget bound `b` under which a chain can only meet it when one of its agents does so alone. */
  ghost predicate SoloSuffices(b: real) {
    forall caps: seq<Capability>, transfers: seq<Duration>, qos: QoS ::
      caps != [] && qos.maxCost == b && SatisfiesConstraints(ComputeRouteMetrics(caps, transfers), qos)
      ==> exists i :: 0 <= i < |caps| && SatisfiesConstraints(Solo(caps[i]), qos)
  }

  /** A negative budget is exactly where chaining agents with negative prices beats every single one. */
  lemma SoloSufficesIffBudgetNonNegative(b: real)
    ensures SoloSuffices(b) <==> 0.0 <= b
  {
    if 0.0 <= b {
      forall caps: seq<Capability>, transfers: seq<Duration>, qos: QoS |
        caps != [] && qos.maxCost == b && SatisfiesConstraints(ComputeRouteMetrics(caps, transfers), qos)
        ensures exists i :: 0 <= i < |caps| && SatisfiesConstraints(Solo(caps[i]), qos)
      {
        var i := SomeMemberMeetsBounds(caps, transfers, qos);
      }
    } else {
      var half := Capability(Analysis, 1.0, 0.0, b / 2.0);
      var caps, qos := [half, half], QoS(0.0, 0.0, b, 0.0);
      assert caps[1..] == [half] && [half][1..] == [];
      assert CostSum([half]) == b / 2.0 && LatencySum([half]) == 0.0;
      ProductInUnit(caps);
      assert SatisfiesConstraints(ComputeRouteMetrics(caps, []), qos);
      SoloMetrics(half);
      assert forall i :: 0 <= i < |caps| ==> !SatisfiesConstraints(Solo(caps[i]), qos);
    }
  }
}
