/** The routing patterns and the automatic choice between them. */
module Patterns {
  import opened Prelude
  import opened Products
  import opened Types
  import opened Cost
  import opened Graph
  import opened Sequences

  datatype AgentInfo = AgentInfo(index: nat, id: AgentId, capability: Capability, trust: real)

  function InfoOf(net: Network, task: TaskType, index: nat): AgentInfo
    requires net.CapabilityAt(index, task).Some?
  {
    AgentInfo(index, net.nodes[index].id, net.CapabilityAt(index, task).value, net.nodes[index].trustScore)
  }

  function ExtractAgents(net: Network, task: TaskType, minTrust: real): (r: seq<AgentInfo>)
    ensures |r| == |net.CapableAgents(task, minTrust)|
    ensures forall i :: 0 <= i < |r| ==>
              && net.CapabilityAt(net.CapableAgents(task, minTrust)[i], task).Some?
              && r[i] == InfoOf(net, task, net.CapableAgents(task, minTrust)[i])
  {
    var agents := net.CapableAgents(task, minTrust);
    assert forall i :: 0 <= i < |agents| ==> net.IsCapable(agents[i], task, minTrust);
    seq(|agents|, i requires 0 <= i < |agents| => InfoOf(net, task, agents[i]))
  }

  /** A capable agent as it is: its id, its capability for the task and its trust are those of its node. */
  ghost predicate Describes(net: Network, task: TaskType, minTrust: real, a: AgentInfo) {
    && net.IsCapable(a.index, task, minTrust) && net.CapabilityAt(a.index, task) == Some(a.capability)
    && a.id == net.nodes[a.index].id && a.trust == net.nodes[a.index].trustScore
  }

  /** The agents to choose from are the capable ones, described as they are, each once. */
  lemma ExtractedAreDescribed(net: Network, task: TaskType, minTrust: real)
    ensures var agents := ExtractAgents(net, task, minTrust);
            && (forall a :: a in agents <==> Describes(net, task, minTrust, a))
            && forall i, j :: 0 <= i < j < |agents| ==> agents[i] != agents[j]
  {
    var agents := ExtractAgents(net, task, minTrust);
    forall a | Describes(net, task, minTrust, a) ensures a in agents {
      var k :| 0 <= k < |agents| && net.CapableAgents(task, minTrust)[k] == a.index;
      assert agents[k] == a;
    }
  }

  lemma ChosenAreDescribed(net: Network, task: TaskType, minTrust: real, chosen: seq<AgentInfo>)
    requires multiset(chosen) <= multiset(ExtractAgents(net, task, minTrust))
    ensures forall a :: a in chosen ==> Describes(net, task, minTrust, a)
  {
    ExtractedAreDescribed(net, task, minTrust);
    hide ExtractAgents, Describes;
    forall a | a in chosen ensures Describes(net, task, minTrust, a) {
      assert a in multiset(chosen);
    }
  }

  predicate CheaperFirst(a: AgentInfo, b: AgentInfo) {
    a.capability.costPerTask <= b.capability.costPerTask
  }

  predicate BetterFirst(a: AgentInfo, b: AgentInfo) {
    a.capability.estimatedQuality >= b.capability.estimatedQuality
  }

  /** Quality first, trust among equals. */
  predicate BetterThenTrusted(a: AgentInfo, b: AgentInfo) {
    || a.capability.estimatedQuality > b.capability.estimatedQuality
    || (a.capability.estimatedQuality == b.capability.estimatedQuality && a.trust >= b.trust)
  }

  function SortedByCost(agents: seq<AgentInfo>): seq<AgentInfo> {
    StableSort(agents, CheaperFirst)
  }

  function SortedByQuality(agents: seq<AgentInfo>): seq<AgentInfo> {
    StableSort(agents, BetterFirst)
  }

  function Ids(agents: seq<AgentInfo>): seq<AgentId> {
    seq(|agents|, i requires 0 <= i < |agents| => agents[i].id)
  }

  function Caps(agents: seq<AgentInfo>): seq<Capability> {
    seq(|agents|, i requires 0 <= i < |agents| => agents[i].capability)
  }

  function RouteIf(pattern: RoutingPattern, agents: seq<AgentId>, m: RouteMetrics, qos: QoS)
    : Result<Route, RoutingError>
  {
    if SatisfiesConstraints(m, qos) then Ok(Route(pattern, agents, m)) else Err(NoFeasibleRoute)
  }

  // ----------------------------------------------------------- draft-refine

  /** The best-quality agent other than the drafter, in sorted order. */
  function FirstOther(agents: seq<AgentInfo>, index: nat): (r: Option<AgentInfo>)
    ensures r.Some? ==> r.value in agents && r.value.index != index
    ensures r.None? ==> forall a :: a in agents ==> a.index == index
  {
    if agents == [] then None
    else if agents[0].index != index then Some(agents[0])
    else FirstOther(agents[1..], index)
  }

  function DraftRefineRoute(net: Network, task: TaskType, qos: QoS): Result<Route, RoutingError> {
    var agents := ExtractAgents(net, task, qos.minTrust);
    if |agents| < 2 then Err(NoFeasibleRoute)
    else
      SortPermutes(agents, CheaperFirst);
      var drafter := SortedByCost(agents)[0];
      match FirstOther(SortedByQuality(agents), drafter.index)
      case None => Err(NoFeasibleRoute)
      case Some(refiner) =>
        var transfer := net.TransferOrDefault(drafter.index, refiner.index);
        RouteIf(DraftRefine, [drafter.id, refiner.id],
                ComputeRouteMetrics([drafter.capability, refiner.capability], [transfer]), qos)
  }

  // ------------------------------------------------ parallel merge, ensemble

  function Miss(a: AgentInfo): real {
    1.0 - ClampUnit(a.capability.estimatedQuality)
  }

  /** The probability that every selected agent fails. */
  function MissProduct(agents: seq<AgentInfo>): real {
    if agents == [] then 1.0 else Times(Miss(agents[0]), MissProduct(agents[1..]))
  }

  function CombinedQuality(agents: seq<AgentInfo>): real {
    1.0 - MissProduct(agents)
  }

  function MaxLatency(agents: seq<AgentInfo>): Duration {
    if agents == [] then 0.0 else Max(agents[0].capability.estimatedLatency, MaxLatency(agents[1..]))
  }

  function RedundantMetrics(selected: seq<AgentInfo>, overhead: Duration): RouteMetrics {
    RouteMetrics(CombinedQuality(selected), MaxLatency(selected) + overhead, CostSum(Caps(selected)))
  }

  const MERGE_OVERHEAD: Duration := 0.01
  const VOTING_OVERHEAD: Duration := 0.005

  function ParallelMergeRoute(net: Network, task: TaskType, qos: QoS, parallelism: nat): Result<Route, RoutingError> {
    var agents := ExtractAgents(net, task, qos.minTrust);
    var n := if parallelism <= |agents| then parallelism else |agents|;
    if n < 2 then Err(NoFeasibleRoute)
    else
      var selected := Take(SortedByQuality(agents), n);
      RouteIf(ParallelMerge, Ids(selected), RedundantMetrics(selected, MERGE_OVERHEAD), qos)
  }

  function EnsembleOrder(agents: seq<AgentInfo>): seq<AgentInfo> {
    StableSort(SortedByQuality(agents), BetterThenTrusted)
  }

  function EnsembleRoute(net: Network, task: TaskType, qos: QoS, size: nat): Result<Route, RoutingError> {
    var agents := ExtractAgents(net, task, qos.minTrust);
    var n := if size <= |agents| then size else |agents|;
    if n < 2 then Err(NoFeasibleRoute)
    else
      var selected := Take(EnsembleOrder(agents), n);
      RouteIf(Ensemble, Ids(selected), RedundantMetrics(selected, VOTING_OVERHEAD), qos)
  }

  // ------------------------------------------------------------------ cascade

  /** The running totals of the cascade loop. */
  datatype Escalation = Escalation(quality: real, latency: real, cost: real, reach: real)

  /** The chance that an agent of (clamped) quality `q` is confident enough to keep the task. */
  function Confidence(q: real, threshold: real): real {
    if q >= threshold then q else q * 0.5
  }

  /** The expected hop to the next level, if there is one. */
  function HopAfter(net: Network, chain: seq<AgentInfo>, i: nat): Duration
    requires i < |chain|
  {
    if i + 1 < |chain| then net.TransferOrDefault(chain[i].index, chain[i + 1].index) else 0.0
  }

  function Escalate(e: Escalation, cap: Capability, hop: Duration, threshold: real): Escalation {
    var q := ClampUnit(cap.estimatedQuality);
    var keep := Confidence(q, threshold);
    var left := Times(e.reach, 1.0 - keep);
    Escalation(e.quality + Times(Times(e.reach, keep), q),
               e.latency + Times(e.reach, cap.estimatedLatency) + Times(left, hop),
               e.cost + Times(e.reach, cap.costPerTask),
               left)
  }

  lemma EscalateShrinksReach(e: Escalation, cap: Capability, hop: Duration, threshold: real)
    requires 0.0 <= e.reach <= 1.0 && 0.0 <= e.latency
    ensures 0.0 <= Escalate(e, cap, hop, threshold).reach <= e.reach
    ensures e.latency <= Escalate(e, cap, hop, threshold).latency
  {
    hide Times;
    var left := Times(e.reach, 1.0 - Confidence(ClampUnit(cap.estimatedQuality), threshold));
    UnitTimes(e.reach, 1.0 - Confidence(ClampUnit(cap.estimatedQuality), threshold));
    TimesNonNegative(e.reach, cap.estimatedLatency);
    TimesNonNegative(left, hop);
  }

  function EscalateThrough(net: Network, chain: seq<AgentInfo>, threshold: real, n: nat): (e: Escalation)
    requires n <= |chain|
    ensures 0.0 <= e.reach <= 1.0 && 0.0 <= e.latency
  {
    if n == 0 then Escalation(0.0, 0.0, 0.0, 1.0)
    else
      var before := EscalateThrough(net, chain, threshold, n - 1);
      EscalateShrinksReach(before, chain[n - 1].capability, HopAfter(net, chain, n - 1), threshold);
      Escalate(before, chain[n - 1].capability, HopAfter(net, chain, n - 1), threshold)
  }

  lemma EscalateNone(net: Network, chain: seq<AgentInfo>, threshold: real)
    ensures EscalateThrough(net, chain, threshold, 0) == Escalation(0.0, 0.0, 0.0, 1.0)
  {}

  lemma EscalateNext(net: Network, chain: seq<AgentInfo>, threshold: real, n: nat)
    requires n < |chain|
    ensures EscalateThrough(net, chain, threshold, n + 1) ==
            Escalate(EscalateThrough(net, chain, threshold, n), chain[n].capability, HopAfter(net, chain, n), threshold)
  {}

  /** Expected quality before clamping: whoever is last handles what nobody kept. */
  function ExpectedQuality(net: Network, chain: seq<AgentInfo>, threshold: real): real
    requires chain != []
  {
    var e := EscalateThrough(net, chain, threshold, |chain|);
    if e.reach > 0.0 then e.quality + Times(e.reach, chain[|chain| - 1].capability.estimatedQuality) else e.quality
  }

  function CascadeMetrics(net: Network, chain: seq<AgentInfo>, threshold: real): RouteMetrics
    requires chain != []
  {
    var e := EscalateThrough(net, chain, threshold, |chain|);
    RouteMetrics(ClampUnit(ExpectedQuality(net, chain, threshold)), e.latency, e.cost)
  }

  /** The up to four cheapest agents, cheapest first. */
  function CascadeChain(net: Network, task: TaskType, minTrust: real): seq<AgentInfo> {
    Take(SortedByCost(ExtractAgents(net, task, minTrust)), 4)
  }

  function CascadeRoute(net: Network, task: TaskType, qos: QoS, threshold: real): Result<Route, RoutingError> {
    var chain := CascadeChain(net, task, qos.minTrust);
    if chain == [] then Err(NoFeasibleRoute)
    else RouteIf(Cascade, Ids(chain), CascadeMetrics(net, chain, threshold), qos)
  }

  /** The body of the escalation loop: one level on the four accumulators, with a hop only if another level follows. */
  method EscalateLevel(e: Escalation, cap: Capability, next: Option<Duration>, threshold: real) returns (r: Escalation)
    ensures r == Escalate(e, cap, if next.Some? then next.value else 0.0, threshold)
  {
    hide Times;
    var q := ClampUnit(cap.estimatedQuality);
    var pConfident := Confidence(q, threshold);
    var pHandle := Times(e.reach, pConfident);
    var expectedQuality := e.quality + Times(pHandle, q);
    var expectedLatency := e.latency + Times(e.reach, cap.estimatedLatency);
    var expectedCost := e.cost + Times(e.reach, cap.costPerTask);
    var left := Times(e.reach, 1.0 - pConfident);
    if next.Some? {
      expectedLatency := expectedLatency + Times(left, next.value);
    } else {
      TimesZero(left);
    }
    r := Escalation(expectedQuality, expectedLatency, expectedCost, left);
  }

  /** The escalation loop, and the fallback of whatever is left to the last agent. */
  method CascadePattern(net: Network, task: TaskType, qos: QoS, threshold: real)
    returns (r: Result<Route, RoutingError>)
    ensures r == CascadeRoute(net, task, qos, threshold)
  {
    hide Times, EscalateThrough, CascadeChain, Escalate;
    var chain := CascadeChain(net, task, qos.minTrust);
    if |chain| == 0 { return Err(NoFeasibleRoute); }
    EscalateNone(net, chain, threshold);
    var e := Escalation(0.0, 0.0, 0.0, 1.0);
    for i := 0 to |chain|
      invariant e == EscalateThrough(net, chain, threshold, i)
    {
      EscalateNext(net, chain, threshold, i);
      var next := if i + 1 < |chain| then Some(net.TransferOrDefault(chain[i].index, chain[i + 1].index)) else None;
      e := EscalateLevel(e, chain[i].capability, next, threshold);
    }
    var expectedQuality := e.quality;
    if e.reach > 0.0 {
      expectedQuality := expectedQuality + Times(e.reach, chain[|chain| - 1].capability.estimatedQuality);
    }
    assert expectedQuality == ExpectedQuality(net, chain, threshold);
    assert RouteMetrics(ClampUnit(expectedQuality), e.latency, e.cost) == CascadeMetrics(net, chain, threshold);
    r := RouteIf(Cascade, Ids(chain), RouteMetrics(ClampUnit(expectedQuality), e.latency, e.cost), qos);
  }

  // ------------------------------------------------------- automatic choice

  predicate AtMost(a: real, b: real) {
    a <= b
  }

  function Prices(agents: seq<AgentInfo>): (r: seq<real>)
    ensures |r| == |agents|
  {
    seq(|agents|, i requires 0 <= i < |agents| => agents[i].capability.costPerTask)
  }

  function MedianCost(agents: seq<AgentInfo>): real
    requires agents != []
  {
    SortPermutes(Prices(agents), AtMost);
    StableSort(Prices(agents), AtMost)[|agents| / 2]
  }

  /** The first agent of the list that meets the bounds alone. */
  function FirstSolo(agents: seq<AgentInfo>, qos: QoS): Result<Route, RoutingError> {
    if agents == [] then Err(NoFeasibleRoute)
    else if SatisfiesConstraints(Solo(agents[0].capability), qos)
    then Ok(Route(Pipeline, [agents[0].id], Solo(agents[0].capability)))
    else FirstSolo(agents[1..], qos)
  }

  function OrElse(a: Result<Route, RoutingError>, b: Result<Route, RoutingError>): Result<Route, RoutingError> {
    if a.Ok? then a else b
  }

  function When(guard: bool, r: Result<Route, RoutingError>): Result<Route, RoutingError> {
    if guard then r else Err(NoFeasibleRoute)
  }

  function AutoSelect(net: Network, task: TaskType, qos: QoS): Result<Route, RoutingError> {
    var agents := ExtractAgents(net, task, qos.minTrust);
    if agents == [] then Err(NoFeasibleRoute)
    else
      var several := |agents| >= 2;
      var tightBudget := qos.maxCost < MedianCost(agents) * 1.5;
      OrElse(When(tightBudget && several, OrElse(CascadeRoute(net, task, qos, 0.7), DraftRefineRoute(net, task, qos))),
      OrElse(When(qos.minQuality >= 0.9 && several, EnsembleRoute(net, task, qos, 3)),
      OrElse(When(qos.maxLatency <= 0.5 && several, ParallelMergeRoute(net, task, qos, 3)),
      FirstSolo(SortedByCost(agents), qos))))
  }

  // ----------------------------------------------------------- properties

  lemma ComparatorsAreOrders()
    ensures TotalPreorder(CheaperFirst) && TotalPreorder(BetterFirst) && TotalPreorder(BetterThenTrusted)
        && TotalPreorder(AtMost)
  {}

  /** The chance that level `n` keeps a task that reaches it. */
  function KeepChance(chain: seq<AgentInfo>, threshold: real, n: nat): real
    requires n < |chain|
  {
    Confidence(ClampUnit(chain[n].capability.estimatedQuality), threshold)
  }

  function Reach(net: Network, chain: seq<AgentInfo>, threshold: real, n: nat): (r: real)
    requires n <= |chain|
    ensures 0.0 <= r <= 1.0
  {
    EscalateThrough(net, chain, threshold, n).reach
  }

  lemma NextLevel(net: Network, chain: seq<AgentInfo>, threshold: real, n: nat)
    requires n < |chain|
    ensures var e, e' := EscalateThrough(net, chain, threshold, n), EscalateThrough(net, chain, threshold, n + 1);
            var keep, cap := KeepChance(chain, threshold, n), chain[n].capability;
            && e'.reach == Times(e.reach, 1.0 - keep)
            && e'.cost == e.cost + Times(e.reach, cap.costPerTask)
            && e'.quality == e.quality + Times(Times(e.reach, keep), ClampUnit(cap.estimatedQuality))
            && e'.latency == e.latency + Times(e.reach, cap.estimatedLatency) + Times(e'.reach, HopAfter(net, chain, n))
  {
    hide Times, EscalateThrough, HopAfter;
    EscalateNext(net, chain, threshold, n);
  }

  /** What a level keeps and what it passes on make up what reaches it. */
  lemma SplitChance(reach: real, keep: real)
    ensures Times(reach, keep) + Times(reach, 1.0 - keep) == reach
  {
    hide Times;
    TimesSubtracts(reach, 1.0, keep);
    TimesOne(reach);
  }

  /** Chances kept up to level `n`. */
  ghost function Handled(net: Network, chain: seq<AgentInfo>, threshold: real, n: nat): real
    requires n <= |chain|
  {
    if n == 0 then 0.0
    else Handled(net, chain, threshold, n - 1)
         + Times(Reach(net, chain, threshold, n - 1), KeepChance(chain, threshold, n - 1))
  }

  /** Probability is conserved at every level of a cascade. */
  lemma {:induction false} CascadeConservesProbability(net: Network, chain: seq<AgentInfo>, threshold: real, n: nat)
    requires n <= |chain|
    ensures Handled(net, chain, threshold, n) + Reach(net, chain, threshold, n) == 1.0
  {
    hide Times, EscalateThrough, KeepChance, HopAfter;
    if n == 0 {
      EscalateNone(net, chain, threshold);
    } else {
      CascadeConservesProbability(net, chain, threshold, n - 1);
      NextLevel(net, chain, threshold, n - 1);
      SplitChance(Reach(net, chain, threshold, n - 1), KeepChance(chain, threshold, n - 1));
    }
  }

  // ------------------------------------------ bounds on a cascade's figures

  /** `x` is an average of values between `lo` and `hi` that carries the given share of the weight. */
  ghost predicate Averages(x: real, weight: real, lo: real, hi: real) {
    Times(lo, weight) <= x <= Times(hi, weight)
  }

  /** Handing a share of the weight to one more value keeps an average between its bounds. */
  lemma AveragesMore(x: real, weight: real, share: real, y: real, lo: real, hi: real)
    requires Averages(x, weight, lo, hi) && 0.0 <= share && lo <= y <= hi
    ensures Averages(x + Times(share, y), weight + share, lo, hi)
  {
    hide Times;
    TimesAdds(lo, weight, share);
    TimesAdds(hi, weight, share);
    TimesMonotone(share, lo, y);
    TimesMonotone(share, y, hi);
    TimesCommutes(share, lo);
    TimesCommutes(share, hi);
  }

  lemma AveragesNothing(lo: real, hi: real)
    ensures Averages(0.0, 0.0, lo, hi)
  {
    TimesZero(lo);
    TimesZero(hi);
  }

  lemma AveragesAll(x: real, lo: real, hi: real)
    ensures Averages(x, 1.0, lo, hi) <==> lo <= x <= hi
  {
    TimesOne(lo);
    TimesOne(hi);
  }

  /** Every agent's quality, as it is scored, lies between `lo` and `hi`. */
  ghost predicate QualitiesWithin(chain: seq<AgentInfo>, lo: real, hi: real) {
    forall i :: 0 <= i < |chain| ==> lo <= ClampUnit(chain[i].capability.estimatedQuality) <= hi
  }

  lemma KeepIsChance(chain: seq<AgentInfo>, threshold: real, n: nat)
    requires n < |chain|
    ensures 0.0 <= KeepChance(chain, threshold, n) <= 1.0
  {}

  lemma {:induction false} KeptQualityBounds(net: Network, chain: seq<AgentInfo>, threshold: real, n: nat, lo: real,
                                             hi: real)
    requires n <= |chain| && QualitiesWithin(chain, lo, hi)
    ensures Averages(EscalateThrough(net, chain, threshold, n).quality, 1.0 - Reach(net, chain, threshold, n), lo, hi)
  {
    hide Times, EscalateThrough, Averages, KeepChance, HopAfter;
    if n == 0 {
      EscalateNone(net, chain, threshold);
      AveragesNothing(lo, hi);
    } else {
      KeptQualityBounds(net, chain, threshold, n - 1, lo, hi);
      NextLevel(net, chain, threshold, n - 1);
      KeepIsChance(chain, threshold, n - 1);
      var reach, keep := Reach(net, chain, threshold, n - 1), KeepChance(chain, threshold, n - 1);
      SplitChance(reach, keep);
      TimesNonNegative(reach, keep);
      AveragesMore(EscalateThrough(net, chain, threshold, n - 1).quality, 1.0 - reach, Times(reach, keep),
                   ClampUnit(chain[n - 1].capability.estimatedQuality), lo, hi);
    }
  }

  /** The last agent is charged with its unclamped quality; the final clamp makes up for it. */
  lemma ClampedRemainder(kept: real, reach: real, last: real, lo: real, hi: real)
    requires 0.0 <= reach <= 1.0 && Averages(kept, 1.0 - reach, lo, hi) && lo <= ClampUnit(last) <= hi
    ensures lo <= ClampUnit(kept + Times(reach, last)) <= hi
  {
    hide Times, Averages;
    AveragesMore(kept, 1.0 - reach, reach, ClampUnit(last), lo, hi);
    AveragesAll(kept + Times(reach, ClampUnit(last)), lo, hi);
    if last > 1.0 { TimesMonotone(reach, 1.0, last); }
    if last < 0.0 { TimesMonotone(reach, last, 0.0); }
  }

  lemma NothingLeft(net: Network, chain: seq<AgentInfo>, threshold: real)
    requires chain != []
    ensures var e := EscalateThrough(net, chain, threshold, |chain|);
            ExpectedQuality(net, chain, threshold) ==
            e.quality + Times(e.reach, chain[|chain| - 1].capability.estimatedQuality)
  {
    TimesZero(chain[|chain| - 1].capability.estimatedQuality);
  }

  /**
   * The reported quality of a cascade lies between its worst and its best member, whatever their estimates.
   * When the last agent's estimate is a probability the final clamp changes nothing.
   */
  lemma CascadeQualityBounds(net: Network, chain: seq<AgentInfo>, threshold: real, lo: real, hi: real)
    requires chain != [] && QualitiesWithin(chain, lo, hi)
    ensures lo <= CascadeMetrics(net, chain, threshold).quality <= hi
    ensures 0.0 <= chain[|chain| - 1].capability.estimatedQuality <= 1.0 ==>
              CascadeMetrics(net, chain, threshold).quality == ExpectedQuality(net, chain, threshold)
  {
    hide Times, EscalateThrough, Averages;
    var e, last := EscalateThrough(net, chain, threshold, |chain|), chain[|chain| - 1].capability.estimatedQuality;
    NothingLeft(net, chain, threshold);
    KeptQualityBounds(net, chain, threshold, |chain|, lo, hi);
    ClampedRemainder(e.quality, e.reach, last, lo, hi);
    KeptQualityBounds(net, chain, threshold, |chain|, 0.0, 1.0);
    if 0.0 <= last <= 1.0 {
      AveragesMore(e.quality, 1.0 - e.reach, e.reach, last, 0.0, 1.0);
      AveragesAll(e.quality + Times(e.reach, last), 0.0, 1.0);
    }
  }

  /** The price of the first `n` levels when every one of them is reached. */
  function PriceSum(chain: seq<AgentInfo>, n: nat): real
    requires n <= |chain|
  {
    if n == 0 then 0.0 else PriceSum(chain, n - 1) + chain[n - 1].capability.costPerTask
  }

  ghost predicate RunningTotalsWithin(chain: seq<AgentInfo>, n: nat, lo: real, hi: real)
    requires n <= |chain|
  {
    forall k :: 0 < k <= n ==> lo <= PriceSum(chain, k) <= hi
  }

  /** Stopping after one more level: the expected price is an average of running totals. */
  lemma StoppingStep(cost: real, reach: real, left: real, total: real, price: real, lo: real, hi: real)
    requires left <= reach && lo <= total + price <= hi
    requires Averages(cost - Times(reach, total), 1.0 - reach, lo, hi)
    ensures Averages(cost + Times(reach, price) - Times(left, total + price), 1.0 - left, lo, hi)
  {
    hide Times, Averages;
    var y, share := total + price, reach - left;
    AveragesMore(cost - Times(reach, total), 1.0 - reach, share, y, lo, hi);
    TimesAdds(reach, total, price);
    TimesSubtracts(y, reach, left);
    TimesCommutes(y, reach);
    TimesCommutes(y, left);
    TimesCommutes(y, share);
  }

  lemma {:induction false} StoppingAverages(net: Network, chain: seq<AgentInfo>, threshold: real, n: nat, lo: real,
                                            hi: real)
    requires n <= |chain| && RunningTotalsWithin(chain, n, lo, hi)
    ensures var e := EscalateThrough(net, chain, threshold, n);
            Averages(e.cost - Times(e.reach, PriceSum(chain, n)), 1.0 - e.reach, lo, hi)
  {
    hide Times, EscalateThrough, Averages, KeepChance, HopAfter;
    if n == 0 {
      EscalateNone(net, chain, threshold);
      TimesZero(1.0);
      AveragesNothing(lo, hi);
    } else {
      StoppingAverages(net, chain, threshold, n - 1, lo, hi);
      NextLevel(net, chain, threshold, n - 1);
      KeepIsChance(chain, threshold, n - 1);
      var e := EscalateThrough(net, chain, threshold, n - 1);
      assert lo <= PriceSum(chain, n) <= hi;
      UnitTimes(e.reach, 1.0 - KeepChance(chain, threshold, n - 1));
      StoppingStep(e.cost, e.reach, EscalateThrough(net, chain, threshold, n).reach, PriceSum(chain, n - 1),
                   chain[n - 1].capability.costPerTask, lo, hi);
    }
  }

  /** Whatever the prices, the expected cost lies between the least and the greatest running total of the chain. */
  lemma CascadeCostBounds(net: Network, chain: seq<AgentInfo>, threshold: real, lo: real, hi: real)
    requires chain != [] && RunningTotalsWithin(chain, |chain|, lo, hi)
    ensures lo <= CascadeMetrics(net, chain, threshold).cost <= hi
  {
    hide Times, EscalateThrough, Averages, ExpectedQuality;
    var n, e := |chain|, EscalateThrough(net, chain, threshold, |chain|);
    StoppingAverages(net, chain, threshold, n, lo, hi);
    var total := PriceSum(chain, n);
    AveragesMore(e.cost - Times(e.reach, total), 1.0 - e.reach, e.reach, total, lo, hi);
    AveragesAll(e.cost, lo, hi);
  }

  ghost predicate NonNegativePrices(chain: seq<AgentInfo>) {
    forall i :: 0 <= i < |chain| ==> 0.0 <= chain[i].capability.costPerTask
  }

  lemma {:induction false} TotalsGrow(chain: seq<AgentInfo>, i: nat, j: nat)
    requires NonNegativePrices(chain) && i <= j <= |chain|
    ensures PriceSum(chain, i) <= PriceSum(chain, j)
  {
    if i < j { TotalsGrow(chain, i, j - 1); }
  }

  /** With non-negative prices: between the first (cheapest) level's price and the price of the whole chain. */
  lemma FairCascadeCost(net: Network, chain: seq<AgentInfo>, threshold: real)
    requires chain != [] && NonNegativePrices(chain)
    ensures chain[0].capability.costPerTask <= CascadeMetrics(net, chain, threshold).cost <= PriceSum(chain, |chain|)
  {
    hide CascadeMetrics;
    assert PriceSum(chain, 1) == PriceSum(chain, 0) + chain[0].capability.costPerTask;
    forall k | 0 < k <= |chain| ensures PriceSum(chain, 1) <= PriceSum(chain, k) <= PriceSum(chain, |chain|) {
      TotalsGrow(chain, 1, k);
      TotalsGrow(chain, k, |chain|);
    }
    CascadeCostBounds(net, chain, threshold, PriceSum(chain, 1), PriceSum(chain, |chain|));
  }

  /** The time the first `n` levels take when every one of them is reached. */
  function FullLatency(net: Network, chain: seq<AgentInfo>, n: nat): Duration
    requires n <= |chain|
  {
    if n == 0 then 0.0
    else FullLatency(net, chain, n - 1) + chain[n - 1].capability.estimatedLatency + HopAfter(net, chain, n - 1)
  }

  /** Expected latency lies between that of the first level and that of running the whole chain. */
  lemma {:induction false} CascadeLatencyBounds(net: Network, chain: seq<AgentInfo>, threshold: real, n: nat)
    requires n <= |chain|
    ensures EscalateThrough(net, chain, threshold, n).latency <= FullLatency(net, chain, n)
    ensures n > 0 ==> chain[0].capability.estimatedLatency <= EscalateThrough(net, chain, threshold, n).latency
  {
    hide Times, EscalateThrough, HopAfter, KeepChance;
    EscalateNone(net, chain, threshold);
    if n > 0 {
      CascadeLatencyBounds(net, chain, threshold, n - 1);
      NextLevel(net, chain, threshold, n - 1);
      var reach, left := Reach(net, chain, threshold, n - 1), Reach(net, chain, threshold, n);
      ShareTimes(reach, chain[n - 1].capability.estimatedLatency);
      ShareTimes(left, HopAfter(net, chain, n - 1));
      if n == 1 { TimesOne(chain[0].capability.estimatedLatency); }
    }
  }

  /** What is taken from a sorted list is sorted, and nothing left out comes before it. */
  lemma TopTaken(sorted: seq<AgentInfo>, le: (AgentInfo, AgentInfo) -> bool, n: nat)
    requires SortedBy(sorted, le)
    ensures SortedBy(Take(sorted, n), le) && multiset(Take(sorted, n)) <= multiset(sorted)
    ensures forall a, c :: a in multiset(sorted) - multiset(Take(sorted, n)) && c in Take(sorted, n) ==> le(c, a)
  {
    var k := |Take(sorted, n)|;
    assert sorted == sorted[..k] + sorted[k..];
    forall a, c | a in sorted[k..] && c in sorted[..k] ensures le(c, a) {
      AcrossCut(sorted, le, k, a, c);
    }
  }

  lemma AcrossCut(sorted: seq<AgentInfo>, le: (AgentInfo, AgentInfo) -> bool, k: nat, a: AgentInfo, c: AgentInfo)
    requires SortedBy(sorted, le) && k <= |sorted| && a in sorted[k..] && c in sorted[..k]
    ensures le(c, a)
  {
    var i :| 0 <= i < k && sorted[..k][i] == c;
    var j :| 0 <= j < |sorted| - k && sorted[k..][j] == a;
    assert sorted[i] == c && sorted[k + j] == a;
  }

  /** The chain is ordered by price, at most four long, and no agent outside it is cheaper than one inside. */
  lemma CascadeUsesCheapest(net: Network, task: TaskType, minTrust: real)
    ensures var agents, chain := ExtractAgents(net, task, minTrust), CascadeChain(net, task, minTrust);
            && |chain| == (if |agents| <= 4 then |agents| else 4) && SortedBy(chain, CheaperFirst)
            && multiset(chain) <= multiset(agents)
            && forall a, c :: a in multiset(agents) - multiset(chain) && c in chain ==> CheaperFirst(c, a)
  {
    hide CheaperFirst, ExtractAgents, StableSort;
    var agents := ExtractAgents(net, task, minTrust);
    assert TotalPreorder(CheaperFirst) by { ComparatorsAreOrders(); }
    SortPermutes(agents, CheaperFirst);
    SortSorts(agents, CheaperFirst);
    TopTaken(SortedByCost(agents), CheaperFirst, 4);
  }

  // -------------------------------------------- a cascade as an expectation

  /** The chance that an agent keeps a task: its quality, and half of that when it falls short of the threshold. */
  function KeepsTask(a: AgentInfo, threshold: real): real {
    var q := ClampUnit(a.capability.estimatedQuality);
    if q < threshold then q / 2.0 else q
  }

  /** What a task is expected to be worth: what the first agent makes of it, or else what the others do. */
  function ExpectedWorth(chain: seq<AgentInfo>, threshold: real): real
    requires chain != []
  {
    var a, keep := chain[0], KeepsTask(chain[0], threshold);
    Times(keep, ClampUnit(a.capability.estimatedQuality))
    + Times(1.0 - keep, if |chain| == 1 then a.capability.estimatedQuality else ExpectedWorth(chain[1..], threshold))
  }

  /** What it is expected to cost: the first agent's price, and the others' when the first passes the task on. */
  function ExpectedPrice(chain: seq<AgentInfo>, threshold: real): real {
    if chain == [] then 0.0
    else chain[0].capability.costPerTask
         + Times(1.0 - KeepsTask(chain[0], threshold), ExpectedPrice(chain[1..], threshold))
  }

  /** The link from the first agent of a chain to the second. */
  function FirstHop(net: Network, chain: seq<AgentInfo>): Duration {
    if |chain| >= 2 then net.TransferOrDefault(chain[0].index, chain[1].index) else 0.0
  }

  /** How long it is expected to take: the first agent's time, and the link and the others' when it is passed on. */
  function ExpectedTime(net: Network, chain: seq<AgentInfo>, threshold: real): real {
    if chain == [] then 0.0
    else chain[0].capability.estimatedLatency
         + Times(1.0 - KeepsTask(chain[0], threshold), FirstHop(net, chain) + ExpectedTime(net, chain[1..], threshold))
  }

  lemma KeepIs(chain: seq<AgentInfo>, threshold: real, n: nat)
    requires n < |chain|
    ensures KeepChance(chain, threshold, n) == KeepsTask(chain[n], threshold)
  {}

  lemma TailAt(net: Network, chain: seq<AgentInfo>, n: nat)
    requires n < |chain|
    ensures chain[n..][0] == chain[n] && chain[n..][1..] == chain[n + 1..]
    ensures FirstHop(net, chain[n..]) == HopAfter(net, chain, n)
  {}

  /** Passing a task on with a chance spreads over a sum. */
  lemma PassOn(reach: real, first: real, left: real, rest: real)
    ensures Times(reach, first + Times(left, rest)) == Times(reach, first) + Times(Times(reach, left), rest)
  {
    hide Times;
    TimesAdds(reach, first, Times(left, rest));
    TimesAssociates(reach, left, rest);
  }

  /** Cost and latency so far, and what is still expected of the rest, always make up the expectation of the chain. */
  lemma {:induction false} RunningExpectation(net: Network, chain: seq<AgentInfo>, threshold: real, n: nat)
    requires n <= |chain|
    ensures var e := EscalateThrough(net, chain, threshold, n);
            && e.cost + Times(e.reach, ExpectedPrice(chain[n..], threshold)) == ExpectedPrice(chain, threshold)
            && e.latency + Times(e.reach, ExpectedTime(net, chain[n..], threshold)) ==
               ExpectedTime(net, chain, threshold)
  {
    hide Times, EscalateThrough, HopAfter, KeepChance, KeepsTask, FirstHop;
    if n == 0 {
      EscalateNone(net, chain, threshold);
      assert chain[0..] == chain;
      TimesOne(ExpectedPrice(chain, threshold));
      TimesOne(ExpectedTime(net, chain, threshold));
    } else {
      var k := n - 1;
      RunningExpectation(net, chain, threshold, k);
      NextLevel(net, chain, threshold, k);
      KeepIs(chain, threshold, k);
      TailAt(net, chain, k);
      var e, cap := EscalateThrough(net, chain, threshold, k), chain[k].capability;
      var left := 1.0 - KeepsTask(chain[k], threshold);
      PassOn(e.reach, cap.costPerTask, left, ExpectedPrice(chain[n..], threshold));
      PassOn(e.reach, cap.estimatedLatency, left, FirstHop(net, chain[k..]) + ExpectedTime(net, chain[n..], threshold));
      TimesAdds(Times(e.reach, left), FirstHop(net, chain[k..]), ExpectedTime(net, chain[n..], threshold));
    }
  }

  lemma {:induction false} RunningWorth(net: Network, chain: seq<AgentInfo>, threshold: real, n: nat)
    requires n < |chain|
    ensures var e := EscalateThrough(net, chain, threshold, n);
            e.quality + Times(e.reach, ExpectedWorth(chain[n..], threshold)) == ExpectedWorth(chain, threshold)
  {
    hide Times, EscalateThrough, HopAfter, KeepChance, KeepsTask, ClampUnit;
    if n == 0 {
      EscalateNone(net, chain, threshold);
      assert chain[0..] == chain;
      TimesOne(ExpectedWorth(chain, threshold));
    } else {
      var k := n - 1;
      RunningWorth(net, chain, threshold, k);
      NextLevel(net, chain, threshold, k);
      KeepIs(chain, threshold, k);
      TailAt(net, chain, k);
      KeptOrPassed(EscalateThrough(net, chain, threshold, k).reach, KeepsTask(chain[k], threshold),
                   ClampUnit(chain[k].capability.estimatedQuality), ExpectedWorth(chain[n..], threshold));
    }
  }

  lemma KeptOrPassed(reach: real, keep: real, worth: real, rest: real)
    ensures Times(reach, Times(keep, worth) + Times(1.0 - keep, rest)) ==
            Times(Times(reach, keep), worth) + Times(Times(reach, 1.0 - keep), rest)
  {
    hide Times;
    TimesAdds(reach, Times(keep, worth), Times(1.0 - keep, rest));
    TimesAssociates(reach, keep, worth);
    TimesAssociates(reach, 1.0 - keep, rest);
  }

  /** The accumulators of the loop arrive at the expectations of the chain. */
  lemma CascadeIsExpectation(net: Network, chain: seq<AgentInfo>, threshold: real)
    requires chain != []
    ensures var m := CascadeMetrics(net, chain, threshold);
            && m.quality == ClampUnit(ExpectedWorth(chain, threshold))
            && m.latency == ExpectedTime(net, chain, threshold) && m.cost == ExpectedPrice(chain, threshold)
  {
    hide Times, EscalateThrough, HopAfter, KeepChance, KeepsTask, ExpectedWorth, ExpectedTime, ExpectedPrice;
    var n := |chain|;
    RunningExpectation(net, chain, threshold, n);
    assert chain[n..] == [];
    NothingExpected(net, threshold);
    TimesZero(EscalateThrough(net, chain, threshold, n).reach);
    NothingLeft(net, chain, threshold);
    RunningWorth(net, chain, threshold, n - 1);
    NextLevel(net, chain, threshold, n - 1);
    KeepIs(chain, threshold, n - 1);
    assert chain[n - 1..] == [chain[n - 1]];
    LastWorth(chain[n - 1], threshold);
    KeptOrPassed(EscalateThrough(net, chain, threshold, n - 1).reach, KeepsTask(chain[n - 1], threshold),
                 ClampUnit(chain[n - 1].capability.estimatedQuality), chain[n - 1].capability.estimatedQuality);
  }

  lemma NothingExpected(net: Network, threshold: real)
    ensures ExpectedPrice([], threshold) == 0.0 && ExpectedTime(net, [], threshold) == 0.0
  {}

  lemma LastWorth(a: AgentInfo, threshold: real)
    ensures ExpectedWorth([a], threshold) ==
            Times(KeepsTask(a, threshold), ClampUnit(a.capability.estimatedQuality))
            + Times(1.0 - KeepsTask(a, threshold), a.capability.estimatedQuality)
  {}

  /** When a cascade route exists, and what it is. */
  lemma CascadeRouteSpec(net: Network, task: TaskType, qos: QoS, threshold: real)
    ensures var chain, r := CascadeChain(net, task, qos.minTrust), CascadeRoute(net, task, qos, threshold);
            if chain == [] then r == Err(NoFeasibleRoute)
            else
              && (r.Ok? <==> ClampUnit(ExpectedWorth(chain, threshold)) >= qos.minQuality
                             && ExpectedTime(net, chain, threshold) <= qos.maxLatency
                             && ExpectedPrice(chain, threshold) <= qos.maxCost)
              && (r.Ok? ==> r.value.pattern == Cascade && r.value.agents == Ids(chain)
                            && r.value.metrics.quality == ClampUnit(ExpectedWorth(chain, threshold))
                            && r.value.metrics.latency == ExpectedTime(net, chain, threshold)
                            && r.value.metrics.cost == ExpectedPrice(chain, threshold))
  {
    var chain := CascadeChain(net, task, qos.minTrust);
    hide CascadeChain, CascadeMetrics, ExpectedWorth, ExpectedTime, ExpectedPrice;
    if chain != [] { CascadeIsExpectation(net, chain, threshold); }
  }

  // --------------------------------------------- choosing the best n agents

  lemma {:induction false} MissProductInUnit(agents: seq<AgentInfo>)
    ensures 0.0 <= MissProduct(agents) <= 1.0
  {
    hide Times;
    if agents != [] {
      MissProductInUnit(agents[1..]);
      UnitTimes(Miss(agents[0]), MissProduct(agents[1..]));
    }
  }

  lemma {:induction false} PairwiseMiss(s: seq<AgentInfo>, t: seq<AgentInfo>)
    requires |s| == |t| && forall i :: 0 <= i < |s| ==> Miss(s[i]) <= Miss(t[i])
    ensures MissProduct(s) <= MissProduct(t)
  {
    hide Times, Miss;
    if s != [] {
      PairwiseMiss(s[1..], t[1..]);
      MissProductInUnit(s[1..]);
      MissIsChance(s[0]);
      TimesOrdered(Miss(s[0]), Miss(t[0]), MissProduct(s[1..]), MissProduct(t[1..]));
    }
  }

  lemma MissCons(a: AgentInfo, rest: seq<AgentInfo>)
    ensures MissProduct([a] + rest) == Times(Miss(a), MissProduct(rest))
  {
    assert ([a] + rest)[1..] == rest;
  }

  /** A factor can be taken out of the product wherever it stands. */
  lemma {:induction false} MissWithout(t: seq<AgentInfo>, k: nat)
    requires k < |t|
    ensures MissProduct(t) == Times(Miss(t[k]), MissProduct(t[..k] + t[k + 1..]))
  {
    hide Times, Miss, MissProduct;
    MissCons(t[0], t[1..]);
    assert t == [t[0]] + t[1..];
    if k == 0 {
      assert t[..0] + t[1..] == t[1..];
    } else {
      var rest := t[1..][..k - 1] + t[1..][k..];
      MissWithout(t[1..], k - 1);
      WithoutCons(t, k);
      MissCons(t[0], rest);
      TimesSwaps(Miss(t[0]), Miss(t[k]), MissProduct(rest));
    }
  }

  lemma WithoutCons(t: seq<AgentInfo>, k: nat)
    requires 0 < k < |t|
    ensures t[..k] + t[k + 1..] == [t[0]] + (t[1..][..k - 1] + t[1..][k..])
  {}

  lemma DropCommon(s: seq<AgentInfo>, t: seq<AgentInfo>, k: nat)
    requires s != [] && k < |t| && t[k] == s[0] && multiset(t) <= multiset(s)
    ensures multiset(t[..k] + t[k + 1..]) <= multiset(s[1..])
  {
    assert s == [s[0]] + s[1..] && t == t[..k] + [t[k]] + t[k + 1..];
    assert multiset(t) == multiset(t[..k] + t[k + 1..]) + multiset{s[0]};
    assert multiset(s) == multiset(s[1..]) + multiset{s[0]};
    forall x ensures multiset(t[..k] + t[k + 1..])[x] <= multiset(s[1..])[x] {
      assert multiset(t)[x] <= multiset(s)[x];
    }
  }

  lemma TakeUnrolls(s: seq<AgentInfo>, n: nat)
    requires 0 < n <= |s|
    ensures MissProduct(Take(s, n)) == Times(Miss(s[0]), MissProduct(Take(s[1..], n - 1)))
  {
    hide Times;
    assert Take(s, n)[1..] == Take(s[1..], n - 1);
  }

  /** Shifting the window of n agents one place down a sorted list cannot lower the product. */
  lemma ShiftedTake(s: seq<AgentInfo>, n: nat)
    requires SortedBy(s, BetterFirst) && n < |s|
    ensures MissProduct(Take(s, n)) <= MissProduct(Take(s[1..], n))
  {
    var a, b := Take(s, n), Take(s[1..], n);
    forall i | 0 <= i < n ensures Miss(a[i]) <= Miss(b[i]) {
      assert BetterFirst(s[i], s[i + 1]);
    }
    PairwiseMiss(a, b);
  }

  /** Putting a common first agent in front of both picks keeps their comparison. */
  lemma PutBack(s: seq<AgentInfo>, t: seq<AgentInfo>, k: nat)
    requires k < |t| <= |s| && t[k] == s[0]
    requires MissProduct(Take(s[1..], |t| - 1)) <= MissProduct(t[..k] + t[k + 1..])
    ensures MissProduct(Take(s, |t|)) <= MissProduct(t)
  {
    hide Times, Miss, MissProduct;
    MissWithout(t, k);
    TakeUnrolls(s, |t|);
    MissIsChance(s[0]);
    TimesMonotone(Miss(s[0]), MissProduct(Take(s[1..], |t| - 1)), MissProduct(t[..k] + t[k + 1..]));
  }

  lemma {:induction false} TopMissesLeast(s: seq<AgentInfo>, t: seq<AgentInfo>)
    requires SortedBy(s, BetterFirst) && multiset(t) <= multiset(s) && |t| <= |s|
    ensures MissProduct(Take(s, |t|)) <= MissProduct(t)
    decreases |s|
  {
    hide Miss, MissProduct, BetterFirst;
    if t == [] {
      assert Take(s, 0) == t;
    } else if s[0] in t {
      var k :| 0 <= k < |t| && t[k] == s[0];
      DropCommon(s, t, k);
      TopMissesLeast(s[1..], t[..k] + t[k + 1..]);
      PutBack(s, t, k);
    } else {
      SkipFirst(s, t);
      TopMissesLeast(s[1..], t);
      ShiftedTake(s, |t|);
    }
  }

  lemma MissIsChance(a: AgentInfo)
    ensures 0.0 <= Miss(a) <= 1.0
  {}

  lemma SkipFirst(s: seq<AgentInfo>, t: seq<AgentInfo>)
    requires s != [] && multiset(t) <= multiset(s) && s[0] !in t
    ensures multiset(t) <= multiset(s[1..]) && |t| < |s|
  {
    assert s == [s[0]] + s[1..];
    assert multiset(s) == multiset{s[0]} + multiset(s[1..]);
    assert multiset(s[1..]) == multiset(t) + (multiset(s[1..]) - multiset(t));
  }

  /**
   * Among all ways to pick n of the capable agents, the pick of `parallel_merge` and of `ensemble` has the
   * greatest combined quality.
   */
  lemma SelectionMaximisesQuality(agents: seq<AgentInfo>, t: seq<AgentInfo>)
    requires multiset(t) <= multiset(agents) && |t| <= |agents|
    ensures CombinedQuality(t) <= CombinedQuality(Take(SortedByQuality(agents), |t|))
    ensures CombinedQuality(t) <= CombinedQuality(Take(EnsembleOrder(agents), |t|))
  {
    ComparatorsAreOrders();
    var q := SortedByQuality(agents);
    SortSorts(agents, BetterFirst);
    SortPermutes(agents, BetterFirst);
    TopMissesLeast(q, t);
    var e := EnsembleOrder(agents);
    SortSorts(q, BetterThenTrusted);
    SortPermutes(q, BetterThenTrusted);
    assert SortedBy(e, BetterFirst) by {
      forall i, j | 0 <= i < j < |e| ensures BetterFirst(e[i], e[j]) {
        assert BetterThenTrusted(e[i], e[j]);
      }
    }
    TopMissesLeast(e, t);
  }

  /**
   * No choice of equally many capable agents has a better combined quality than the route that parallel merge
   * or ensemble returns.
   */
  lemma RedundantRoutesAreBest(net: Network, task: TaskType, qos: QoS, n: nat, t: seq<AgentInfo>)
    requires multiset(t) <= multiset(ExtractAgents(net, task, qos.minTrust))
    requires |t| == |Take(ExtractAgents(net, task, qos.minTrust), n)|
    ensures ParallelMergeRoute(net, task, qos, n).Ok? ==>
              CombinedQuality(t) <= ParallelMergeRoute(net, task, qos, n).value.metrics.quality
    ensures EnsembleRoute(net, task, qos, n).Ok? ==>
              CombinedQuality(t) <= EnsembleRoute(net, task, qos, n).value.metrics.quality
  {
    hide SatisfiesConstraints, MissProduct, EnsembleOrder, StableSort;
    SelectionMaximisesQuality(ExtractAgents(net, task, qos.minTrust), t);
  }

  /** Members work side by side: the slowest one sets the latency. */
  lemma {:induction false} SlowestMember(selected: seq<AgentInfo>)
    requires selected != []
    ensures forall a :: a in selected ==> a.capability.estimatedLatency <= MaxLatency(selected)
    ensures exists a :: a in selected && a.capability.estimatedLatency == MaxLatency(selected)
  {
    if selected[1..] != [] { SlowestMember(selected[1..]); }
    assert selected[0] in selected;
  }

  /** The chance that at least one member succeeds: the first does, or else one of the others. */
  lemma CombinedQualityUnfolds(selected: seq<AgentInfo>)
    ensures selected == [] ==> CombinedQuality(selected) == 0.0
    ensures selected != [] ==>
              var q := ClampUnit(selected[0].capability.estimatedQuality);
              CombinedQuality(selected) == q + Times(1.0 - q, CombinedQuality(selected[1..]))
  {
    hide Times;
    if selected != [] {
      var q, miss := ClampUnit(selected[0].capability.estimatedQuality), MissProduct(selected[1..]);
      TimesSubtracts(1.0 - q, 1.0, miss);
      TimesOne(1.0 - q);
    }
  }

  /** At least as good, and among equally good ones at least as trusted. */
  predicate NoWorse(a: AgentInfo, b: AgentInfo, byTrust: bool) {
    && a.capability.estimatedQuality >= b.capability.estimatedQuality
    && (byTrust && a.capability.estimatedQuality == b.capability.estimatedQuality ==> a.trust >= b.trust)
  }

  /** `selected` are `size` of the agents, or all of them, and no other agent comes before one of them. */
  ghost predicate TopAgents(agents: seq<AgentInfo>, selected: seq<AgentInfo>, size: nat, byTrust: bool) {
    && |selected| == (if size <= |agents| then size else |agents|) && multiset(selected) <= multiset(agents)
    && (forall i, j :: 0 <= i < j < |selected| ==> NoWorse(selected[i], selected[j], byTrust))
    && forall a, c :: a in multiset(agents) - multiset(selected) && c in selected ==> NoWorse(c, a, byTrust)
  }

  /** The route that a selection of redundant agents makes, with the given overhead. */
  ghost predicate Redundant(selected: seq<AgentInfo>, pattern: RoutingPattern, overhead: real, route: Route) {
    && route.pattern == pattern && route.agents == Ids(selected)
    && route.metrics.quality == CombinedQuality(selected)
    && route.metrics.latency == MaxLatency(selected) + overhead
    && route.metrics.cost == CostSum(Caps(selected))
  }

  lemma OrdersAreNoWorse()
    ensures forall a, c :: BetterFirst(c, a) <==> NoWorse(c, a, false)
    ensures forall a, c :: BetterThenTrusted(c, a) <==> NoWorse(c, a, true)
  {}

  lemma TopOfSorted(agents: seq<AgentInfo>, sorted: seq<AgentInfo>, le: (AgentInfo, AgentInfo) -> bool, n: nat,
                    byTrust: bool)
    requires SortedBy(sorted, le) && multiset(sorted) == multiset(agents) && |sorted| == |agents|
    requires forall a, c :: le(c, a) <==> NoWorse(c, a, byTrust)
    ensures TopAgents(agents, Take(sorted, n), n, byTrust)
  {
    TopTaken(sorted, le, n);
    hide NoWorse;
  }

  lemma TopByQuality(agents: seq<AgentInfo>, n: nat)
    ensures TopAgents(agents, Take(SortedByQuality(agents), n), n, false)
  {
    assert TotalPreorder(BetterFirst) by { ComparatorsAreOrders(); }
    OrdersAreNoWorse();
    hide StableSort, TotalPreorder, BetterFirst, BetterThenTrusted, NoWorse, SortedBy, TopAgents;
    SortSorts(agents, BetterFirst);
    SortPermutes(agents, BetterFirst);
    TopOfSorted(agents, SortedByQuality(agents), BetterFirst, n, false);
  }

  lemma TopByQualityAndTrust(agents: seq<AgentInfo>, n: nat)
    ensures TopAgents(agents, Take(EnsembleOrder(agents), n), n, true)
  {
    assert TotalPreorder(BetterThenTrusted) by { ComparatorsAreOrders(); }
    OrdersAreNoWorse();
    hide StableSort, TotalPreorder, BetterFirst, BetterThenTrusted, NoWorse, SortedBy, TopAgents;
    SortPermutes(agents, BetterFirst);
    SortSorts(SortedByQuality(agents), BetterThenTrusted);
    SortPermutes(SortedByQuality(agents), BetterThenTrusted);
    TopOfSorted(agents, EnsembleOrder(agents), BetterThenTrusted, n, true);
  }

  lemma RouteIfSpec(pattern: RoutingPattern, ids: seq<AgentId>, m: RouteMetrics, qos: QoS)
    ensures var r := RouteIf(pattern, ids, m, qos);
            && (r.Ok? <==> m.quality >= qos.minQuality && m.latency <= qos.maxLatency && m.cost <= qos.maxCost)
            && (r.Ok? ==> r.value == Route(pattern, ids, m)) && (r.Err? ==> r.error == NoFeasibleRoute)
  {}

  /** When a parallel-merge route exists, and what it is: the best agents by quality, 10 ms on top of the slowest. */
  lemma ParallelMergeRouteSpec(net: Network, task: TaskType, qos: QoS, size: nat) returns (selected: seq<AgentInfo>)
    ensures var agents, r := ExtractAgents(net, task, qos.minTrust), ParallelMergeRoute(net, task, qos, size);
            && TopAgents(agents, selected, size, false)
            && (r.Err? ==> r.error == NoFeasibleRoute)
            && (r.Ok? ==> Redundant(selected, ParallelMerge, 0.01, r.value))
            && (r.Ok? <==> |selected| >= 2 && CombinedQuality(selected) >= qos.minQuality
                           && MaxLatency(selected) + 0.01 <= qos.maxLatency && CostSum(Caps(selected)) <= qos.maxCost)
  {
    var agents := ExtractAgents(net, task, qos.minTrust);
    selected := Take(SortedByQuality(agents), size);
    TopByQuality(agents, size);
    RouteIfSpec(ParallelMerge, Ids(selected), RedundantMetrics(selected, MERGE_OVERHEAD), qos);
    hide ExtractAgents, StableSort, TopAgents, MissProduct, MaxLatency, CostSum, Ids, Caps, RouteIf;
    SelectedSame(SortedByQuality(agents), size, |agents|);
    assert |SortedByQuality(agents)| == |agents| by { SortPermutes(agents, BetterFirst); }
  }

  lemma SelectedSame(sorted: seq<AgentInfo>, size: nat, count: nat)
    ensures count == |sorted| ==>
              Take(sorted, if size <= count then size else count) == Take(sorted, size)
              && |Take(sorted, size)| == if size <= count then size else count
  {}

  /** The same for an ensemble: ties in quality go to the more trusted, 5 ms on top of the slowest. */
  lemma EnsembleRouteSpec(net: Network, task: TaskType, qos: QoS, size: nat) returns (selected: seq<AgentInfo>)
    ensures var agents, r := ExtractAgents(net, task, qos.minTrust), EnsembleRoute(net, task, qos, size);
            && TopAgents(agents, selected, size, true)
            && (r.Err? ==> r.error == NoFeasibleRoute)
            && (r.Ok? ==> Redundant(selected, Ensemble, 0.005, r.value))
            && (r.Ok? <==> |selected| >= 2 && CombinedQuality(selected) >= qos.minQuality
                           && MaxLatency(selected) + 0.005 <= qos.maxLatency && CostSum(Caps(selected)) <= qos.maxCost)
  {
    var agents := ExtractAgents(net, task, qos.minTrust);
    selected := Take(EnsembleOrder(agents), size);
    TopByQualityAndTrust(agents, size);
    assert |EnsembleOrder(agents)| == |agents| by {
      SortPermutes(agents, BetterFirst);
      SortPermutes(SortedByQuality(agents), BetterThenTrusted);
    }
    RouteIfSpec(Ensemble, Ids(selected), RedundantMetrics(selected, VOTING_OVERHEAD), qos);
    hide ExtractAgents, EnsembleOrder, TopAgents, MissProduct, MaxLatency, CostSum, Ids, Caps, RouteIf;
    SelectedSame(EnsembleOrder(agents), size, |agents|);
  }

  lemma ProductBelowFactor(selected: seq<AgentInfo>, i: nat)
    requires i < |selected|
    ensures MissProduct(selected) <= Miss(selected[i])
  {
    hide Times, Miss, MissProduct;
    var rest := selected[..i] + selected[i + 1..];
    MissWithout(selected, i);
    MissProductInUnit(rest);
    MissIsChance(selected[i]);
    UnitTimes(Miss(selected[i]), MissProduct(rest));
  }

  /** Redundancy never hurts: the combined quality is at least that of every member. */
  lemma CombinedBeatsMembers(selected: seq<AgentInfo>, i: nat)
    requires i < |selected|
    ensures ClampUnit(selected[i].capability.estimatedQuality) <= CombinedQuality(selected) <= 1.0
  {
    hide MissProduct;
    ProductBelowFactor(selected, i);
    MissProductInUnit(selected);
  }

  // ------------------------------------------------- the automatic choice

  /** Whatever pattern is chosen, the route meets the bounds. */
  lemma AutoSelectMeetsBounds(net: Network, task: TaskType, qos: QoS)
    ensures AutoSelect(net, task, qos).Ok? ==> SatisfiesConstraints(AutoSelect(net, task, qos).value.metrics, qos)
    ensures AutoSelect(net, task, qos).Err? ==> AutoSelect(net, task, qos).error == NoFeasibleRoute
  {
    var agents := ExtractAgents(net, task, qos.minTrust);
    if agents != [] { FirstSoloSpec(SortedByCost(agents), qos); }
  }

  /**
   * The first solo route in a list is there exactly when some agent meets the bounds alone, and nobody before
   * it does.
   */
  lemma {:induction false} FirstSoloSpec(agents: seq<AgentInfo>, qos: QoS)
    ensures var r := FirstSolo(agents, qos);
            && (r.Ok? <==> exists a :: a in agents && SatisfiesConstraints(Solo(a.capability), qos))
            && (r.Ok? ==> exists i ::
                  && 0 <= i < |agents| && SatisfiesConstraints(Solo(agents[i].capability), qos)
                  && r.value == Route(Pipeline, [agents[i].id], Solo(agents[i].capability))
                  && forall j :: 0 <= j < i ==> !SatisfiesConstraints(Solo(agents[j].capability), qos))
            && (r.Err? ==> r.error == NoFeasibleRoute)
  {
    hide SatisfiesConstraints, Solo;
    if agents != [] && !SatisfiesConstraints(Solo(agents[0].capability), qos) {
      FirstSoloSpec(agents[1..], qos);
      if FirstSolo(agents, qos).Ok? {
        var i :| 0 <= i < |agents[1..]| && SatisfiesConstraints(Solo(agents[1..][i].capability), qos)
                 && FirstSolo(agents, qos).value == Route(Pipeline, [agents[1..][i].id],
                                                          Solo(agents[1..][i].capability))
                 && forall j :: 0 <= j < i ==> !SatisfiesConstraints(Solo(agents[1..][j].capability), qos);
        forall j | 0 <= j < i + 1 ensures !SatisfiesConstraints(Solo(agents[j].capability), qos) {
          if j > 0 { assert agents[j] == agents[1..][j - 1]; }
        }
        assert agents[i + 1] == agents[1..][i];
      }
    }
  }

  ghost predicate SoloFeasible(net: Network, task: TaskType, qos: QoS) {
    exists i :: net.IsCapable(i, task, qos.minTrust) && SatisfiesConstraints(Solo(net.CapabilityAt(i, task).value), qos)
  }

  /** If any capable agent meets the bounds alone, the automatic choice succeeds. */
  lemma AutoSelectFindsSolo(net: Network, task: TaskType, qos: QoS)
    requires SoloFeasible(net, task, qos)
    ensures AutoSelect(net, task, qos).Ok?
  {
    hide SatisfiesConstraints, Solo;
    var i :| net.IsCapable(i, task, qos.minTrust) && SatisfiesConstraints(Solo(net.CapabilityAt(i, task).value), qos);
    var agents := ExtractAgents(net, task, qos.minTrust);
    assert i in net.CapableAgents(task, qos.minTrust);
    var k :| 0 <= k < |agents| && net.CapableAgents(task, qos.minTrust)[k] == i;
    assert agents[k] == InfoOf(net, task, i);
    SortPermutes(agents, CheaperFirst);
    assert agents[k] in SortedByCost(agents);
    FirstSoloSpec(SortedByCost(agents), qos);
  }

  /** The default choice is a cheapest among the agents that meet the bounds alone. */
  lemma DefaultIsCheapestSolo(net: Network, task: TaskType, qos: QoS, a: AgentInfo)
    requires a in ExtractAgents(net, task, qos.minTrust) && SatisfiesConstraints(Solo(a.capability), qos)
    ensures FirstSolo(SortedByCost(ExtractAgents(net, task, qos.minTrust)), qos).Ok?
    ensures var chosen := FirstSolo(SortedByCost(ExtractAgents(net, task, qos.minTrust)), qos).value;
            chosen.metrics.cost <= a.capability.costPerTask
  {
    hide SatisfiesConstraints, ExtractAgents, StableSort, FirstSolo, Solo, TotalPreorder, CheaperFirst;
    var agents := ExtractAgents(net, task, qos.minTrust);
    var sorted := SortedByCost(agents);
    assert TotalPreorder(CheaperFirst) by { ComparatorsAreOrders(); }
    SortPermutes(agents, CheaperFirst);
    SortSorts(agents, CheaperFirst);
    FirstSoloSpec(sorted, qos);
    var k :| 0 <= k < |sorted| && sorted[k] == a;
    var i :| 0 <= i < |sorted| && SatisfiesConstraints(Solo(sorted[i].capability), qos)
             && FirstSolo(sorted, qos).value == Route(Pipeline, [sorted[i].id], Solo(sorted[i].capability))
             && forall j :: 0 <= j < i ==> !SatisfiesConstraints(Solo(sorted[j].capability), qos);
    SoloMetrics(sorted[i].capability);
    assert i <= k;
    CheaperAt(sorted, i, k);
  }

  lemma CheaperAt(sorted: seq<AgentInfo>, i: nat, k: nat)
    requires SortedBy(sorted, CheaperFirst) && i <= k < |sorted|
    ensures sorted[i].capability.costPerTask <= sorted[k].capability.costPerTask
  {
    if i < k { assert CheaperFirst(sorted[i], sorted[k]); }
  }

  /**
   * Draft-refine pairs a cheapest agent with a best agent among the others, and always finds both when two
   * agents exist.
   */
  lemma DraftRefineRoles(agents: seq<AgentInfo>)
    requires |agents| >= 2 && forall i, j :: 0 <= i < j < |agents| ==> agents[i].index != agents[j].index
    ensures |SortedByCost(agents)| == |agents|
    ensures var drafter := SortedByCost(agents)[0];
            && drafter in agents
            && (forall a :: a in agents ==> drafter.capability.costPerTask <= a.capability.costPerTask)
            && var r := FirstOther(SortedByQuality(agents), drafter.index);
               && r.Some? && r.value in agents && r.value.index != drafter.index
               && forall a :: a in agents && a.index != drafter.index ==>
                                a.capability.estimatedQuality <= r.value.capability.estimatedQuality
  {
    ComparatorsAreOrders();
    SortPermutes(agents, CheaperFirst);
    SortSorts(agents, CheaperFirst);
    SortPermutes(agents, BetterFirst);
    SortSorts(agents, BetterFirst);
    var c, q := SortedByCost(agents), SortedByQuality(agents);
    var drafter := c[0];
    assert drafter in c;
    forall a | a in agents ensures drafter.capability.costPerTask <= a.capability.costPerTask {
      var k :| 0 <= k < |c| && c[k] == a;
      assert k > 0 ==> CheaperFirst(c[0], c[k]);
    }
    FirstOtherIsBest(q, drafter.index);
    assert agents[0] in q && agents[1] in q;
  }

  ghost predicate DraftRefinePair(net: Network, task: TaskType, minTrust: real, i: nat, j: nat) {
    && net.IsCapable(i, task, minTrust) && net.IsCapable(j, task, minTrust) && i != j
    && (forall k :: net.IsCapable(k, task, minTrust) ==>
          net.CapabilityAt(i, task).value.costPerTask <= net.CapabilityAt(k, task).value.costPerTask)
    && (forall k :: net.IsCapable(k, task, minTrust) && k != i ==>
          net.CapabilityAt(k, task).value.estimatedQuality <= net.CapabilityAt(j, task).value.estimatedQuality)
  }

  lemma InfosAreDistinct(net: Network, task: TaskType, minTrust: real)
    ensures var agents := ExtractAgents(net, task, minTrust);
            && (forall a, b :: 0 <= a < b < |agents| ==> agents[a].index != agents[b].index)
            && (forall a :: a in agents ==> net.IsCapable(a.index, task, minTrust) && a == InfoOf(net, task, a.index))
            && (forall i :: net.IsCapable(i, task, minTrust) ==> InfoOf(net, task, i) in agents)
  {}

  lemma RolesMakePair(net: Network, task: TaskType, minTrust: real, i: nat, j: nat)
    requires var agents := ExtractAgents(net, task, minTrust);
             && |agents| >= 2 && i == SortedByCost(agents)[0].index
             && FirstOther(SortedByQuality(agents), i).Some? && j == FirstOther(SortedByQuality(agents), i).value.index
    ensures DraftRefinePair(net, task, minTrust, i, j)
    ensures SortedByCost(ExtractAgents(net, task, minTrust))[0] == InfoOf(net, task, i)
    ensures FirstOther(SortedByQuality(ExtractAgents(net, task, minTrust)), i).value == InfoOf(net, task, j)
  {
    var agents := ExtractAgents(net, task, minTrust);
    InfosAreDistinct(net, task, minTrust);
    DraftRefineRoles(agents);
    hide FirstOther, SortedByCost, SortedByQuality, ExtractAgents, StableSort;
    forall k | net.IsCapable(k, task, minTrust)
      ensures net.CapabilityAt(i, task).value.costPerTask <= net.CapabilityAt(k, task).value.costPerTask
      ensures k != i ==>
                net.CapabilityAt(k, task).value.estimatedQuality <= net.CapabilityAt(j, task).value.estimatedQuality
    {
      assert InfoOf(net, task, k) in agents;
    }
  }

  /**
   * When a draft-refine route exists, and what it is: with two capable agents, from a cheapest one to a best one
   * among the others, if the metrics of that hop meet the bounds.
   */
  lemma DraftRefineRouteSpec(net: Network, task: TaskType, qos: QoS) returns (i: nat, j: nat)
    ensures DraftRefineRoute(net, task, qos).Err? ==> DraftRefineRoute(net, task, qos).error == NoFeasibleRoute
    ensures |net.CapableAgents(task, qos.minTrust)| < 2 ==> DraftRefineRoute(net, task, qos).Err?
    ensures |net.CapableAgents(task, qos.minTrust)| >= 2 ==>
              && DraftRefinePair(net, task, qos.minTrust, i, j)
              && DraftRefined(net, task, qos, i, j, DraftRefineRoute(net, task, qos))
  {
    hide StableSort, ComputeRouteMetrics, ExtractAgents, FirstOther, DraftRefinePair, DraftRefined, RouteIf,
         Network.CapabilityAt, Network.TransferOrDefault;
    var agents := ExtractAgents(net, task, qos.minTrust);
    i, j := 0, 0;
    if |agents| >= 2 {
      RefinerExists(net, task, qos.minTrust);
      i := SortedByCost(agents)[0].index;
      j := FirstOther(SortedByQuality(agents), i).value.index;
      RolesMakePair(net, task, qos.minTrust, i, j);
      PairIsCapable(net, task, qos.minTrust, i, j);
      RefinedIs(net, task, qos, i, j);
    }
    assert DraftRefineRoute(net, task, qos).Err? ==> DraftRefineRoute(net, task, qos).error == NoFeasibleRoute by {
      PatternErrs(net, task, qos);
    }
  }

  lemma PatternErrs(net: Network, task: TaskType, qos: QoS)
    ensures DraftRefineRoute(net, task, qos).Err? ==> DraftRefineRoute(net, task, qos).error == NoFeasibleRoute
  {
    hide StableSort, ComputeRouteMetrics, ExtractAgents, FirstOther;
  }

  lemma PairIsCapable(net: Network, task: TaskType, minTrust: real, i: nat, j: nat)
    requires DraftRefinePair(net, task, minTrust, i, j)
    ensures i < |net.nodes| && j < |net.nodes|
    ensures net.CapabilityAt(i, task).Some? && net.CapabilityAt(j, task).Some?
  {}

  lemma RefinedIs(net: Network, task: TaskType, qos: QoS, i: nat, j: nat)
    requires i < |net.nodes| && j < |net.nodes| && net.CapabilityAt(i, task).Some? && net.CapabilityAt(j, task).Some?
    requires var agents := ExtractAgents(net, task, qos.minTrust);
             && |agents| >= 2 && |SortedByCost(agents)| == |agents| && SortedByCost(agents)[0] == InfoOf(net, task, i)
             && FirstOther(SortedByQuality(agents), i) == Some(InfoOf(net, task, j))
    ensures DraftRefined(net, task, qos, i, j, DraftRefineRoute(net, task, qos))
  {
    hide StableSort, ComputeRouteMetrics, ExtractAgents, FirstOther, Network.CapabilityAt, Network.TransferOrDefault,
         RouteIf;
    var a, b, hop := net.CapabilityAt(i, task).value, net.CapabilityAt(j, task).value, net.TransferOrDefault(i, j);
    HopMetrics(a, b, hop);
    RouteIfSpec(DraftRefine, [net.nodes[i].id, net.nodes[j].id], ComputeRouteMetrics([a, b], [hop]), qos);
  }

  /** The route from drafter `i` to refiner `j`, if it meets the bounds. */
  ghost predicate DraftRefined(net: Network, task: TaskType, qos: QoS, i: nat, j: nat, r: Result<Route, RoutingError>)
    requires net.CapabilityAt(i, task).Some? && net.CapabilityAt(j, task).Some?
  {
    var a, b := net.CapabilityAt(i, task).value, net.CapabilityAt(j, task).value;
    var quality := Times(ClampUnit(a.estimatedQuality), ClampUnit(b.estimatedQuality));
    var latency := a.estimatedLatency + b.estimatedLatency + net.TransferOrDefault(i, j);
    var cost := a.costPerTask + b.costPerTask;
    && (r.Ok? <==> quality >= qos.minQuality && latency <= qos.maxLatency && cost <= qos.maxCost)
    && (r.Ok? ==> r.value.pattern == DraftRefine && r.value.agents == [net.nodes[i].id, net.nodes[j].id])
    && (r.Ok? ==> r.value.metrics == RouteMetrics(quality, latency, cost))
  }

  /** Among two capable agents, somebody is not the drafter. */
  lemma RefinerExists(net: Network, task: TaskType, minTrust: real)
    requires |ExtractAgents(net, task, minTrust)| >= 2
    ensures var agents := ExtractAgents(net, task, minTrust);
            && |SortedByCost(agents)| == |agents|
            && FirstOther(SortedByQuality(agents), SortedByCost(agents)[0].index).Some?
  {
    InfosAreDistinct(net, task, minTrust);
    hide ExtractAgents, StableSort, FirstOther;
    DraftRefineRoles(ExtractAgents(net, task, minTrust));
  }

  lemma HopMetrics(a: Capability, b: Capability, hop: Duration)
    ensures ComputeRouteMetrics([a, b], [hop]) ==
            RouteMetrics(Times(ClampUnit(a.estimatedQuality), ClampUnit(b.estimatedQuality)),
                         a.estimatedLatency + b.estimatedLatency + hop,
                         a.costPerTask + b.costPerTask)
  {
    assert [a, b][1..] == [b] && [b][1..] == [] && [hop][1..] == [];
    var q := ClampUnit(b.estimatedQuality);
    assert QualityProduct([b]) == Times(q, QualityProduct([])) == q by { TimesOne(q); }
    assert LatencySum([b]) == b.estimatedLatency + LatencySum([]);
    assert CostSum([b]) == b.costPerTask + CostSum([]);
    assert TransferSum([hop]) == hop + TransferSum([]);
  }

  lemma {:induction false} FirstOtherIsBest(q: seq<AgentInfo>, index: nat)
    requires SortedBy(q, BetterFirst) && FirstOther(q, index).Some?
    ensures forall a :: a in q && a.index != index ==>
                          a.capability.estimatedQuality <= FirstOther(q, index).value.capability.estimatedQuality
  {
    if q[0].index == index {
      FirstOtherIsBest(q[1..], index);
    } else {
      forall a | a in q ensures a.capability.estimatedQuality <= q[0].capability.estimatedQuality {
        var k :| 0 <= k < |q| && q[k] == a;
        assert k > 0 ==> BetterFirst(q[0], q[k]);
      }
    }
  }
}
