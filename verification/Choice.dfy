/** Which route the automatic choice takes: a priority table on figures the caller has. */
module Choice {
  import opened Prelude
  import opened Types
  import opened Cost
  import opened Graph
  import opened Sequences
  import opened Patterns

  // ---------------------------------------------------------- the median

  function CountWhere(s: seq<real>, p: real -> bool): nat {
    if s == [] then 0 else (if p(s[0]) then 1 else 0) + CountWhere(s[1..], p)
  }

  function Below(m: real): real -> bool {
    x => x < m
  }

  function Above(m: real): real -> bool {
    x => x > m
  }

  /** A price of the list with at most half the list below it, and fewer than the other half above it. */
  ghost predicate IsMedian(prices: seq<real>, m: real) {
    && m in prices
    && CountWhere(prices, Below(m)) <= |prices| / 2
    && CountWhere(prices, Above(m)) <= |prices| - 1 - |prices| / 2
  }

  lemma {:induction false} CountConcat(a: seq<real>, b: seq<real>, p: real -> bool)
    ensures CountWhere(a + b, p) == CountWhere(a, p) + CountWhere(b, p)
  {
    if a == [] {
      assert a + b == b;
    } else {
      CountConcat(a[1..], b, p);
      assert (a + b)[1..] == a[1..] + b;
    }
  }

  lemma {:induction false} CountInserted(x: real, s: seq<real>, le: (real, real) -> bool, p: real -> bool)
    ensures CountWhere(Insert(x, s, le), p) == (if p(x) then 1 else 0) + CountWhere(s, p)
  {
    if s == [] || le(x, s[0]) {
      assert ([x] + s)[1..] == s;
    } else {
      CountInserted(x, s[1..], le, p);
      assert ([s[0]] + Insert(x, s[1..], le))[1..] == Insert(x, s[1..], le);
    }
  }

  lemma {:induction false} CountSorted(s: seq<real>, le: (real, real) -> bool, p: real -> bool)
    ensures CountWhere(StableSort(s, le), p) == CountWhere(s, p)
  {
    if s != [] {
      CountSorted(s[1..], le, p);
      CountInserted(s[0], StableSort(s[1..], le), le, p);
    }
  }

  lemma {:induction false} CountNone(s: seq<real>, p: real -> bool)
    requires forall i :: 0 <= i < |s| ==> !p(s[i])
    ensures CountWhere(s, p) == 0
  {
    if s != [] {
      assert forall i :: 0 <= i < |s[1..]| ==> s[1..][i] == s[i + 1];
      CountNone(s[1..], p);
    }
  }

  lemma {:induction false} CountAtMost(s: seq<real>, p: real -> bool)
    ensures CountWhere(s, p) <= |s|
  {
    if s != [] { CountAtMost(s[1..], p); }
  }

  /** The middle element of a sorted list is a median of it. */
  lemma MiddleIsMedian(s: seq<real>)
    requires s != [] && forall i, j :: 0 <= i < j < |s| ==> s[i] <= s[j]
    ensures IsMedian(s, s[|s| / 2])
  {
    var k := |s| / 2;
    var m := s[k];
    assert s == s[..k] + s[k..] && s == s[..k + 1] + s[k + 1..];
    forall j | 0 <= j < |s[k..]| ensures !Below(m)(s[k..][j]) {
      assert s[k + j] == s[k..][j];
    }
    CountConcat(s[..k], s[k..], Below(m));
    CountNone(s[k..], Below(m));
    CountAtMost(s[..k], Below(m));
    var low := s[..k + 1];
    forall j | 0 <= j < |low| ensures !Above(m)(low[j]) {
      assert low[j] == s[j];
    }
    CountConcat(s[..k + 1], s[k + 1..], Above(m));
    CountNone(s[..k + 1], Above(m));
    CountAtMost(s[k + 1..], Above(m));
  }

  lemma MedianCostIsMedian(agents: seq<AgentInfo>)
    requires agents != []
    ensures IsMedian(Prices(agents), MedianCost(agents))
  {
    var prices := Prices(agents);
    var sorted := StableSort(prices, AtMost);
    SortPermutes(prices, AtMost);
    assert TotalPreorder(AtMost);
    SortSorts(prices, AtMost);
    hide StableSort, CountWhere, TotalPreorder;
    forall i, j | 0 <= i < j < |sorted| ensures sorted[i] <= sorted[j] { assert AtMost(sorted[i], sorted[j]); }
    MiddleIsMedian(sorted);
    var m := sorted[|sorted| / 2];
    CountSorted(prices, AtMost, Below(m));
    CountSorted(prices, AtMost, Above(m));
  }

  lemma {:induction false} CountSplit(s: seq<real>, a: real, b: real)
    requires a < b
    ensures CountWhere(s, Above(a)) + CountWhere(s, Below(b)) >= |s|
  {
    if s != [] { CountSplit(s[1..], a, b); }
  }

  /** A list has one median. */
  lemma MedianIsUnique(s: seq<real>, a: real, b: real)
    requires IsMedian(s, a) && IsMedian(s, b)
    ensures a == b
  {
    if a < b { CountSplit(s, a, b); }
    if b < a { CountSplit(s, b, a); }
  }

  // ---------------------------------------- the cheapest agent on its own

  function PriceAt(net: Network, task: TaskType, i: nat): real
    requires net.CapabilityAt(i, task).Some?
  {
    net.CapabilityAt(i, task).value.costPerTask
  }

  ghost predicate FeasibleAlone(net: Network, task: TaskType, qos: QoS, i: nat) {
    && net.IsCapable(i, task, qos.minTrust)
    && var c := net.CapabilityAt(i, task).value;
       && ClampUnit(c.estimatedQuality) >= qos.minQuality && c.estimatedLatency <= qos.maxLatency
       && c.costPerTask <= qos.maxCost
  }

  /** The cheapest agent that is feasible alone; of equally cheap ones the first. */
  ghost predicate CheapestAlone(net: Network, task: TaskType, qos: QoS, i: nat) {
    && FeasibleAlone(net, task, qos, i)
    && forall k :: FeasibleAlone(net, task, qos, k) ==>
         PriceAt(net, task, i) < PriceAt(net, task, k) || (PriceAt(net, task, i) == PriceAt(net, task, k) && i <= k)
  }

  /** The route of one agent. */
  ghost predicate RouteAlone(net: Network, task: TaskType, i: nat, route: Route)
    requires net.CapabilityAt(i, task).Some?
  {
    var c := net.CapabilityAt(i, task).value;
    && route.pattern == Pipeline && i < |net.nodes| && route.agents == [net.nodes[i].id]
    && route.metrics == RouteMetrics(ClampUnit(c.estimatedQuality), c.estimatedLatency, c.costPerTask)
  }

  ghost predicate SoloChoice(net: Network, task: TaskType, qos: QoS, r: Result<Route, RoutingError>) {
    if exists i :: FeasibleAlone(net, task, qos, i)
    then r.Ok? && exists i :: CheapestAlone(net, task, qos, i) && RouteAlone(net, task, i, r.value)
    else r == Err(NoFeasibleRoute)
  }

  /** By price, and by position among equal prices. */
  predicate PriceThenPlace(a: AgentInfo, b: AgentInfo) {
    || a.capability.costPerTask < b.capability.costPerTask
    || (a.capability.costPerTask == b.capability.costPerTask && a.index <= b.index)
  }

  ghost predicate Ascending(agents: seq<AgentInfo>) {
    forall i, j :: 0 <= i < j < |agents| ==> agents[i].index < agents[j].index
  }

  lemma {:induction false} InsertFirst(x: AgentInfo, s: seq<AgentInfo>)
    requires SortedBy(s, PriceThenPlace) && forall y :: y in s ==> x.index < y.index
    ensures SortedBy(Insert(x, s, CheaperFirst), PriceThenPlace)
  {
    if s != [] && !CheaperFirst(x, s[0]) {
      assert forall y :: y in s[1..] ==> y in s;
      InsertFirst(x, s[1..]);
      InsertKeeps(x, s[1..], CheaperFirst);
      var t := Insert(x, s[1..], CheaperFirst);
      forall k | 0 <= k < |t| ensures PriceThenPlace(s[0], t[k]) {
        assert t[k] in multiset(t);
        assert t[k] == x || t[k] in s[1..];
      }
    }
  }

  /** Sorting by price keeps agents of the same price in their places. */
  lemma {:induction false} SortedByPriceAndPlace(agents: seq<AgentInfo>)
    requires Ascending(agents)
    ensures SortedBy(SortedByCost(agents), PriceThenPlace)
  {
    if agents != [] {
      SortedByPriceAndPlace(agents[1..]);
      SortPermutes(agents[1..], CheaperFirst);
      forall y | y in agents[1..] ensures agents[0].index < y.index {
        var k :| 0 <= k < |agents[1..]| && agents[1..][k] == y;
        assert agents[k + 1] == y;
      }
      InsertFirst(agents[0], StableSort(agents[1..], CheaperFirst));
    }
  }

  lemma ExtractedAscend(net: Network, task: TaskType, minTrust: real)
    ensures Ascending(ExtractAgents(net, task, minTrust))
  {
    var capable := net.CapableAgents(task, minTrust);
    assert forall a, b :: 0 <= a < b < |capable| ==> capable[a] < capable[b];
  }

  lemma FeasibleAloneIs(net: Network, task: TaskType, qos: QoS, a: AgentInfo)
    requires a in ExtractAgents(net, task, qos.minTrust)
    ensures net.IsCapable(a.index, task, qos.minTrust) && a == InfoOf(net, task, a.index)
    ensures FeasibleAlone(net, task, qos, a.index) <==> SatisfiesConstraints(Solo(a.capability), qos)
  {
    InfosAreDistinct(net, task, qos.minTrust);
    hide ExtractAgents, Network.CapabilityAt;
    SoloMetrics(a.capability);
  }

  lemma FeasibleAloneExtracted(net: Network, task: TaskType, qos: QoS, i: nat)
    requires FeasibleAlone(net, task, qos, i)
    ensures InfoOf(net, task, i) in ExtractAgents(net, task, qos.minTrust)
  {
    InfosAreDistinct(net, task, qos.minTrust);
    hide ExtractAgents;
  }

  /** The default of the automatic choice is the cheapest agent that is feasible alone. */
  lemma FirstSoloIsCheapest(net: Network, task: TaskType, qos: QoS)
    ensures SoloChoice(net, task, qos, FirstSolo(SortedByCost(ExtractAgents(net, task, qos.minTrust)), qos))
  {
    var agents := ExtractAgents(net, task, qos.minTrust);
    var sorted := SortedByCost(agents);
    var r := FirstSolo(sorted, qos);
    ExtractedAscend(net, task, qos.minTrust);
    SortedByPriceAndPlace(agents);
    SortPermutes(agents, CheaperFirst);
    FirstSoloSpec(sorted, qos);
    hide SatisfiesConstraints, ExtractAgents, StableSort, FirstSolo, Solo, FeasibleAlone, PriceThenPlace, Ascending,
         CheapestAlone, RouteAlone, SortedBy;
    if r.Ok? {
      var k :| 0 <= k < |sorted| && SatisfiesConstraints(Solo(sorted[k].capability), qos)
               && r.value == Route(Pipeline, [sorted[k].id], Solo(sorted[k].capability))
               && forall j :: 0 <= j < k ==> !SatisfiesConstraints(Solo(sorted[j].capability), qos);
      FirstIsChosen(net, task, qos, sorted, k, r.value);
    } else {
      NobodyAlone(net, task, qos, sorted);
    }
  }

  lemma FirstIsChosen(net: Network, task: TaskType, qos: QoS, sorted: seq<AgentInfo>, k: nat, route: Route)
    requires k < |sorted| && SortedBy(sorted, PriceThenPlace)
    requires forall a :: a in sorted <==> a in ExtractAgents(net, task, qos.minTrust)
    requires SatisfiesConstraints(Solo(sorted[k].capability), qos)
    requires forall j :: 0 <= j < k ==> !SatisfiesConstraints(Solo(sorted[j].capability), qos)
    requires route == Route(Pipeline, [sorted[k].id], Solo(sorted[k].capability))
    ensures SoloChoice(net, task, qos, Ok(route))
  {
    hide SatisfiesConstraints, ExtractAgents, Solo, FeasibleAlone, PriceThenPlace, CheapestAlone, RouteAlone, SortedBy;
    assert sorted[k] in sorted;
    FeasibleAloneIs(net, task, qos, sorted[k]);
    FirstIsCheapest(net, task, qos, sorted, k);
    RouteOfFirst(net, task, sorted[k], route);
  }

  lemma NobodyAlone(net: Network, task: TaskType, qos: QoS, sorted: seq<AgentInfo>)
    requires forall a :: a in sorted <==> a in ExtractAgents(net, task, qos.minTrust)
    requires forall a :: a in sorted ==> !SatisfiesConstraints(Solo(a.capability), qos)
    ensures forall i: nat :: !FeasibleAlone(net, task, qos, i)
  {
    hide SatisfiesConstraints, ExtractAgents, Solo, FeasibleAlone;
    forall i: nat ensures !FeasibleAlone(net, task, qos, i) {
      if FeasibleAlone(net, task, qos, i) {
        FeasibleIsCapable(net, task, qos, i);
        FeasibleAloneExtracted(net, task, qos, i);
        FeasibleAloneIs(net, task, qos, InfoOf(net, task, i));
      }
    }
  }

  lemma FeasibleIsCapable(net: Network, task: TaskType, qos: QoS, i: nat)
    requires FeasibleAlone(net, task, qos, i)
    ensures net.CapabilityAt(i, task).Some?
  {}

  lemma RouteOfFirst(net: Network, task: TaskType, a: AgentInfo, route: Route)
    requires net.CapabilityAt(a.index, task).Some? && a == InfoOf(net, task, a.index)
    requires route == Route(Pipeline, [a.id], Solo(a.capability))
    ensures RouteAlone(net, task, a.index, route)
  {
    SoloMetrics(a.capability);
  }

  lemma FirstIsCheapest(net: Network, task: TaskType, qos: QoS, sorted: seq<AgentInfo>, k: nat)
    requires k < |sorted| && SortedBy(sorted, PriceThenPlace)
    requires forall a :: a in sorted <==> a in ExtractAgents(net, task, qos.minTrust)
    requires FeasibleAlone(net, task, qos, sorted[k].index)
    requires forall j :: 0 <= j < k ==> !SatisfiesConstraints(Solo(sorted[j].capability), qos)
    ensures CheapestAlone(net, task, qos, sorted[k].index)
  {
    hide SatisfiesConstraints, ExtractAgents, Solo, SortedBy;
    assert sorted[k] in sorted;
    FeasibleAloneIs(net, task, qos, sorted[k]);
    forall i | FeasibleAlone(net, task, qos, i)
      ensures PriceAt(net, task, sorted[k].index) < PriceAt(net, task, i) ||
              (PriceAt(net, task, sorted[k].index) == PriceAt(net, task, i) && sorted[k].index <= i)
    {
      FeasibleAloneExtracted(net, task, qos, i);
      var a := InfoOf(net, task, i);
      FeasibleAloneIs(net, task, qos, a);
      var j :| 0 <= j < |sorted| && sorted[j] == a;
      if j > k { SortedAt(sorted, k, j); }
    }
  }

  lemma SortedAt(sorted: seq<AgentInfo>, i: nat, j: nat)
    requires SortedBy(sorted, PriceThenPlace) && i < j < |sorted|
    ensures PriceThenPlace(sorted[i], sorted[j])
  {}

  // --------------------------------------------------- what a pattern makes

  ghost predicate WithinBounds(quality: real, latency: real, cost: real, qos: QoS) {
    quality >= qos.minQuality && latency <= qos.maxLatency && cost <= qos.maxCost
  }

  /** Of the selected three best agents: all run, the slowest sets the pace, and one of them has to succeed. */
  ghost predicate RunsAll(net: Network, task: TaskType, qos: QoS, selected: seq<AgentInfo>, pattern: RoutingPattern,
                          overhead: real, r: Result<Route, RoutingError>)
  {
    && TopAgents(ExtractAgents(net, task, qos.minTrust), selected, 3, pattern == Ensemble)
    && (forall a :: a in selected ==> Describes(net, task, qos.minTrust, a))
    && (r.Ok? ==> Redundant(selected, pattern, overhead, r.value)) && (r.Err? ==> r.error == NoFeasibleRoute)
    && (r.Ok? <==> |selected| >= 2 && WithinBounds(CombinedQuality(selected), MaxLatency(selected) + overhead,
                                                   CostSum(Caps(selected)), qos))
  }

  /** The up to four cheapest agents, cheapest first. */
  ghost predicate FourCheapest(agents: seq<AgentInfo>, chain: seq<AgentInfo>) {
    && |chain| == (if |agents| <= 4 then |agents| else 4) && SortedBy(chain, CheaperFirst)
    && multiset(chain) <= multiset(agents)
    && forall a, c :: a in multiset(agents) - multiset(chain) && c in chain ==> CheaperFirst(c, a)
  }

  /** They are asked in turn, and a task they pass on at a confidence of 0.7 is costed as an expectation. */
  ghost predicate AsksInTurn(net: Network, task: TaskType, qos: QoS, chain: seq<AgentInfo>,
                             r: Result<Route, RoutingError>)
  {
    && FourCheapest(ExtractAgents(net, task, qos.minTrust), chain)
    && (forall a :: a in chain ==> Describes(net, task, qos.minTrust, a)) && (r.Err? ==> r.error == NoFeasibleRoute)
    && (chain == [] ==> r.Err?)
    && (chain != [] ==>
          var quality, latency, cost :=
            ClampUnit(ExpectedWorth(chain, 0.7)), ExpectedTime(net, chain, 0.7), ExpectedPrice(chain, 0.7);
          && (r.Ok? <==> WithinBounds(quality, latency, cost, qos))
          && (r.Ok? ==> r.value.pattern == Cascade && r.value.agents == Ids(chain))
          && (r.Ok? ==> r.value.metrics.quality == quality && r.value.metrics.latency == latency &&
                        r.value.metrics.cost == cost))
  }

  /** A cheapest agent drafts and a best other one refines. */
  ghost predicate RefinesDraft(net: Network, task: TaskType, qos: QoS, r: Result<Route, RoutingError>) {
    && (r.Err? ==> r.error == NoFeasibleRoute)
    && (|net.CapableAgents(task, qos.minTrust)| < 2 ==> r.Err?)
    && (|net.CapableAgents(task, qos.minTrust)| >= 2 ==>
          exists i, j :: DraftRefinePair(net, task, qos.minTrust, i, j) && DraftRefined(net, task, qos, i, j, r))
  }

  /** What each of the four patterns makes of the capable agents, on their figures. */
  ghost predicate PatternMakes(net: Network, pattern: RoutingPattern, task: TaskType, qos: QoS,
                               r: Result<Route, RoutingError>)
  {
    match pattern
    case DraftRefine => RefinesDraft(net, task, qos, r)
    case ParallelMerge => exists selected :: RunsAll(net, task, qos, selected, ParallelMerge, 0.01, r)
    case Cascade => exists chain :: AsksInTurn(net, task, qos, chain, r)
    case Ensemble => exists selected :: RunsAll(net, task, qos, selected, Ensemble, 0.005, r)
    case Pipeline => true
  }

  lemma CascadeMakes(net: Network, task: TaskType, qos: QoS)
    ensures PatternMakes(net, Cascade, task, qos, CascadeRoute(net, task, qos, 0.7))
  {
    hide AsksInTurn, CascadeRoute;
    CascadeAsksInTurn(net, task, qos);
  }

  lemma CascadeAsksInTurn(net: Network, task: TaskType, qos: QoS)
    ensures AsksInTurn(net, task, qos, CascadeChain(net, task, qos.minTrust), CascadeRoute(net, task, qos, 0.7))
  {
    hide Describes, ExtractAgents, CascadeChain, CascadeRoute, ExpectedWorth, ExpectedTime, ExpectedPrice, CheaperFirst,
         Ids, FourCheapest, ClampUnit;
    var chain := CascadeChain(net, task, qos.minTrust);
    ChainIsFourCheapest(net, task, qos.minTrust);
    CascadeRouteSpec(net, task, qos, 0.7);
    CascadeErrs(net, task, qos);
  }

  lemma CascadeErrs(net: Network, task: TaskType, qos: QoS)
    ensures CascadeRoute(net, task, qos, 0.7).Err? ==> CascadeRoute(net, task, qos, 0.7).error == NoFeasibleRoute
  {
    hide CascadeChain, CascadeMetrics, Ids, SatisfiesConstraints;
  }

  lemma ChainIsFourCheapest(net: Network, task: TaskType, minTrust: real)
    ensures var chain := CascadeChain(net, task, minTrust);
            FourCheapest(ExtractAgents(net, task, minTrust), chain) &&
            forall a :: a in chain ==> Describes(net, task, minTrust, a)
  {
    hide Describes, ExtractAgents, CascadeChain, CheaperFirst;
    CascadeUsesCheapest(net, task, minTrust);
    ChosenAreDescribed(net, task, minTrust, CascadeChain(net, task, minTrust));
  }

  lemma DraftRefineMakes(net: Network, task: TaskType, qos: QoS)
    ensures PatternMakes(net, DraftRefine, task, qos, DraftRefineRoute(net, task, qos))
  {
    var i, j := DraftRefineRouteSpec(net, task, qos);
    hide DraftRefinePair, DraftRefined, DraftRefineRoute;
  }

  lemma ParallelMergeMakes(net: Network, task: TaskType, qos: QoS)
    ensures PatternMakes(net, ParallelMerge, task, qos, ParallelMergeRoute(net, task, qos, 3))
  {
    var selected := ParallelMergeRouteSpec(net, task, qos, 3);
    ChosenAreDescribed(net, task, qos.minTrust, selected);
    hide Describes, ExtractAgents, TopAgents, CombinedQuality, MaxLatency, CostSum, Caps, Redundant, ParallelMergeRoute;
    assert RunsAll(net, task, qos, selected, ParallelMerge, 0.01, ParallelMergeRoute(net, task, qos, 3));
  }

  lemma EnsembleMakes(net: Network, task: TaskType, qos: QoS)
    ensures PatternMakes(net, Ensemble, task, qos, EnsembleRoute(net, task, qos, 3))
  {
    var selected := EnsembleRouteSpec(net, task, qos, 3);
    ChosenAreDescribed(net, task, qos.minTrust, selected);
    hide Describes, ExtractAgents, TopAgents, CombinedQuality, MaxLatency, CostSum, Caps, Redundant, EnsembleRoute;
    assert RunsAll(net, task, qos, selected, Ensemble, 0.005, EnsembleRoute(net, task, qos, 3));
  }

  // ------------------------------------------------------------ the table

  /**
   * The table, for a median price `m` of the capable agents. With two or more of them: under a budget below one
   * and a half medians the cascade if it is feasible, else draft-refine if that is; else, from a quality floor of
   * 0.9 on, the ensemble of three; else, up to a latency of half a second, the parallel merge of three. When none
   * of these applies, the cheapest agent that is feasible alone.
   */
  ghost predicate ByTable(net: Network, task: TaskType, qos: QoS, m: real, r: Result<Route, RoutingError>) {
    var several, tight := |net.CapableAgents(task, qos.minTrust)| >= 2, 2.0 * qos.maxCost < 3.0 * m;
    var cascade, draft := CascadeRoute(net, task, qos, 0.7), DraftRefineRoute(net, task, qos);
    var ensemble, merge := EnsembleRoute(net, task, qos, 3), ParallelMergeRoute(net, task, qos, 3);
    if several && tight && cascade.Ok? then r == cascade
    else if several && tight && draft.Ok? then r == draft
    else if several && qos.minQuality >= 0.9 && ensemble.Ok? then r == ensemble
    else if several && qos.maxLatency <= 0.5 && merge.Ok? then r == merge
    else SoloChoice(net, task, qos, r)
  }

  /** The prices of the capable agents. */
  ghost function CapablePrices(net: Network, task: TaskType, minTrust: real): (r: seq<real>)
    ensures |r| == |net.CapableAgents(task, minTrust)|
  {
    var capable := net.CapableAgents(task, minTrust);
    assert forall i :: 0 <= i < |capable| ==> net.IsCapable(capable[i], task, minTrust);
    seq(|capable|, i requires 0 <= i < |capable| => PriceAt(net, task, capable[i]))
  }

  /** What the automatic choice is: nothing without capable agents, otherwise the table's entry. */
  ghost predicate Chosen(net: Network, task: TaskType, qos: QoS, r: Result<Route, RoutingError>) {
    if forall i :: !net.IsCapable(i, task, qos.minTrust) then r == Err(NoFeasibleRoute)
    else exists m :: IsMedian(CapablePrices(net, task, qos.minTrust), m) && ByTable(net, task, qos, m, r)
  }

  lemma PricesAreCapable(net: Network, task: TaskType, minTrust: real)
    ensures Prices(ExtractAgents(net, task, minTrust)) == CapablePrices(net, task, minTrust)
  {}

  lemma ExtractedIffCapable(net: Network, task: TaskType, minTrust: real)
    ensures ExtractAgents(net, task, minTrust) == [] <==> forall i :: !net.IsCapable(i, task, minTrust)
  {
    var capable := net.CapableAgents(task, minTrust);
    hide Network.IsCapable;
    if capable != [] { assert capable[0] in capable; }
  }

  /** The automatic choice follows the table. */
  lemma AutoSelectIsChosen(net: Network, task: TaskType, qos: QoS)
    ensures Chosen(net, task, qos, AutoSelect(net, task, qos))
  {
    var agents := ExtractAgents(net, task, qos.minTrust);
    ExtractedIffCapable(net, task, qos.minTrust);
    if agents != [] {
      var m := MedianCost(agents);
      MedianCostIsMedian(agents);
      PricesAreCapable(net, task, qos.minTrust);
      FirstSoloIsCheapest(net, task, qos);
      hide ExtractAgents, CascadeRoute, DraftRefineRoute, EnsembleRoute, ParallelMergeRoute, FirstSolo, SortedByCost,
           MedianCost, SoloChoice, IsMedian, CapablePrices, Prices;
      assert ByTable(net, task, qos, m, AutoSelect(net, task, qos));
    }
  }
}
