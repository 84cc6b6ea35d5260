/** When exploring with Bellman-Ford can rescue a failed automatic choice: exactly under a negative budget. */
module Exploration {
  import opened Prelude
  import opened Products
  import opened Types
  import opened Cost
  import opened Graph
  import opened Sequences
  import opened ShortestPaths
  import opened BellmanFord
  import opened PathMetrics
  import opened Sweep
  import opened Optimizer
  import opened Patterns
  import opened Router

  /** No network, task, model or bounds with the budget `b` has a feasible candidate after a failed automatic choice. */
  ghost predicate ExploringAddsNothing(b: real) {
    forall net: Network, task: TaskType, qos: QoS, model: CostModel ::
      net.Valid() && qos.maxCost == b && AutoSelect(net, task, qos).Err? ==> !SweepFinds(net, task, qos, model)
  }

  lemma NothingToRescue(net: Network, task: TaskType, qos: QoS, model: CostModel)
    requires 0.0 <= qos.maxCost && AutoSelect(net, task, qos).Err?
    ensures !SweepFinds(net, task, qos, model)
  {
    hide AutoSelect, SweepDelivers, SomeFeasible, SoloFeasible;
    if SweepFinds(net, task, qos, model) {
      var results :| SweepDelivers(net, task, qos.minTrust, model, results) && SomeFeasible(results, qos);
      SweepFeasibleIffSolo(net, task, qos, model, results);
      AutoSelectFindsSolo(net, task, qos);
    }
  }

  // ------------------------------------------- three agents in a line

  /** A perfect, instant agent that pays a third of what the negative budget `b` demands. */
  function Third(b: real): Capability {
    Capability(Analysis, 1.0, 0.0, b / 3.0)
  }

  function Bounds(b: real): QoS {
    QoS(0.5, 1.0, b, 0.0)
  }

  const MODEL := CostModel(1.0, 1.0)

  const LINE: seq<nat> := [0, 1, 2]

  /** Three such agents, linked 0 to 1 to 2 without delay. */
  ghost predicate Line(net: Network, b: real) {
    && net.Valid() && |net.nodes| == 3
    && (forall i: nat :: i < 3 ==>
          net.nodes[i].available && net.nodes[i].trustScore >= 0.0 && net.nodes[i].capabilities == [Third(b)])
    && (forall i: nat, j: nat :: i < 3 ==> net.TransferLatency(i, j) == if j == i + 1 && j < 3 then Some(0.0) else None)
  }

  lemma LineCapabilities(net: Network, b: real)
    requires Line(net, b)
    ensures forall i: nat :: i < 3 ==> net.CapabilityAt(i, Analysis) == Some(Third(b))
    ensures forall i: nat :: net.IsCapable(i, Analysis, 0.0) <==> i < 3
  {}

  lemma LineAgents(net: Network, b: real)
    requires Line(net, b)
    ensures net.CapableAgents(Analysis, 0.0) == LINE
  {
    LineCapabilities(net, b);
    hide Line, Network.IsCapable, Network.CapabilityAt;
    assert net.CapableBelow(0, Analysis, 0.0) == [];
    assert net.CapableBelow(1, Analysis, 0.0) == [0];
    assert net.CapableBelow(2, Analysis, 0.0) == [0, 1];
    assert net.CapableBelow(3, Analysis, 0.0) == [0, 1, 2];
    assert |net.nodes| == 3 by { LineLength(net, b); }
  }

  lemma LineLength(net: Network, b: real)
    requires Line(net, b)
    ensures |net.nodes| == 3
  {}

  // ------------------------------------------ the automatic choice fails

  lemma LineInfos(net: Network, b: real, a: AgentInfo)
    requires Line(net, b) && a in ExtractAgents(net, Analysis, 0.0)
    ensures a.capability == Third(b)
  {
    LineCapabilities(net, b);
    InfosAreDistinct(net, Analysis, 0.0);
    hide ExtractAgents;
  }

  /** A first level of full quality keeps every task, so nothing is spent on the others. */
  lemma {:induction false} FirstLevelKeepsAll(net: Network, chain: seq<AgentInfo>, threshold: real, n: nat)
    requires 1 <= n <= |chain| && chain[0].capability.estimatedQuality == 1.0 && threshold <= 1.0
    ensures Reach(net, chain, threshold, n) == 0.0
    ensures EscalateThrough(net, chain, threshold, n).cost == chain[0].capability.costPerTask
  {
    hide Times, EscalateThrough, HopAfter;
    NextLevel(net, chain, threshold, n - 1);
    if n == 1 {
      EscalateNone(net, chain, threshold);
      TimesOne(chain[0].capability.costPerTask);
      TimesZero(1.0);
    } else {
      FirstLevelKeepsAll(net, chain, threshold, n - 1);
      TimesZero(1.0 - KeepChance(chain, threshold, n - 1));
      TimesZero(chain[n - 1].capability.costPerTask);
    }
  }

  lemma CascadeFails(net: Network, b: real)
    requires Line(net, b) && b < 0.0
    ensures CascadeRoute(net, Analysis, Bounds(b), 0.7).Err?
  {
    hide ExtractAgents, EscalateThrough, CascadeChain, Line;
    var agents, chain := ExtractAgents(net, Analysis, 0.0), CascadeChain(net, Analysis, 0.0);
    CascadeUsesCheapest(net, Analysis, 0.0);
    if chain != [] {
      assert chain[0] in multiset(chain);
      assert chain[0] in multiset(agents);
      LineInfos(net, b, chain[0]);
      FirstLevelKeepsAll(net, chain, 0.7, |chain|);
    }
  }

  lemma DraftRefineFails(net: Network, b: real)
    requires Line(net, b) && b < 0.0
    ensures DraftRefineRoute(net, Analysis, Bounds(b)).Err?
  {
    LineCapabilities(net, b);
    hide Line, Times, DraftRefineRoute, Network.CapableAgents;
    var i, j := DraftRefineRouteSpec(net, Analysis, Bounds(b));
  }

  lemma SoloFails(net: Network, b: real)
    requires Line(net, b) && b < 0.0
    ensures FirstSolo(SortedByCost(ExtractAgents(net, Analysis, 0.0)), Bounds(b)).Err?
  {
    var agents := ExtractAgents(net, Analysis, 0.0);
    var sorted := SortedByCost(agents);
    SortPermutes(agents, CheaperFirst);
    hide ExtractAgents, StableSort, Line, FirstSolo;
    FirstSoloSpec(sorted, Bounds(b));
    forall a | a in sorted ensures !SatisfiesConstraints(Solo(a.capability), Bounds(b)) {
      LineInfos(net, b, a);
      SoloMetrics(Third(b));
    }
  }

  lemma LineAutoSelectFails(net: Network, b: real)
    requires Line(net, b) && b < 0.0
    ensures AutoSelect(net, Analysis, Bounds(b)).Err?
  {
    CascadeFails(net, b);
    DraftRefineFails(net, b);
    SoloFails(net, b);
    hide ExtractAgents, CascadeRoute, DraftRefineRoute, EnsembleRoute, ParallelMergeRoute, FirstSolo, SortedByCost,
         MedianCost, Line;
  }

  // ---------------------------------------------- walks along the line

  function OnLine(net: Network, w: CostWeights): Problem {
    Problem(net, LINE, Analysis, w, MODEL)
  }

  /** The cost of every arc of the line. */
  function ArcPrice(b: real, w: CostWeights): real {
    Times(w.cost, b / 3.0)
  }

  lemma EdgePrice(b: real, w: CostWeights)
    requires b < 0.0
    ensures ScalarEdgeCost(MODEL, Third(b), 0.0, w) == ArcPrice(b, w)
  {
    assert Share(0.0, 1.0) == 0.0 by { ShareUnits(1.0); }
    assert Share(b / 3.0, 1.0) == b / 3.0;
    hide Times, Share;
    TimesZero(w.quality);
    TimesZero(w.latency);
  }

  lemma LineArcs(net: Network, b: real, w: CostWeights)
    requires Line(net, b) && b < 0.0
    ensures var g := OnLine(net, w).Subgraph();
            && g.n == 3
            && (forall i: nat, j: nat :: g.Arc(i, j) <==> j == i + 1 && j < 3)
            && forall i: nat, j: nat :: g.Arc(i, j) ==> g.Weight(i, j) == ArcPrice(b, w)
  {
    var p := OnLine(net, w);
    LineCapabilities(net, b);
    EdgePrice(b, w);
    hide ArcPrice, ScalarEdgeCost;
    forall i: nat, j: nat ensures p.HasArc(i, j) <==> j == i + 1 && j < 3 {
      if i < 3 && j < 3 { assert LINE[i] == i && LINE[j] == j; }
    }
    forall i: nat, j: nat | p.HasArc(i, j) ensures p.ArcCost(i, j) == ArcPrice(b, w) {
      assert LINE[i] == i && LINE[j] == j;
    }
  }

  /** A graph that is a line of three vertices with equal arcs. */
  ghost predicate ThreeInLine(g: Digraph, price: real) {
    && g.n == 3
    && (forall i: nat, j: nat :: g.Arc(i, j) <==> j == i + 1 && j < 3)
    && forall i: nat, j: nat :: g.Arc(i, j) ==> g.Weight(i, j) == price
  }

  lemma {:induction false} WalksAscend(g: Digraph, price: real, q: seq<nat>, k: nat)
    requires ThreeInLine(g, price) && IsWalk(g, q) && k < |q|
    ensures q[k] == q[0] + k && q[k] < 3
  {
    if k > 0 {
      WalksAscend(g, price, q, k - 1);
      assert g.Arc(q[k - 1], q[k - 1 + 1]);
    }
  }

  /** All walks: standing still, one arc or the whole line. */
  lemma WalksOfLine(g: Digraph, price: real, q: seq<nat>)
    requires ThreeInLine(g, price) && IsWalk(g, q)
    ensures q[0] + |q| <= 3 && Last(q) == q[0] + |q| - 1
    ensures WalkCost(g, q) == if |q| == 1 then 0.0 else if |q| == 2 then price else price + price
    ensures |q| == 3 ==> q == LINE
  {
    WalksAscend(g, price, q, |q| - 1);
    if |q| >= 2 {
      var front := q[..|q| - 1];
      SliceIsWalk(g, q, 0, |q| - 1);
      assert g.Arc(q[|q| - 2], q[|q| - 2 + 1]);
      if |q| == 3 {
        SliceIsWalk(g, front, 0, 1);
        assert front[..1] == [q[0]];
        assert g.Arc(q[0], q[0 + 1]);
        assert WalkCost(g, front) == WalkCost(g, front[..1]) + price;
        WalksAscend(g, price, q, 1);
      }
    }
  }

  lemma LineIsAcyclic(g: Digraph, price: real, s: nat)
    requires ThreeInLine(g, price)
    ensures NoNegativeCycle(g, s)
  {
    forall c | IsWalk(g, c) && c[0] == Last(c) && Reachable(g, s, c[0]) ensures 0.0 <= WalkCost(g, c) {
      WalksOfLine(g, price, c);
    }
  }

  lemma TailWalks(g: Digraph, price: real)
    requires ThreeInLine(g, price)
    ensures SimpleWalk(g, LINE) && WalkCost(g, LINE) == price + price
    ensures SimpleWalk(g, [1, 2]) && WalkCost(g, [1, 2]) == price
  {
    assert IsWalk(g, LINE) && IsWalk(g, [1, 2]);
    WalksOfLine(g, price, LINE);
    WalksOfLine(g, price, [1, 2]);
  }

  // ------------------------------------- every sweep finds the whole line

  lemma Globally(local: seq<nat>)
    requires forall i :: 0 <= i < |local| ==> local[i] < 3
    ensures Globals(LINE, local) == local
  {
    forall i | 0 <= i < |local| ensures LINE[local[i]] == local[i] {
      assert local[i] == 0 || local[i] == 1 || local[i] == 2;
    }
  }

  lemma WholeLineMetrics(net: Network, b: real)
    requires Line(net, b)
    ensures Qualified(net, LINE, Analysis)
    ensures MetricsOf(net, LINE, Analysis) == RouteMetrics(1.0, 0.0, b)
  {
    LineCapabilities(net, b);
    var c := Third(b);
    assert CapabilitiesAlong(net, LINE, Analysis) == [c, c, c];
    assert TransfersAlong(net, LINE) == [0.0, 0.0];
    ThreeThirds(b);
  }

  lemma ThreeThirds(b: real)
    ensures var c := Third(b); ComputeRouteMetrics([c, c, c], [0.0, 0.0]) == RouteMetrics(1.0, 0.0, b)
  {
    hide Times;
    var c := Third(b);
    TimesOne(1.0);
    assert [c, c, c][1..] == [c, c] && [c, c][1..] == [c] && [c][1..] == [];
    assert QualityProduct([c]) == 1.0 && QualityProduct([c, c]) == 1.0 && QualityProduct([c, c, c]) == 1.0;
    assert LatencySum([c]) == 0.0 && LatencySum([c, c]) == 0.0 && LatencySum([c, c, c]) == 0.0;
    assert CostSum([c]) == b / 3.0 && CostSum([c, c]) == b / 3.0 + b / 3.0;
    var hops: seq<Duration> := [0.0, 0.0];
    assert hops[1..] == [0.0] && hops[1..][1..] == [];
    assert TransferSum(hops[1..]) == 0.0 && TransferSum(hops) == 0.0;
  }

  /** When every arc pays, the cheapest way out of the first agent is the whole line. */
  lemma CheapestIsWholeLine(g: Digraph, price: real, local: seq<nat>, cost: real)
    requires ThreeInLine(g, price) && price < 0.0 && BestLocalRoute(g, 0, local, cost)
    ensures local == LINE
  {
    TailWalks(g, price);
    WalksOfLine(g, price, local);
    assert WalkBetween(g, LINE, 0, 2);
    assert LowerBound(g, 0, 2, cost);
  }

  lemma FirstReaches(g: Digraph, price: real)
    requires ThreeInLine(g, price)
    ensures SomeoneReachable(g, 0)
  {
    TailWalks(g, price);
    assert WalkBetween(g, LINE, 0, 2);
    assert Reachable(g, 0, 2);
  }

  /** The weights that look at the price alone. */
  const PRICE_ONLY := PARETO_SAMPLE_VECTORS[2]

  lemma PriceOnlySees(b: real)
    ensures PRICE_ONLY in PARETO_SAMPLE_VECTORS && ArcPrice(b, PRICE_ONLY) == b / 3.0
  {
    assert PARETO_SAMPLE_VECTORS[2].cost == 1.0;
    TimesOne(b / 3.0);
  }

  lemma LineGraph(net: Network, b: real, w: CostWeights)
    requires Line(net, b) && b < 0.0
    ensures ThreeInLine(OnLine(net, w).Subgraph(), ArcPrice(b, w))
  {
    LineArcs(net, b, w);
  }

  lemma SweptFromFirst(net: Network, b: real, results: seq<BellmanFordResult>)
    requires Line(net, b) && b < 0.0 && SweepDelivers(net, Analysis, 0.0, MODEL, results)
    ensures HasBestFrom(OnLine(net, PRICE_ONLY), 0, results)
    ensures Candidates(net, LINE, Analysis, MODEL, results)
  {
    LineAgents(net, b);
    PriceOnlySees(b);
    LineGraph(net, b, PRICE_ONLY);
    var g := OnLine(net, PRICE_ONLY).Subgraph();
    hide Line, Candidate, NoNegativeCycle, SomeoneReachable, ThreeInLine, HasBestFrom, HasSolo, PRICE_ONLY, ArcPrice;
    LineIsAcyclic(g, ArcPrice(b, PRICE_ONLY), 0);
    FirstReaches(g, ArcPrice(b, PRICE_ONLY));
    assert Swept(net, LINE, Analysis, MODEL, PRICE_ONLY, 0, results);
  }

  lemma BestFromFirst(net: Network, b: real, path: seq<nat>, cost: real)
    requires Line(net, b) && b < 0.0 && BestRoute(OnLine(net, PRICE_ONLY), 0, path, cost)
    ensures path == LINE
  {
    PriceOnlySees(b);
    LineGraph(net, b, PRICE_ONLY);
    var g := OnLine(net, PRICE_ONLY).Subgraph();
    hide Line, ThreeInLine, BestLocalRoute, PRICE_ONLY, ArcPrice;
    var local :| BestLocalRoute(g, 0, local, cost) && path == Globals(LINE, local);
    CheapestIsWholeLine(g, ArcPrice(b, PRICE_ONLY), local, cost);
    Globally(local);
  }

  /** Whatever list a sweep of the line delivers, it has a feasible candidate. */
  lemma LineIsAlwaysFound(net: Network, b: real, results: seq<BellmanFordResult>)
    requires Line(net, b) && b < 0.0 && SweepDelivers(net, Analysis, 0.0, MODEL, results)
    ensures SomeFeasible(results, Bounds(b))
  {
    SweptFromFirst(net, b, results);
    WholeLineMetrics(net, b);
    hide Line, SweepDelivers, Candidate, MetricsOf, BestRoute, Qualified, PRICE_ONLY;
    var c :| c in results && c.weights == PRICE_ONLY && BestRoute(OnLine(net, PRICE_ONLY), 0, c.path, c.scalarCost);
    BestFromFirst(net, b, c.path, c.scalarCost);
    assert Candidate(net, LINE, Analysis, MODEL, c);
    CandidateMetrics(net, LINE, Analysis, MODEL, c);
  }

  lemma CandidateMetrics(net: Network, agents: seq<nat>, task: TaskType, model: CostModel, c: BellmanFordResult)
    requires Candidate(net, agents, task, model, c)
    ensures Qualified(net, c.path, task) && c.metrics == MetricsOf(net, c.path, task)
  {
    hide RealRoute, MetricsOf;
  }

  /** The run: the automatic choice fails on the line, and no sweep of it fails. */
  lemma LineIsRescued(net: Network, b: real)
    requires Line(net, b) && b < 0.0
    ensures AutoSelect(net, Analysis, Bounds(b)).Err?
    ensures !SweepFails(net, Analysis, Bounds(b), MODEL)
  {
    LineAutoSelectFails(net, b);
    LineCapabilities(net, b);
    hide AutoSelect, Line, SweepDelivers, SomeFeasible;
    assert net.IsCapable(0, Analysis, 0.0);
    forall results | SweepDelivers(net, Analysis, 0.0, MODEL, results) ensures SomeFeasible(results, Bounds(b)) {
      LineIsAlwaysFound(net, b, results);
    }
  }

  // -------------------------------------------- a list a sweep delivers

  function LineNetwork(b: real): Network {
    var agent := (id: AgentId) => AgentNode(id, [Third(b)], true, 1.0);
    Network([agent(0), agent(1), agent(2)], [[Edge(0, 1, 0.0)], [Edge(1, 2, 0.0)], []])
  }

  lemma LineNetworkIsLine(b: real)
    ensures Line(LineNetwork(b), b)
  {
    var net := LineNetwork(b);
    forall i: nat, j: nat | i < 3
      ensures net.TransferLatency(i, j) == if j == i + 1 && j < 3 then Some(0.0) else None
    {
      assert net.EdgesFrom(2) == [];
      assert net.EdgesFrom(0)[1..] == [] && net.EdgesFrom(1)[1..] == [];
    }
  }

  function Whole(net: Network, b: real, w: CostWeights): BellmanFordResult
    requires Line(net, b)
  {
    LineQualified(net, b);
    BellmanFordResult(w, LINE, ArcPrice(b, w) + ArcPrice(b, w), MetricsOf(net, LINE, Analysis))
  }

  function Tail(net: Network, b: real, w: CostWeights): BellmanFordResult
    requires Line(net, b)
  {
    LineQualified(net, b);
    BellmanFordResult(w, [1, 2], ArcPrice(b, w), MetricsOf(net, [1, 2], Analysis))
  }

  function Alone(b: real, w: CostWeights, a: nat): BellmanFordResult {
    BellmanFordResult(w, [a], ScalarRouteCost(MODEL, Solo(Third(b)), w), Solo(Third(b)))
  }

  /** What one weight vector contributes: the line from its first two agents, and every agent alone. */
  function Contribution(net: Network, b: real, w: CostWeights): (r: seq<BellmanFordResult>)
    requires Line(net, b)
    ensures forall c :: c in r <==>
              c == Whole(net, b, w) || c == Tail(net, b, w) || exists a: nat :: a < 3 && c == Alone(b, w, a)
  {
    var r := [Whole(net, b, w), Tail(net, b, w), Alone(b, w, 0), Alone(b, w, 1), Alone(b, w, 2)];
    assert r[2] == Alone(b, w, 0) && r[3] == Alone(b, w, 1) && r[4] == Alone(b, w, 2);
    r
  }

  lemma LineQualified(net: Network, b: real)
    requires Line(net, b)
    ensures Qualified(net, LINE, Analysis) && Qualified(net, [1, 2], Analysis)
  {
    LineCapabilities(net, b);
  }

  function Contributions(net: Network, b: real, ws: seq<CostWeights>): seq<BellmanFordResult>
    requires Line(net, b)
  {
    if ws == [] then [] else Contribution(net, b, ws[0]) + Contributions(net, b, ws[1..])
  }

  lemma {:induction false} ContributionsAre(net: Network, b: real, ws: seq<CostWeights>, c: BellmanFordResult)
    requires Line(net, b)
    ensures c in Contributions(net, b, ws) <==> exists w :: w in ws && c in Contribution(net, b, w)
  {
    hide Line, Contribution;
    if ws != [] {
      ContributionsAre(net, b, ws[1..], c);
      assert ws == [ws[0]] + ws[1..];
    }
  }

  /** With arcs that do not cost, both routes are cheapest ways out of their first agents. */
  lemma LineRoutesAreBest(g: Digraph, price: real)
    requires ThreeInLine(g, price) && price <= 0.0
    ensures BestLocalRoute(g, 0, LINE, price + price) && BestLocalRoute(g, 1, [1, 2], price)
    ensures !SomeoneReachable(g, 2)
  {
    TailWalks(g, price);
    forall v: nat, q | v != 0 && WalkBetween(g, q, 0, v) ensures price + price <= WalkCost(g, q) {
      WalksOfLine(g, price, q);
    }
    forall v: nat, q | v != 1 && WalkBetween(g, q, 1, v) ensures price <= WalkCost(g, q) {
      WalksOfLine(g, price, q);
    }
    forall v: nat | Reachable(g, 2, v) ensures v == 2 {
      var q :| WalkBetween(g, q, 2, v);
      WalksOfLine(g, price, q);
    }
  }

  lemma SampledPrice(b: real, w: CostWeights)
    requires b < 0.0 && w in PARETO_SAMPLE_VECTORS
    ensures ArcPrice(b, w) <= 0.0
  {
    assert 0.0 <= w.cost;
    TimesCommutes(w.cost, b / 3.0);
    TimesNegative(b / 3.0, w.cost);
  }

  lemma SweptBy(p: Problem, s: nat, c: BellmanFordResult, results: seq<BellmanFordResult>)
    requires s < |p.agents| && c in results && c.weights == p.weights && BestRoute(p, s, c.path, c.scalarCost)
    ensures Swept(p.net, p.agents, p.task, p.model, p.weights, s, results)
  {
    hide NoNegativeCycle, SomeoneReachable, BestRoute;
  }

  lemma UnreachingIsSwept(p: Problem, s: nat, results: seq<BellmanFordResult>)
    requires s < |p.agents| && !SomeoneReachable(p.Subgraph(), s)
    ensures Swept(p.net, p.agents, p.task, p.model, p.weights, s, results)
  {
    hide NoNegativeCycle, SomeoneReachable, BestRoute;
  }

  lemma LineBestRoutes(net: Network, b: real, w: CostWeights)
    requires Line(net, b) && b < 0.0 && w in PARETO_SAMPLE_VECTORS
    ensures BestRoute(OnLine(net, w), 0, LINE, ArcPrice(b, w) + ArcPrice(b, w))
    ensures BestRoute(OnLine(net, w), 1, [1, 2], ArcPrice(b, w))
    ensures !SomeoneReachable(OnLine(net, w).Subgraph(), 2)
  {
    LineGraph(net, b, w);
    SampledPrice(b, w);
    LineRoutesAreBest(OnLine(net, w).Subgraph(), ArcPrice(b, w));
    Globally(LINE);
    Globally([1, 2]);
    hide Line, ThreeInLine, BestLocalRoute, SomeoneReachable, ArcPrice;
  }

  lemma WholeSwept(net: Network, b: real, w: CostWeights, results: seq<BellmanFordResult>)
    requires Line(net, b) && b < 0.0 && w in PARETO_SAMPLE_VECTORS && Whole(net, b, w) in results
    ensures Swept(net, LINE, Analysis, MODEL, w, 0, results)
  {
    hide Line, BestRoute, SomeoneReachable, ArcPrice, Swept, Problem.Subgraph, Whole, LINE;
    WholeIs(net, b, w);
    WholeIsBest(net, b, w);
    assert |LINE| == 3 by { LineHasThree(); }
    SweptBy(OnLine(net, w), 0, Whole(net, b, w), results);
  }

  lemma LineHasThree()
    ensures |LINE| == 3
  {}

  lemma WholeIsBest(net: Network, b: real, w: CostWeights)
    requires Line(net, b) && b < 0.0 && w in PARETO_SAMPLE_VECTORS
    ensures BestRoute(OnLine(net, w), 0, LINE, ArcPrice(b, w) + ArcPrice(b, w))
  {
    LineBestRoutes(net, b, w);
  }

  lemma WholeIs(net: Network, b: real, w: CostWeights)
    requires Line(net, b)
    ensures var c := Whole(net, b, w);
            c.weights == w && c.path == LINE && c.scalarCost == ArcPrice(b, w) + ArcPrice(b, w)
  {
    hide MetricsOf;
  }

  lemma TailSwept(net: Network, b: real, w: CostWeights, results: seq<BellmanFordResult>)
    requires Line(net, b) && b < 0.0 && w in PARETO_SAMPLE_VECTORS && Tail(net, b, w) in results
    ensures Swept(net, LINE, Analysis, MODEL, w, 1, results)
  {
    LineBestRoutes(net, b, w);
    hide Line, BestRoute, SomeoneReachable, ArcPrice, MetricsOf, Swept, Problem.Subgraph;
    SweptBy(OnLine(net, w), 1, Tail(net, b, w), results);
  }

  lemma EndSwept(net: Network, b: real, w: CostWeights, results: seq<BellmanFordResult>)
    requires Line(net, b) && b < 0.0 && w in PARETO_SAMPLE_VECTORS
    ensures Swept(net, LINE, Analysis, MODEL, w, 2, results)
  {
    LineBestRoutes(net, b, w);
    hide Line, BestRoute, SomeoneReachable, ArcPrice, Swept, Problem.Subgraph;
    UnreachingIsSwept(OnLine(net, w), 2, results);
  }

  lemma ContributionSwept(net: Network, b: real, w: CostWeights, results: seq<BellmanFordResult>, s: nat)
    requires Line(net, b) && b < 0.0 && w in PARETO_SAMPLE_VECTORS && s < 3
    requires forall c :: c in Contribution(net, b, w) ==> c in results
    ensures Swept(net, LINE, Analysis, MODEL, w, s, results)
  {
    hide Line, Swept, Contribution, Whole, Tail, Alone, PARETO_SAMPLE_VECTORS;
    assert Whole(net, b, w) in results && Tail(net, b, w) in results;
    if s == 0 {
      WholeSwept(net, b, w, results);
    } else if s == 1 {
      TailSwept(net, b, w, results);
    } else {
      EndSwept(net, b, w, results);
    }
  }

  lemma WalkIsRealRoute(p: Problem, local: seq<nat>)
    requires p.agents == LINE && SimpleWalk(p.Subgraph(), local) && |local| >= 2
    ensures RealRoute(p, local[0], local)
  {
    Globally(local);
  }

  lemma RouteIsCandidate(net: Network, b: real, w: CostWeights, path: seq<nat>, cost: real)
    requires Line(net, b) && w in PARETO_SAMPLE_VECTORS && Qualified(net, path, Analysis)
    requires SimpleWalk(OnLine(net, w).Subgraph(), path) && |path| >= 2
    ensures Candidate(net, LINE, Analysis, MODEL, BellmanFordResult(w, path, cost, MetricsOf(net, path, Analysis)))
  {
    WalkIsRealRoute(OnLine(net, w), path);
    forall i | 0 <= i < |path| ensures path[i] in LINE {
      assert path[i] < 3;
      assert LINE[path[i]] == path[i];
    }
    hide Line, RealRoute, MetricsOf, Qualified, IsWalk;
  }

  lemma AloneIsCandidate(net: Network, b: real, w: CostWeights, a: nat)
    requires Line(net, b) && w in PARETO_SAMPLE_VECTORS && a < 3
    ensures Candidate(net, LINE, Analysis, MODEL, Alone(b, w, a))
  {
    LineCapabilities(net, b);
    SoloCandidate(net, Analysis, a);
    assert LINE[a] == a;
    hide Line, MetricsOf, Qualified, ScalarRouteCost, Solo, Network.CapabilityAt;
  }

  lemma RoutesAreCandidates(net: Network, b: real, w: CostWeights)
    requires Line(net, b) && b < 0.0 && w in PARETO_SAMPLE_VECTORS
    ensures Candidate(net, LINE, Analysis, MODEL, Whole(net, b, w))
    ensures Candidate(net, LINE, Analysis, MODEL, Tail(net, b, w))
  {
    LineGraph(net, b, w);
    TailWalks(OnLine(net, w).Subgraph(), ArcPrice(b, w));
    LineQualified(net, b);
    hide Line, ThreeInLine, ArcPrice, MetricsOf, SimpleWalk, Candidate, Qualified;
    RouteIsCandidate(net, b, w, LINE, ArcPrice(b, w) + ArcPrice(b, w));
    RouteIsCandidate(net, b, w, [1, 2], ArcPrice(b, w));
  }

  lemma ContributionIsCandidate(net: Network, b: real, w: CostWeights, c: BellmanFordResult)
    requires Line(net, b) && b < 0.0 && w in PARETO_SAMPLE_VECTORS && c in Contribution(net, b, w)
    ensures Candidate(net, LINE, Analysis, MODEL, c)
  {
    hide Line, Candidate, Contribution, Whole, Tail, Alone;
    RoutesAreCandidates(net, b, w);
    if c != Whole(net, b, w) && c != Tail(net, b, w) {
      var a: nat :| a < 3 && c == Alone(b, w, a);
      AloneIsCandidate(net, b, w, a);
    }
  }

  lemma ContributionHasSolo(net: Network, b: real, w: CostWeights, a: nat, results: seq<BellmanFordResult>)
    requires Line(net, b) && a < 3 && forall c :: c in Contribution(net, b, w) ==> c in results
    ensures HasSolo(net, Analysis, a, w, results)
  {
    hide Line, Contribution;
    assert Alone(b, w, a) in Contribution(net, b, w);
  }

  /** The list is one that a sweep of the line delivers. */
  lemma LineIsSwept(net: Network, b: real)
    requires Line(net, b) && b < 0.0
    ensures SweepDelivers(net, Analysis, 0.0, MODEL, Contributions(net, b, PARETO_SAMPLE_VECTORS))
  {
    var results := Contributions(net, b, PARETO_SAMPLE_VECTORS);
    LineAgents(net, b);
    hide Line, Contribution, Contributions, Candidate, Swept, HasSolo, PARETO_SAMPLE_VECTORS, Whole, Tail, Alone;
    forall w, c | w in PARETO_SAMPLE_VECTORS && c in Contribution(net, b, w) ensures c in results {
      ContributionsAre(net, b, PARETO_SAMPLE_VECTORS, c);
    }
    forall c | c in results ensures Candidate(net, LINE, Analysis, MODEL, c) {
      ContributionsAre(net, b, PARETO_SAMPLE_VECTORS, c);
      var w :| w in PARETO_SAMPLE_VECTORS && c in Contribution(net, b, w);
      ContributionIsCandidate(net, b, w, c);
    }
    forall w, s | w in PARETO_SAMPLE_VECTORS && 0 <= s < 3
      ensures Swept(net, LINE, Analysis, MODEL, w, s, results)
    {
      ContributionSwept(net, b, w, results, s);
    }
    forall a, w | a in LINE && w in PARETO_SAMPLE_VECTORS ensures HasSolo(net, Analysis, a, w, results) {
      ContributionHasSolo(net, b, w, a, results);
    }
    PriceOnlySees(b);
    ContributionHasSolo(net, b, PRICE_ONLY, 0, results);
    SoloMakesNonEmpty(net, 0, PRICE_ONLY, results);
  }

  lemma SoloMakesNonEmpty(net: Network, a: nat, w: CostWeights, results: seq<BellmanFordResult>)
    requires HasSolo(net, Analysis, a, w, results)
    ensures results != []
  {}

  /** Exploring adds nothing, in any network, under exactly the non-negative budgets. */
  lemma ExploringAddsNothingIff(b: real)
    ensures ExploringAddsNothing(b) <==> 0.0 <= b
  {
    hide AutoSelect, SweepFinds;
    if 0.0 <= b {
      forall net: Network, task: TaskType, qos: QoS, model: CostModel |
        net.Valid() && qos.maxCost == b && AutoSelect(net, task, qos).Err?
        ensures !SweepFinds(net, task, qos, model)
      {
        NothingToRescue(net, task, qos, model);
      }
    } else {
      var net := LineNetwork(b);
      LineNetworkIsLine(b);
      LineAutoSelectFails(net, b);
      LineIsSwept(net, b);
      LineIsAlwaysFound(net, b, Contributions(net, b, PARETO_SAMPLE_VECTORS));
      SweptWell(net, Analysis, Bounds(b), MODEL, Contributions(net, b, PARETO_SAMPLE_VECTORS));
      LineIsValid(net, b);
    }
  }

  lemma LineIsValid(net: Network, b: real)
    requires Line(net, b)
    ensures net.Valid()
  {}

  // -------------------------------------------------------------- the run

  /** `count` such agents under the ids 0, 1, 2 and no links. */
  ghost predicate Unlinked(net: Network, b: real, count: nat) {
    && net.Valid() && |net.nodes| == count
    && (forall i: nat :: i < count ==> net.nodes[i] == AgentNode(i, [Third(b)], true, 1.0))
    && (forall i: nat, j: nat :: net.TransferLatency(i, j).None?)
  }

  method AddThird(graph: AgentGraph, b: real)
    requires graph.Valid() && Unlinked(graph.Snapshot(), b, |graph.nodes|)
    modifies graph
    ensures graph.Valid() && |graph.nodes| == |old(graph.nodes)| + 1
    ensures Unlinked(graph.Snapshot(), b, |graph.nodes|)
  {
    ghost var before := graph.Snapshot();
    var index := graph.AddAgent(|graph.nodes|, [Third(b)], 1.0);
    forall i: nat, j: nat ensures graph.Snapshot().TransferLatency(i, j).None? {
      assert graph.Snapshot().EdgesFrom(i) == before.EdgesFrom(i);
      assert before.TransferLatency(i, j).None?;
    }
  }

  lemma LinkedIsLine(net: Network, b: real)
    requires net.Valid() && |net.nodes| == 3
    requires forall i: nat :: i < 3 ==> net.nodes[i] == AgentNode(i, [Third(b)], true, 1.0)
    requires forall i: nat, j: nat :: i < 3 ==>
               net.TransferLatency(i, j) == if j == i + 1 && j < 3 then Some(0.0) else None
    ensures Line(net, b)
  {}

  method LinkThirds(graph: AgentGraph, b: real)
    requires graph.Valid() && Unlinked(graph.Snapshot(), b, 3)
    modifies graph
    ensures graph.Valid() && Line(graph.Snapshot(), b)
  {
    assert graph.nodes[0].id == 0 && graph.nodes[1].id == 1 && graph.nodes[2].id == 2;
    assert 0 in graph.idToIndex && 1 in graph.idToIndex && 2 in graph.idToIndex;
    hide FindEdge, Line, Third;
    graph.AddEdge(0, 1, 0.0);
    graph.AddEdge(1, 2, 0.0);
    LinkedIsLine(graph.Snapshot(), b);
  }

  method BuildLine(b: real) returns (graph: AgentGraph)
    ensures fresh(graph) && graph.Valid() && Line(graph.Snapshot(), b)
  {
    graph := new AgentGraph();
    AddThird(graph, b);
    AddThird(graph, b);
    AddThird(graph, b);
    LinkThirds(graph, b);
  }

  /** On the router's own state: build the line, then find a route that the automatic choice cannot. */
  method RescueRun(b: real) returns (r: Result<Route, RoutingError>, ghost net: Network)
    requires b < 0.0
    ensures Line(net, b) && AutoSelect(net, Analysis, Bounds(b)).Err?
    ensures r.Ok? && r.value.pattern == Pipeline && SatisfiesConstraints(r.value.metrics, Bounds(b))
    ensures FollowsLinks(net, Analysis, 0.0, r.value)
  {
    hide AutoSelect, SweepFails, SweepFinds, FollowsLinks, SatisfiesConstraints, SaneBudget, SoloFeasible, PatternRoute;
    var graph := BuildLine(b);
    net := graph.Snapshot();
    LineIsRescued(net, b);
    LineLength(net, b);
    hide Line;
    var router := new EconomicRouter(graph, MODEL, 1);
    r := router.FindRoute(Analysis, Bounds(b), None);
  }
}
