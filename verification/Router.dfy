/** The economic router: patterns first, Bellman-Ford exploration as fallback. */
module Router {
  import opened Prelude
  import opened Types
  import opened Cost
  import opened Graph
  import opened Sequences
  import opened PathMetrics
  import opened BellmanFord
  import opened Sweep
  import opened Optimizer
  import opened Patterns
  import opened Choice
  import opened Staffing

  // ------------------------------------------------- the candidate list

  /** Every capable agent charges at least zero for the task. */
  ghost predicate FairPrices(net: Network, task: TaskType, minTrust: real) {
    forall i :: net.IsCapable(i, task, minTrust) ==> 0.0 <= net.CapabilityAt(i, task).value.costPerTask
  }

  ghost predicate SaneBudget(net: Network, task: TaskType, qos: QoS) {
    0.0 <= qos.maxCost || FairPrices(net, task, qos.minTrust)
  }

  lemma CandidatesDetermined(net: Network, agents: seq<nat>, task: TaskType, model: CostModel,
                             results: seq<BellmanFordResult>)
    requires Candidates(net, agents, task, model, results)
    ensures PathDetermined(results)
  {
    hide RealRoute;
    forall a, b | a in results && b in results && a.path == b.path ensures a.metrics == b.metrics {
      assert Candidate(net, agents, task, model, a) && Candidate(net, agents, task, model, b);
    }
  }

  /** A feasible candidate, however long, means some capable agent is feasible alone. */
  lemma FeasibleCandidateHasSolo(net: Network, task: TaskType, qos: QoS, model: CostModel, c: BellmanFordResult)
    requires Candidate(net, net.CapableAgents(task, qos.minTrust), task, model, c)
    requires SatisfiesConstraints(c.metrics, qos) && SaneBudget(net, task, qos)
    ensures SoloFeasible(net, task, qos)
  {
    hide RealRoute, SatisfiesConstraints;
    var caps := CapabilitiesAlong(net, c.path, task);
    var transfers := TransfersAlong(net, c.path);
    forall i | 0 <= i < |c.path| ensures net.IsCapable(c.path[i], task, qos.minTrust) {
      assert c.path[i] in net.CapableAgents(task, qos.minTrust);
    }
    var i: nat;
    if 0.0 <= qos.maxCost {
      i := SomeMemberMeetsBounds(caps, transfers, qos);
    } else {
      i := 0;
      forall cap | cap in caps ensures 0.0 <= cap.costPerTask {
        var k :| 0 <= k < |caps| && caps[k] == cap;
        assert net.IsCapable(c.path[k], task, qos.minTrust);
      }
      MembersMeetBounds(caps, transfers, qos, 0);
    }
    assert net.IsCapable(c.path[i], task, qos.minTrust);
    assert caps[i] == net.CapabilityAt(c.path[i], task).value;
  }

  /** The sweep always contains the solo route of a capable agent. */
  lemma SoloIsCandidate(net: Network, task: TaskType, minTrust: real, model: CostModel,
                        results: seq<BellmanFordResult>, i: nat)
    returns (c: BellmanFordResult)
    requires SweepDelivers(net, task, minTrust, model, results) && net.IsCapable(i, task, minTrust)
    ensures c in results && c.metrics == Solo(net.CapabilityAt(i, task).value)
  {
    hide Swept, RealRoute;
    assert i in net.CapableAgents(task, minTrust) && PARETO_SAMPLE_VECTORS[0] in PARETO_SAMPLE_VECTORS;
    assert HasSolo(net, task, i, PARETO_SAMPLE_VECTORS[0], results);
    c :| c in results && c.path == [i] && c.weights == PARETO_SAMPLE_VECTORS[0];
    assert Candidate(net, net.CapableAgents(task, minTrust), task, model, c);
    SoloCandidate(net, task, i);
  }

  lemma SweepFeasibleIffSolo(net: Network, task: TaskType, qos: QoS, model: CostModel, results: seq<BellmanFordResult>)
    requires SweepDelivers(net, task, qos.minTrust, model, results) && SaneBudget(net, task, qos)
    ensures SomeFeasible(results, qos) <==> SoloFeasible(net, task, qos)
  {
    hide Candidate, Swept, SatisfiesConstraints, Solo, SaneBudget;
    if SomeFeasible(results, qos) {
      var c :| c in results && SatisfiesConstraints(c.metrics, qos);
      FeasibleCandidateHasSolo(net, task, qos, model, c);
    }
    if SoloFeasible(net, task, qos) {
      var i :| net.IsCapable(i, task, qos.minTrust) && SatisfiesConstraints(Solo(net.CapabilityAt(i, task).value), qos);
      var c := SoloIsCandidate(net, task, qos.minTrust, model, results, i);
    }
  }

  // -------------------------------------------------- Bellman-Ford routes

  /** `route` follows real links of the network between different capable agents, with the metrics of that path. */
  ghost predicate FollowsLinks(net: Network, task: TaskType, minTrust: real, route: Route) {
    exists path :: PathOf(net, task, minTrust, path, route)
  }

  ghost predicate PathOf(net: Network, task: TaskType, minTrust: real, path: seq<nat>, route: Route) {
    && path != [] && Qualified(net, path, task) && IdsAlong(net, path, route.agents)
    && route.metrics == MetricsOf(net, path, task)
    && (forall i :: 0 <= i < |path| ==> net.IsCapable(path[i], task, minTrust))
    && (forall i :: 0 <= i < |path| - 1 ==> net.TransferLatency(path[i], path[i + 1]).Some?)
    && Distinct(path)
  }

  function PathToAgentIds(net: Network, path: seq<nat>): seq<AgentId> {
    if path == [] then []
    else
      var rest := PathToAgentIds(net, path[1..]);
      match net.Node(path[0]) case Some(node) => [node.id] + rest case None => rest
  }

  lemma {:induction false} PathIds(net: Network, path: seq<nat>)
    requires forall i :: 0 <= i < |path| ==> path[i] < |net.nodes|
    ensures IdsAlong(net, path, PathToAgentIds(net, path))
  {
    if path != [] { PathIds(net, path[1..]); }
  }

  /** A pipeline along links between capable agents is staffed. */
  lemma LinkedIsStaffed(net: Network, task: TaskType, minTrust: real, route: Route)
    requires FollowsLinks(net, task, minTrust, route)
    ensures Staffed(net, task, minTrust, route.agents)
  {
    hide Qualified, MetricsOf, Network.IsCapable, Network.TransferLatency, Distinct, Serves;
    var path :| PathOf(net, task, minTrust, path, route);
    forall id | id in route.agents ensures Serves(net, task, minTrust, id) {
      var k :| 0 <= k < |route.agents| && route.agents[k] == id;
      CapableServes(net, task, minTrust, path[k]);
    }
  }

  lemma PatternStaffed(net: Network, pattern: RoutingPattern, task: TaskType, qos: QoS)
    requires pattern != Pipeline
    ensures var r := PatternRoute(net, pattern, task, qos);
            r.Ok? ==> Staffed(net, task, qos.minTrust, r.value.agents)
  {
    hide CascadeRoute, DraftRefineRoute, EnsembleRoute, ParallelMergeRoute, Staffed;
    CascadeStaffed(net, task, qos, 0.7);
    DraftRefineStaffed(net, task, qos);
    EnsembleStaffed(net, task, qos, 3);
    MergeStaffed(net, task, qos, 3);
  }

  lemma GatheredStaffed(net: Network, task: TaskType, qos: QoS, patterns: seq<Route>, pipelines: seq<Route>)
    requires AllPatterns(net, task, qos, patterns)
    requires forall x :: x in pipelines ==> FollowsLinks(net, task, qos.minTrust, x)
    ensures forall x :: x in patterns + pipelines ==> Staffed(net, task, qos.minTrust, x.agents)
  {
    hide PatternRoute, FollowsLinks, Staffed;
    forall x | x in patterns + pipelines ensures Staffed(net, task, qos.minTrust, x.agents) {
      if x in patterns {
        var p :| p != Pipeline && PatternRoute(net, p, task, qos) == Ok(x);
        PatternStaffed(net, p, task, qos);
      } else {
        LinkedIsStaffed(net, task, qos.minTrust, x);
      }
    }
  }

  function AsPipeline(net: Network, r: ParetoRoute): Route {
    Route(Pipeline, PathToAgentIds(net, r.path), r.metrics)
  }

  lemma CandidateLinks(net: Network, agents: seq<nat>, task: TaskType, model: CostModel, c: BellmanFordResult)
    requires Candidate(net, agents, task, model, c)
    requires forall a :: a in agents ==> net.CapabilityAt(a, task).Some?
    ensures forall i :: 0 <= i < |c.path| - 1 ==> net.TransferLatency(c.path[i], c.path[i + 1]).Some?
    ensures Distinct(agents) ==> Distinct(c.path)
  {
    hide RealRoute, MetricsOf, ScalarRouteCost;
    if |c.path| > 1 {
      RealRouteQualified(Problem(net, agents, task, c.weights, model), c.path[0], c.path);
    }
  }

  lemma CandidateFollowsLinks(net: Network, task: TaskType, minTrust: real, model: CostModel, c: BellmanFordResult,
                              r: ParetoRoute)
    requires Candidate(net, net.CapableAgents(task, minTrust), task, model, c)
    requires r.path == c.path && r.metrics == c.metrics
    ensures FollowsLinks(net, task, minTrust, AsPipeline(net, r))
  {
    hide MetricsOf, PathToAgentIds, RealRoute, ScalarRouteCost, FindCapability, FindEdge;
    var agents := net.CapableAgents(task, minTrust);
    forall i | 0 <= i < |c.path| ensures net.IsCapable(c.path[i], task, minTrust) {
      assert c.path[i] in agents;
    }
    CandidateLinks(net, agents, task, model, c);
    PathIds(net, c.path);
    assert PathOf(net, task, minTrust, c.path, AsPipeline(net, r));
  }

  /** No agent that meets the bounds alone scores better than `cost`. */
  ghost predicate BeatsSolos(net: Network, task: TaskType, qos: QoS, model: CostModel, cost: real)
  {
    forall i ::
      net.IsCapable(i, task, qos.minTrust) && SatisfiesConstraints(Solo(net.CapabilityAt(i, task).value), qos) ==>
      cost <= ScalarRouteCost(model, Solo(net.CapabilityAt(i, task).value), WeightsFromConstraints(qos))
  }

  /** The derived weights are defined and respect dominance. */
  ghost predicate Scorable(qos: QoS, model: CostModel) {
    qos.maxCost != -1.0 && Aligned(model, WeightsFromConstraints(qos))
  }

  /** Sane bounds and prices are scorable. */
  lemma SaneIsScorable(qos: QoS, model: CostModel)
    requires 0.0 <= qos.minQuality && -1.0 < qos.maxCost && 0.0 <= model.costRef
    ensures Scorable(qos, model)
  {
    hide WeightsFromConstraints;
    assert WeightsFromConstraints(qos).NonNegative();
  }

  /** A sweep of the network that offers a feasible candidate. */
  ghost predicate SweepFinds(net: Network, task: TaskType, qos: QoS, model: CostModel) {
    exists results :: SweepDelivers(net, task, qos.minTrust, model, results) && SomeFeasible(results, qos)
  }

  /** Nobody is capable, or a sweep of the network offers no feasible candidate. */
  ghost predicate SweepFails(net: Network, task: TaskType, qos: QoS, model: CostModel) {
    || (forall i :: !net.IsCapable(i, task, qos.minTrust))
    || exists results :: SweepDelivers(net, task, qos.minTrust, model, results) && !SomeFeasible(results, qos)
  }

  ghost predicate BeatsFeasible(results: seq<BellmanFordResult>, qos: QoS, model: CostModel, cost: real) {
    forall c :: c in results && SatisfiesConstraints(c.metrics, qos) ==>
                  cost <= ScalarRouteCost(model, c.metrics, WeightsFromConstraints(qos))
  }

  /** `routes` spells out the selected top of a sweep's candidates, and the first beats every feasible one of them. */
  ghost predicate SpelledOut(net: Network, task: TaskType, qos: QoS, model: CostModel, maxRoutes: nat,
                             results: seq<BellmanFordResult>, selected: seq<ParetoRoute>, routes: seq<Route>) {
    && SweepDelivers(net, task, qos.minTrust, model, results)
    && Selection(results, qos, WeightsFromConstraints(qos), model, maxRoutes, selected)
    && TopSelection(results, qos, WeightsFromConstraints(qos), model, maxRoutes, selected)
    && |routes| == |selected| && (forall i :: 0 <= i < |routes| ==> routes[i] == AsPipeline(net, selected[i]))
    && (routes != [] && Scorable(qos, model) ==>
          BeatsFeasible(results, qos, model, ScalarRouteCost(model, routes[0].metrics, WeightsFromConstraints(qos))))
  }

  ghost predicate TopPipelines(net: Network, task: TaskType, qos: QoS, model: CostModel, maxRoutes: nat,
                               routes: seq<Route>)
  {
    exists results, selected :: SpelledOut(net, task, qos, model, maxRoutes, results, selected, routes)
  }

  /** No feasible candidate of a sweep, of however many agents, scores better than `cost`. */
  ghost predicate BeatsCandidates(net: Network, task: TaskType, qos: QoS, model: CostModel, cost: real) {
    exists results :: SweepDelivers(net, task, qos.minTrust, model, results) && BeatsFeasible(results, qos, model, cost)
  }

  /** The pipelines the sweep and the selection yield, best first. */
  method BellmanFordRoutes(net: Network, task: TaskType, qos: QoS, model: CostModel, maxRoutes: nat)
    returns (r: Result<seq<Route>, RoutingError>)
    requires net.Valid()
    ensures r.Err? ==> r.error == NoFeasibleRoute && SweepFails(net, task, qos, model)
    ensures r.Ok? ==> SweepFinds(net, task, qos, model)
    ensures SaneBudget(net, task, qos) ==> (r.Ok? <==> SoloFeasible(net, task, qos))
    ensures SoloFeasible(net, task, qos) ==> r.Ok?
    ensures r.Ok? ==> |r.value| <= maxRoutes && (maxRoutes >= 1 ==> r.value != [])
    ensures r.Ok? ==> TopPipelines(net, task, qos, model, maxRoutes, r.value)
    ensures r.Ok? ==> forall x :: x in r.value ==>
              SatisfiesConstraints(x.metrics, qos) && x.pattern == Pipeline && FollowsLinks(net, task, qos.minTrust, x)
    ensures r.Ok? && maxRoutes >= 1 && Scorable(qos, model) ==>
              var cost := ScalarRouteCost(model, r.value[0].metrics, WeightsFromConstraints(qos));
              BeatsCandidates(net, task, qos, model, cost) && BeatsSolos(net, task, qos, model, cost)
  {
    hide SweepDelivers, FollowsLinks, SatisfiesConstraints, Solo, ScalarRouteCost, WeightsFromConstraints, BeatsSolos,
         SoloFeasible, SaneBudget, SomeFeasible, FirstIsBest, PathDetermined, Aligned, TopSelection, TopPipelines,
         BeatsCandidates, BeatsFeasible, SweepFinds, SweepFails, Scorable;
    var swept := MultiObjectiveBellmanFord(net, task, qos.minTrust, model);
    if swept.Err? {
      NobodyFeasible(net, task, qos);
      return Err(NoFeasibleRoute);
    }
    var results := swept.value;
    var w := WeightsFromConstraints(qos);
    var top := SelectTopRoutes(results, qos, w, model, maxRoutes);
    if SaneBudget(net, task, qos) { SweepFeasibleIffSolo(net, task, qos, model, results); }
    if SoloFeasible(net, task, qos) { SoloMakesFeasible(net, task, qos, model, results); }
    if top.Err? {
      SweptInVain(net, task, qos, model, results);
      return Err(NoFeasibleRoute);
    }
    SweptWell(net, task, qos, model, results);
    var routes := seq(|top.value|, i requires 0 <= i < |top.value| => AsPipeline(net, top.value[i]));
    SelectedArePipelines(net, task, qos, w, model, maxRoutes, results, top.value, routes);
    if |routes| > 0 && Scorable(qos, model) {
      ScorableIsAligned(qos, model);
      SweptAreDetermined(net, task, qos.minTrust, model, results);
      BestBeatsCandidates(net, task, qos, model, results, top.value);
      BestBeatsSolos(net, task, qos, model, maxRoutes, results, top.value);
    }
    assert TopPipelines(net, task, qos, model, maxRoutes, routes) by {
      SpelledOutIsTop(net, task, qos, model, maxRoutes, results, top.value, routes);
    }
    r := Ok(routes);
  }

  lemma ScorableIsAligned(qos: QoS, model: CostModel)
    requires Scorable(qos, model)
    ensures Aligned(model, WeightsFromConstraints(qos))
  {}

  lemma SweptInVain(net: Network, task: TaskType, qos: QoS, model: CostModel, results: seq<BellmanFordResult>)
    requires SweepDelivers(net, task, qos.minTrust, model, results) && !SomeFeasible(results, qos)
    ensures SweepFails(net, task, qos, model)
  {}

  lemma SweptWell(net: Network, task: TaskType, qos: QoS, model: CostModel, results: seq<BellmanFordResult>)
    requires SweepDelivers(net, task, qos.minTrust, model, results) && SomeFeasible(results, qos)
    ensures SweepFinds(net, task, qos, model)
  {}

  lemma SpelledOutIsTop(net: Network, task: TaskType, qos: QoS, model: CostModel, maxRoutes: nat,
                        results: seq<BellmanFordResult>, selected: seq<ParetoRoute>, routes: seq<Route>)
    requires SpelledOut(net, task, qos, model, maxRoutes, results, selected, routes)
    ensures TopPipelines(net, task, qos, model, maxRoutes, routes)
  {}

  lemma BestBeatsCandidates(net: Network, task: TaskType, qos: QoS, model: CostModel, results: seq<BellmanFordResult>,
                            top: seq<ParetoRoute>)
    requires SweepDelivers(net, task, qos.minTrust, model, results)
    requires FirstIsBest(results, qos, WeightsFromConstraints(qos), model, top)
    ensures BeatsFeasible(results, qos, model, top[0].scalarCost)
    ensures BeatsCandidates(net, task, qos, model, top[0].scalarCost)
  {
    hide SweepDelivers, SatisfiesConstraints, ScalarRouteCost, WeightsFromConstraints;
    assert BeatsFeasible(results, qos, model, top[0].scalarCost);
  }

  lemma NobodyFeasible(net: Network, task: TaskType, qos: QoS)
    requires forall i :: !net.IsCapable(i, task, qos.minTrust)
    ensures !SoloFeasible(net, task, qos)
    ensures forall model :: SweepFails(net, task, qos, model)
  {}

  lemma SweptAreDetermined(net: Network, task: TaskType, minTrust: real, model: CostModel,
                           results: seq<BellmanFordResult>)
    requires SweepDelivers(net, task, minTrust, model, results)
    ensures PathDetermined(results)
  {}

  lemma SoloMakesFeasible(net: Network, task: TaskType, qos: QoS, model: CostModel, results: seq<BellmanFordResult>)
    requires SweepDelivers(net, task, qos.minTrust, model, results) && SoloFeasible(net, task, qos)
    ensures SomeFeasible(results, qos)
  {
    hide SweepDelivers, SatisfiesConstraints, Solo;
    var i :| net.IsCapable(i, task, qos.minTrust) && SatisfiesConstraints(Solo(net.CapabilityAt(i, task).value), qos);
    var c := SoloIsCandidate(net, task, qos.minTrust, model, results, i);
  }

  lemma SelectedArePipelines(net: Network, task: TaskType, qos: QoS, w: CostWeights, model: CostModel, maxRoutes: nat,
                             results: seq<BellmanFordResult>, top: seq<ParetoRoute>, routes: seq<Route>)
    requires SweepDelivers(net, task, qos.minTrust, model, results) && Selection(results, qos, w, model, maxRoutes, top)
    requires |routes| == |top| && forall i :: 0 <= i < |top| ==> routes[i] == AsPipeline(net, top[i])
    ensures forall x :: x in routes ==>
              SatisfiesConstraints(x.metrics, qos) && x.pattern == Pipeline && FollowsLinks(net, task, qos.minTrust, x)
    ensures top != [] ==> ScalarRouteCost(model, routes[0].metrics, w) == top[0].scalarCost
  {
    hide FollowsLinks, Candidate, Swept, SatisfiesConstraints, ScalarRouteCost;
    forall x | x in routes
      ensures SatisfiesConstraints(x.metrics, qos) && x.pattern == Pipeline && FollowsLinks(net, task, qos.minTrust, x)
    {
      var i :| 0 <= i < |routes| && routes[i] == x;
      assert top[i] in top;
      var c :| c in results && c.path == top[i].path && c.metrics == top[i].metrics;
      CandidateFollowsLinks(net, task, qos.minTrust, model, c, top[i]);
    }
    if top != [] { assert top[0] in top; }
  }

  lemma BestBeatsSolos(net: Network, task: TaskType, qos: QoS, model: CostModel, maxRoutes: nat,
                       results: seq<BellmanFordResult>, top: seq<ParetoRoute>)
    requires SweepDelivers(net, task, qos.minTrust, model, results)
    requires FirstIsBest(results, qos, WeightsFromConstraints(qos), model, top)
    ensures BeatsSolos(net, task, qos, model, top[0].scalarCost)
  {
    hide SweepDelivers, SatisfiesConstraints, Solo, ScalarRouteCost, WeightsFromConstraints;
    forall i | net.IsCapable(i, task, qos.minTrust) && SatisfiesConstraints(Solo(net.CapabilityAt(i, task).value), qos)
      ensures top[0].scalarCost <= ScalarRouteCost(model, Solo(net.CapabilityAt(i, task).value),
                                                   WeightsFromConstraints(qos))
    {
      var c := SoloIsCandidate(net, task, qos.minTrust, model, results, i);
    }
  }

  // ------------------------------------------------------------- the router

  /** The four patterns that need no path search. */
  function PatternRoute(net: Network, pattern: RoutingPattern, task: TaskType, qos: QoS): Result<Route, RoutingError>
    requires pattern != Pipeline
  {
    match pattern
    case DraftRefine => DraftRefineRoute(net, task, qos)
    case ParallelMerge => ParallelMergeRoute(net, task, qos, 3)
    case Cascade => CascadeRoute(net, task, qos, 0.7)
    case Ensemble => EnsembleRoute(net, task, qos, 3)
  }

  /** Each pattern route is what its pattern makes of the capable agents. */
  lemma PatternRouteMakes(net: Network, pattern: RoutingPattern, task: TaskType, qos: QoS)
    requires pattern != Pipeline
    ensures PatternMakes(net, pattern, task, qos, PatternRoute(net, pattern, task, qos))
  {
    hide PatternMakes, CascadeRoute, DraftRefineRoute, EnsembleRoute, ParallelMergeRoute;
    CascadeMakes(net, task, qos);
    DraftRefineMakes(net, task, qos);
    ParallelMergeMakes(net, task, qos);
    EnsembleMakes(net, task, qos);
  }

  function AgentsKey(r: Route): seq<AgentId> {
    r.agents
  }

  function CheaperUnder(model: CostModel, w: CostWeights): (Route, Route) -> bool {
    (a: Route, b: Route) => ScalarRouteCost(model, a.metrics, w) <= ScalarRouteCost(model, b.metrics, w)
  }

  lemma CheaperUnderIsOrder(model: CostModel, w: CostWeights)
    ensures TotalPreorder(CheaperUnder(model, w))
  {}

  lemma PatternRouteMeetsBounds(net: Network, pattern: RoutingPattern, task: TaskType, qos: QoS)
    requires pattern != Pipeline
    ensures PatternRoute(net, pattern, task, qos).Ok? ==>
              SatisfiesConstraints(PatternRoute(net, pattern, task, qos).value.metrics, qos)
    ensures PatternRoute(net, pattern, task, qos).Err? ==>
        PatternRoute(net, pattern, task, qos).error == NoFeasibleRoute
  {
    hide CascadeChain, CascadeMetrics, ComputeRouteMetrics, RedundantMetrics, SatisfiesConstraints;
  }

  /** The agent list of `x` is in `r` at no higher cost, or `r` is full of routes that are no dearer. */
  ghost predicate RouteKept(x: Route, model: CostModel, w: CostWeights, maxRoutes: nat, r: seq<Route>) {
    || (exists y :: y in r && y.agents == x.agents && CheaperUnder(model, w)(y, x))
    || (|r| == maxRoutes && forall y :: y in r ==> CheaperUnder(model, w)(y, x))
  }

  lemma KeptBeaten(x: Route, model: CostModel, w: CostWeights, maxRoutes: nat, r: seq<Route>)
    requires RouteKept(x, model, w, maxRoutes, r) && SortedBy(r, CheaperUnder(model, w)) && maxRoutes >= 1
    ensures r != [] && CheaperUnder(model, w)(r[0], x)
  {
    hide ScalarRouteCost;
    if |r| == maxRoutes && forall y :: y in r ==> CheaperUnder(model, w)(y, x) {
      assert r[0] in r;
    } else {
      var y :| y in r && y.agents == x.agents && CheaperUnder(model, w)(y, x);
      var k :| 0 <= k < |r| && r[k] == y;
      if k > 0 { assert CheaperUnder(model, w)(r[0], r[k]); }
    }
  }

  /** Sort by scalar cost, keep the first route of every agent list, truncate. */
  method RankByCost(routes: seq<Route>, model: CostModel, w: CostWeights, maxRoutes: nat) returns (r: seq<Route>)
    ensures |r| <= maxRoutes && SortedBy(r, CheaperUnder(model, w)) && KeysDistinct(r, AgentsKey)
    ensures forall x :: x in r ==> x in routes
    ensures forall x :: x in routes ==> RouteKept(x, model, w, maxRoutes, r)
  {
    hide ScalarRouteCost, DistinctBy, Take, TotalPreorder;
    var le := CheaperUnder(model, w);
    assert TotalPreorder(le) by { CheaperUnderIsOrder(model, w); }
    var sorted := StableSort(routes, le);
    SortPermutes(routes, le);
    SortSorts(routes, le);
    r := Take(DistinctBy(sorted, AgentsKey, {}), maxRoutes);
    TopOfSorted(sorted, le, maxRoutes);
    forall x | x in routes ensures RouteKept(x, model, w, maxRoutes, r) {
      TopKept(sorted, AgentsKey, le, maxRoutes, x);
    }
  }

  lemma TopOfSorted(sorted: seq<Route>, le: (Route, Route) -> bool, maxRoutes: nat)
    requires SortedBy(sorted, le)
    ensures var r := Take(DistinctBy(sorted, AgentsKey, {}), maxRoutes);
            |r| <= maxRoutes && SortedBy(r, le) && KeysDistinct(r, AgentsKey) && forall x :: x in r ==> x in sorted
  {
    DistinctByKeys(sorted, AgentsKey, {});
    DistinctByOrder(sorted, AgentsKey, {}, le);
    hide DistinctBy;
  }

  class EconomicRouter {
    const graph: AgentGraph
    const costModel: CostModel
    const maxRoutes: nat

    constructor (graph: AgentGraph, costModel: CostModel, maxRoutes: nat)
      ensures this.graph == graph && this.costModel == costModel && this.maxRoutes == maxRoutes
    {
      this.graph, this.costModel, this.maxRoutes := graph, costModel, maxRoutes;
    }

    /** The best pipeline of the sweep, as the fallback and the explicit pipeline pattern use it. */
    method BestPipeline(task: TaskType, qos: QoS) returns (r: Result<Route, RoutingError>)
      requires graph.Valid()
      ensures r.Err? ==> r.error == NoFeasibleRoute && SweepFails(graph.Snapshot(), task, qos, costModel)
      ensures r.Ok? ==> SweepFinds(graph.Snapshot(), task, qos, costModel)
      ensures SoloFeasible(graph.Snapshot(), task, qos) ==> r.Ok?
      ensures SaneBudget(graph.Snapshot(), task, qos) ==> (r.Ok? <==> SoloFeasible(graph.Snapshot(), task, qos))
      ensures r.Ok? ==> SatisfiesConstraints(r.value.metrics, qos) && r.value.pattern == Pipeline
      ensures r.Ok? ==> FollowsLinks(graph.Snapshot(), task, qos.minTrust, r.value)
      ensures r.Ok? && Scorable(qos, costModel) ==>
                var cost := ScalarRouteCost(costModel, r.value.metrics, WeightsFromConstraints(qos));
                BeatsCandidates(graph.Snapshot(), task, qos, costModel, cost) &&
                BeatsSolos(graph.Snapshot(), task, qos, costModel, cost)
    {
      hide SaneBudget, SoloFeasible, FollowsLinks, SatisfiesConstraints, ScalarRouteCost, WeightsFromConstraints,
           BeatsSolos, BeatsCandidates, Scorable, TopPipelines, SweepFinds, SweepFails;
      var top := BellmanFordRoutes(graph.Snapshot(), task, qos, costModel, 1);
      if top.Err? { return Err(top.error); }
      if |top.value| == 0 { return Err(NoFeasibleRoute); }
      r := Ok(top.value[0]);
    }

    method TryPattern(pattern: RoutingPattern, task: TaskType, qos: QoS) returns (r: Result<Route, RoutingError>)
      requires graph.Valid()
      ensures pattern != Pipeline ==> r == PatternRoute(graph.Snapshot(), pattern, task, qos)
      ensures PatternMakes(graph.Snapshot(), pattern, task, qos, r)
      ensures r.Ok? ==> SatisfiesConstraints(r.value.metrics, qos) && r.value.pattern == pattern
      ensures r.Ok? ==> Staffed(graph.Snapshot(), task, qos.minTrust, r.value.agents)
      ensures pattern == Pipeline && r.Ok? ==> FollowsLinks(graph.Snapshot(), task, qos.minTrust, r.value)
      ensures pattern == Pipeline && SaneBudget(graph.Snapshot(), task, qos) ==>
                (r.Ok? <==> SoloFeasible(graph.Snapshot(), task, qos))
      ensures pattern == Pipeline && r.Ok? && Scorable(qos, costModel) ==>
                var cost := ScalarRouteCost(costModel, r.value.metrics, WeightsFromConstraints(qos));
                BeatsCandidates(graph.Snapshot(), task, qos, costModel, cost) &&
                BeatsSolos(graph.Snapshot(), task, qos, costModel, cost)
    {
      hide SaneBudget, SoloFeasible, FollowsLinks, SatisfiesConstraints, ScalarRouteCost, WeightsFromConstraints,
           BeatsSolos, BeatsCandidates, Scorable, TopPipelines, SweepFinds, SweepFails, Staffed,
           RunsAll, AsksInTurn, RefinesDraft;
      if pattern == Pipeline {
        r := BestPipeline(task, qos);
        if r.Ok? { LinkedIsStaffed(graph.Snapshot(), task, qos.minTrust, r.value); }
      } else {
        r := PatternRoute(graph.Snapshot(), pattern, task, qos);
        PatternRouteMeetsBounds(graph.Snapshot(), pattern, task, qos);
        PatternRouteMakes(graph.Snapshot(), pattern, task, qos);
        if r.Ok? {
          PatternIsKept(graph.Snapshot(), pattern, task, qos);
          PatternStaffed(graph.Snapshot(), pattern, task, qos);
        }
      }
    }

    /**
     * Find one route. Every route returned meets the bounds and is staffed. Without a preferred pattern a
     * successful automatic choice is returned; after a failed one the result is a pipeline along real links when
     * the sweep offers a feasible candidate, and a failure otherwise. With a non-negative budget or fair prices
     * the sweep never offers one then, so the result is exactly that of the automatic choice. What the automatic
     * choice is, the table of `Choice` says.
     */
    method FindRoute(task: TaskType, qos: QoS, preferred: Option<RoutingPattern>)
      returns (r: Result<Route, RoutingError>)
      requires graph.Valid()
      ensures graph.nodes == [] ==> r == Err(EmptyGraph)
      ensures graph.nodes != [] && r.Err? ==> r.error == NoFeasibleRoute
      ensures graph.nodes != [] && r.Err? ==>
                AutoSelect(graph.Snapshot(), task, qos).Err? && SweepFails(graph.Snapshot(), task, qos, costModel)
      ensures r.Ok? ==> SatisfiesConstraints(r.value.metrics, qos)
      ensures r.Ok? ==> Staffed(graph.Snapshot(), task, qos.minTrust, r.value.agents)
      ensures graph.nodes != [] && AutoSelect(graph.Snapshot(), task, qos).Ok? ==> r.Ok?
      ensures graph.nodes != [] && preferred.None? && AutoSelect(graph.Snapshot(), task, qos).Ok? ==>
                r == AutoSelect(graph.Snapshot(), task, qos)
      ensures graph.nodes != [] && preferred.None? ==>
                exists chosen ::
                  && Chosen(graph.Snapshot(), task, qos, chosen)
                  && (chosen.Ok? || SaneBudget(graph.Snapshot(), task, qos) ==> r == chosen)
      ensures preferred.None? && AutoSelect(graph.Snapshot(), task, qos).Err? && r.Ok? ==>
                r.value.pattern == Pipeline && FollowsLinks(graph.Snapshot(), task, qos.minTrust, r.value) &&
                SweepFinds(graph.Snapshot(), task, qos, costModel)
      ensures graph.nodes != [] && preferred.None? && SaneBudget(graph.Snapshot(), task, qos) ==>
                r == AutoSelect(graph.Snapshot(), task, qos)
      ensures graph.nodes != [] && preferred == Some(Pipeline) && SaneBudget(graph.Snapshot(), task, qos) &&
              !SoloFeasible(graph.Snapshot(), task, qos) ==>
                r == AutoSelect(graph.Snapshot(), task, qos)
      ensures graph.nodes != [] && preferred.Some? && preferred.value != Pipeline &&
              PatternRoute(graph.Snapshot(), preferred.value, task, qos).Ok? ==>
                r == PatternRoute(graph.Snapshot(), preferred.value, task, qos)
      ensures graph.nodes != [] && preferred.Some? && preferred.value != Pipeline &&
              PatternRoute(graph.Snapshot(), preferred.value, task, qos).Err? &&
              SaneBudget(graph.Snapshot(), task, qos) ==>
                r == AutoSelect(graph.Snapshot(), task, qos)
    {
      hide SaneBudget, SoloFeasible, FollowsLinks, SatisfiesConstraints, ScalarRouteCost, WeightsFromConstraints,
           BeatsSolos, BeatsCandidates, Scorable, TopPipelines, SweepFinds, SweepFails, AutoSelect, PatternRoute,
           Chosen, Staffed;
      if |graph.nodes| == 0 { return Err(EmptyGraph); }
      if preferred.Some? {
        r := TryPattern(preferred.value, task, qos);
        if r.Ok? { return; }
      }
      var auto := AutoSelect(graph.Snapshot(), task, qos);
      AutoSelectMeetsBounds(graph.Snapshot(), task, qos);
      AutoSelectIsChosen(graph.Snapshot(), task, qos);
      AutoSelectStaffed(graph.Snapshot(), task, qos);
      if auto.Ok? { return auto; }
      r := BestPipeline(task, qos);
      if r.Ok? { LinkedIsStaffed(graph.Snapshot(), task, qos.minTrust, r.value); }
      if SoloFeasible(graph.Snapshot(), task, qos) { AutoSelectFindsSolo(graph.Snapshot(), task, qos); }
    }

    /** Routes of all applicable patterns, in the order the original pushes them. */
    method CollectPatternRoutes(task: TaskType, qos: QoS) returns (routes: seq<Route>)
      ensures AllPatterns(graph.Snapshot(), task, qos, routes)
      ensures |routes| <= 4
    {
      hide PatternRoute;
      routes := [];
      var order := [DraftRefine, ParallelMerge, Cascade, Ensemble];
      for i := 0 to 4
        invariant |routes| <= i
        invariant forall x :: x in routes <==>
                    exists k :: 0 <= k < i && PatternRoute(graph.Snapshot(), order[k], task, qos) == Ok(x)
      {
        var attempt := PatternRoute(graph.Snapshot(), order[i], task, qos);
        if attempt.Ok? { routes := routes + [attempt.value]; }
      }
      forall p | p != Pipeline && PatternRoute(graph.Snapshot(), p, task, qos).Ok?
        ensures PatternRoute(graph.Snapshot(), p, task, qos).value in routes
      {
        assert order[0] == DraftRefine && order[1] == ParallelMerge && order[2] == Cascade && order[3] == Ensemble;
      }
    }

    /**
     * Find several routes, best first. All meet the bounds and are staffed, no agent list appears twice, and a
     * pattern route or a pipeline is left out only when the list is full of routes that are no dearer. The first
     * is at least as good as every applicable pattern, every feasible candidate of the sweep and every agent
     * feasible alone.
     */
    method FindRoutes(task: TaskType, qos: QoS) returns (r: Result<seq<Route>, RoutingError>)
      requires graph.Valid()
      ensures graph.nodes == [] ==> r == Err(EmptyGraph)
      ensures graph.nodes != [] && r.Err? ==> r.error == NoFeasibleRoute
      ensures r.Ok? ==> |r.value| <= maxRoutes && KeysDistinct(r.value, AgentsKey)
                        && SortedBy(r.value, CheaperUnder(costModel, WeightsFromConstraints(qos)))
      ensures r.Ok? ==> forall x :: x in r.value ==>
                SatisfiesConstraints(x.metrics, qos) && Staffed(graph.Snapshot(), task, qos.minTrust, x.agents)
      ensures r.Ok? ==> Gathered(graph.Snapshot(), task, qos, costModel, maxRoutes, r.value)
      ensures graph.nodes != [] && maxRoutes >= 1 && r.Err? ==> SweepFails(graph.Snapshot(), task, qos, costModel)
      ensures graph.nodes != [] && maxRoutes >= 1 && SaneBudget(graph.Snapshot(), task, qos) ==>
                (r.Ok? <==> SoloFeasible(graph.Snapshot(), task, qos)
                            || exists p :: p != Pipeline && PatternRoute(graph.Snapshot(), p, task, qos).Ok?)
      ensures r.Ok? && maxRoutes >= 1 ==> r.value != []
      ensures r.Ok? && maxRoutes >= 1 ==> BeatsPatterns(graph.Snapshot(), task, qos, costModel, r.value[0])
      ensures r.Ok? && maxRoutes >= 1 && Scorable(qos, costModel) ==>
                BeatsSolos(graph.Snapshot(), task, qos, costModel,
                           ScalarRouteCost(costModel, r.value[0].metrics, WeightsFromConstraints(qos)))
      ensures r.Ok? && maxRoutes >= 1 && Scorable(qos, costModel) && SoloFeasible(graph.Snapshot(), task, qos) ==>
                BeatsCandidates(graph.Snapshot(), task, qos, costModel,
                                ScalarRouteCost(costModel, r.value[0].metrics, WeightsFromConstraints(qos)))
    {
      hide SaneBudget, SoloFeasible, FollowsLinks, SatisfiesConstraints, ScalarRouteCost, WeightsFromConstraints,
           PatternRoute, BeatsSolos, BeatsCandidates, Scorable, TopPipelines, RouteKept, Gathered, BeatsPatterns,
           KeysDistinct, SortedBy, SweepFinds, SweepFails, Staffed;
      if |graph.nodes| == 0 { return Err(EmptyGraph); }
      var net := graph.Snapshot();
      var patterns := CollectPatternRoutes(task, qos);
      assert graph.Snapshot() == net;
      CollectedMeetBounds(net, task, qos, patterns);
      var top := BellmanFordRoutes(net, task, qos, costModel, maxRoutes);
      var pipelines := if top.Ok? then top.value else [];
      var all := patterns + pipelines;
      if |all| == 0 {
        NothingGathered(net, task, qos, patterns);
        return Err(NoFeasibleRoute);
      }
      var w := WeightsFromConstraints(qos);
      var ranked := RankByCost(all, costModel, w, maxRoutes);
      GatherAll(net, task, qos, costModel, maxRoutes, patterns, pipelines, ranked);
      GatheredStaffed(net, task, qos, patterns, pipelines);
      if |patterns| > 0 { assert patterns[0] in patterns; }
      if maxRoutes >= 1 {
        assert all[0] in all;
        KeptBeaten(all[0], costModel, w, maxRoutes, ranked);
        FirstBeatsPatterns(net, task, qos, costModel, maxRoutes, patterns, ranked);
        if top.Err? {
          NothingToBeat(net, task, qos, costModel);
        } else if Scorable(qos, costModel) {
          assert top.value[0] in all;
          KeptBeaten(top.value[0], costModel, w, maxRoutes, ranked);
          BeatsDown(net, task, qos, costModel, ScalarRouteCost(costModel, top.value[0].metrics, w),
                    ScalarRouteCost(costModel, ranked[0].metrics, w));
        }
      }
      r := Ok(ranked);
    }
  }

  ghost predicate AllPatterns(net: Network, task: TaskType, qos: QoS, routes: seq<Route>) {
    && (forall x :: x in routes ==> exists p :: p != Pipeline && PatternRoute(net, p, task, qos) == Ok(x))
    && (forall p :: p != Pipeline && PatternRoute(net, p, task, qos).Ok? ==>
        PatternRoute(net, p, task, qos).value in routes)
  }

  lemma CollectedMeetBounds(net: Network, task: TaskType, qos: QoS, routes: seq<Route>)
    requires AllPatterns(net, task, qos, routes)
    ensures forall x :: x in routes ==> SatisfiesConstraints(x.metrics, qos)
  {
    hide PatternRoute, SatisfiesConstraints;
    forall x | x in routes ensures SatisfiesConstraints(x.metrics, qos) {
      var p :| p != Pipeline && PatternRoute(net, p, task, qos) == Ok(x);
      PatternRouteMeetsBounds(net, p, task, qos);
    }
  }

  lemma NothingGathered(net: Network, task: TaskType, qos: QoS, patterns: seq<Route>)
    requires AllPatterns(net, task, qos, patterns) && patterns == []
    ensures !exists p :: p != Pipeline && PatternRoute(net, p, task, qos).Ok?
  {
    hide PatternRoute;
  }

  /** The pipelines a search contributes: the top of the sweep `results`, or none when a sweep finds nothing. */
  ghost predicate Contributed(net: Network, task: TaskType, qos: QoS, model: CostModel, maxRoutes: nat,
                              results: seq<BellmanFordResult>, pipelines: seq<Route>)
  {
    || (exists selected :: SpelledOut(net, task, qos, model, maxRoutes, results, selected, pipelines))
    || (results == [] && NothingFound(net, task, qos, model, pipelines))
  }

  ghost predicate NothingFound(net: Network, task: TaskType, qos: QoS, model: CostModel, pipelines: seq<Route>) {
    pipelines == [] && !SoloFeasible(net, task, qos) && SweepFails(net, task, qos, model)
  }

  /**
   * The list comes from the applicable patterns and the pipelines of one sweep, leaves one of them out only when
   * it is full, and its first route beats every feasible candidate of that sweep.
   */
  ghost predicate Gathered(net: Network, task: TaskType, qos: QoS, model: CostModel, maxRoutes: nat, r: seq<Route>) {
    exists patterns, results, pipelines ::
      GatheredFrom(net, task, qos, model, maxRoutes, patterns, results, pipelines, r)
  }

  ghost predicate GatheredFrom(net: Network, task: TaskType, qos: QoS, model: CostModel, maxRoutes: nat,
                               patterns: seq<Route>, results: seq<BellmanFordResult>, pipelines: seq<Route>,
                               r: seq<Route>)
  {
    && AllPatterns(net, task, qos, patterns) && Contributed(net, task, qos, model, maxRoutes, results, pipelines)
    && (forall x :: x in r ==> x in patterns + pipelines)
    && (forall x :: x in patterns + pipelines ==> RouteKept(x, model, WeightsFromConstraints(qos), maxRoutes, r))
    && (r != [] && Scorable(qos, model) ==>
          BeatsFeasible(results, qos, model, ScalarRouteCost(model, r[0].metrics, WeightsFromConstraints(qos))))
  }

  lemma GatherAll(net: Network, task: TaskType, qos: QoS, model: CostModel, maxRoutes: nat,
                  patterns: seq<Route>, pipelines: seq<Route>, r: seq<Route>)
    requires AllPatterns(net, task, qos, patterns)
    requires |r| <= maxRoutes && SortedBy(r, CheaperUnder(model, WeightsFromConstraints(qos)))
    requires (TopPipelines(net, task, qos, model, maxRoutes, pipelines) && (maxRoutes >= 1 ==> pipelines != []))
             || NothingFound(net, task, qos, model, pipelines)
    requires forall x :: x in r ==> x in patterns + pipelines
    requires forall x :: x in patterns + pipelines ==> RouteKept(x, model, WeightsFromConstraints(qos), maxRoutes, r)
    ensures Gathered(net, task, qos, model, maxRoutes, r)
  {
    hide AllPatterns, RouteKept, WeightsFromConstraints, SortedBy, SpelledOut, NothingFound, Scorable, ScalarRouteCost,
         BeatsFeasible;
    if NothingFound(net, task, qos, model, pipelines) {
      BeatsNone(qos, model);
      assert GatheredFrom(net, task, qos, model, maxRoutes, patterns, [], pipelines, r);
    } else {
      var results, selected :| SpelledOut(net, task, qos, model, maxRoutes, results, selected, pipelines);
      if r != [] && Scorable(qos, model) {
        assert pipelines[0] in patterns + pipelines;
        KeptBeaten(pipelines[0], model, WeightsFromConstraints(qos), maxRoutes, r);
        FirstSpelledOut(net, task, qos, model, maxRoutes, results, selected, pipelines);
        var w := WeightsFromConstraints(qos);
        BeatsFeasibleDown(results, qos, model, ScalarRouteCost(model, pipelines[0].metrics, w),
                          ScalarRouteCost(model, r[0].metrics, w));
      }
      assert GatheredFrom(net, task, qos, model, maxRoutes, patterns, results, pipelines, r);
    }
  }

  lemma FirstSpelledOut(net: Network, task: TaskType, qos: QoS, model: CostModel, maxRoutes: nat,
                        results: seq<BellmanFordResult>, selected: seq<ParetoRoute>, routes: seq<Route>)
    requires SpelledOut(net, task, qos, model, maxRoutes, results, selected, routes) && routes != []
    requires Scorable(qos, model)
    ensures BeatsFeasible(results, qos, model, ScalarRouteCost(model, routes[0].metrics, WeightsFromConstraints(qos)))
  {}

  lemma BeatsNone(qos: QoS, model: CostModel)
    ensures forall cost :: BeatsFeasible([], qos, model, cost)
  {}

  lemma BeatsFeasibleDown(results: seq<BellmanFordResult>, qos: QoS, model: CostModel, cost: real, lower: real)
    requires BeatsFeasible(results, qos, model, cost) && lower <= cost
    ensures BeatsFeasible(results, qos, model, lower)
  {
    hide ScalarRouteCost, SatisfiesConstraints, WeightsFromConstraints;
  }

  /** No applicable pattern is cheaper than `first`. */
  ghost predicate BeatsPatterns(net: Network, task: TaskType, qos: QoS, model: CostModel, first: Route) {
    forall p :: p != Pipeline && PatternRoute(net, p, task, qos).Ok? ==>
      CheaperUnder(model, WeightsFromConstraints(qos))(first, PatternRoute(net, p, task, qos).value)
  }

  lemma FirstBeatsPatterns(net: Network, task: TaskType, qos: QoS, model: CostModel, maxRoutes: nat,
                           patterns: seq<Route>, r: seq<Route>)
    requires AllPatterns(net, task, qos, patterns) && maxRoutes >= 1 && r != []
    requires SortedBy(r, CheaperUnder(model, WeightsFromConstraints(qos)))
    requires forall x :: x in patterns ==> RouteKept(x, model, WeightsFromConstraints(qos), maxRoutes, r)
    ensures BeatsPatterns(net, task, qos, model, r[0])
  {
    hide PatternRoute, RouteKept, WeightsFromConstraints, ScalarRouteCost, SortedBy;
    forall p | p != Pipeline && PatternRoute(net, p, task, qos).Ok?
      ensures CheaperUnder(model, WeightsFromConstraints(qos))(r[0], PatternRoute(net, p, task, qos).value)
    {
      KeptBeaten(PatternRoute(net, p, task, qos).value, model, WeightsFromConstraints(qos), maxRoutes, r);
    }
  }

  lemma NothingToBeat(net: Network, task: TaskType, qos: QoS, model: CostModel)
    requires !SoloFeasible(net, task, qos)
    ensures forall cost :: BeatsSolos(net, task, qos, model, cost)
  {}

  lemma BeatsDown(net: Network, task: TaskType, qos: QoS, model: CostModel, cost: real, lower: real)
    requires lower <= cost
    ensures BeatsSolos(net, task, qos, model, cost) ==> BeatsSolos(net, task, qos, model, lower)
    ensures BeatsCandidates(net, task, qos, model, cost) ==> BeatsCandidates(net, task, qos, model, lower)
  {
    hide ScalarRouteCost, SatisfiesConstraints, Solo, WeightsFromConstraints, SweepDelivers;
    if BeatsCandidates(net, task, qos, model, cost) {
      var results :| SweepDelivers(net, task, qos.minTrust, model, results) && BeatsFeasible(results, qos, model, cost);
      assert BeatsFeasible(results, qos, model, lower);
    }
  }

  lemma PatternIsKept(net: Network, pattern: RoutingPattern, task: TaskType, qos: QoS)
    requires pattern != Pipeline && PatternRoute(net, pattern, task, qos).Ok?
    ensures PatternRoute(net, pattern, task, qos).value.pattern == pattern
  {
    hide CascadeChain, CascadeMetrics, ComputeRouteMetrics, RedundantMetrics, SatisfiesConstraints;
  }
}
