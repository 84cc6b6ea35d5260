/** The multi-objective sweep: one Bellman-Ford run per weight vector and source. */
module Sweep {
  import opened Prelude
  import opened Types
  import opened Cost
  import opened Graph
  import opened ShortestPaths
  import opened BellmanFord
  import opened PathMetrics

  datatype BellmanFordResult = BellmanFordResult(
    weights: CostWeights, path: seq<nat>, scalarCost: real, metrics: RouteMetrics)

  /** A candidate is a solo agent or a real multi-agent route, with the metrics of its path. */
  ghost predicate Candidate(net: Network, agents: seq<nat>, task: TaskType, model: CostModel, c: BellmanFordResult) {
    && c.weights in PARETO_SAMPLE_VECTORS
    && |c.path| > 0 && Qualified(net, c.path, task) && c.metrics == MetricsOf(net, c.path, task)
    && (forall i :: 0 <= i < |c.path| ==> c.path[i] in agents)
    && (|c.path| == 1 ==> c.scalarCost == ScalarRouteCost(model, c.metrics, c.weights))
    && (|c.path| > 1 ==> RealRoute(Problem(net, agents, task, c.weights, model), c.path[0], c.path))
  }

  ghost predicate Candidates(net: Network, agents: seq<nat>, task: TaskType, model: CostModel,
                             results: seq<BellmanFordResult>)
  {
    forall c :: c in results ==> Candidate(net, agents, task, model, c)
  }

  /** Some candidate of this weight vector is a cheapest route out of the agent at local index `s`. */
  ghost predicate HasBestFrom(p: Problem, s: nat, results: seq<BellmanFordResult>) {
    exists c :: c in results && c.weights == p.weights && BestRoute(p, s, c.path, c.scalarCost)
  }

  /** Every (weight vector, source) pair from which another agent can be reached contributes its cheapest route. */
  ghost predicate Swept(net: Network, agents: seq<nat>, task: TaskType, model: CostModel, w: CostWeights, s: nat,
                        results: seq<BellmanFordResult>)
    requires s < |agents|
  {
    var p := Problem(net, agents, task, w, model);
    NoNegativeCycle(p.Subgraph(), s) && SomeoneReachable(p.Subgraph(), s) ==> HasBestFrom(p, s, results)
  }

  ghost predicate HasSolo(net: Network, task: TaskType, a: nat, w: CostWeights, results: seq<BellmanFordResult>) {
    exists c :: c in results && c.path == [a] && c.weights == w
  }

  /** The members of a real route are agents that can do the task. */
  lemma RealRouteQualified(p: Problem, source: nat, path: seq<nat>)
    requires RealRoute(p, source, path)
    requires forall a :: a in p.agents ==> p.net.CapabilityAt(a, p.task).Some?
    ensures Qualified(p.net, path, p.task)
    ensures forall i :: 0 <= i < |path| ==> path[i] in p.agents
    ensures forall i :: 0 <= i < |path| - 1 ==> p.net.TransferLatency(path[i], path[i + 1]).Some?
    ensures Distinct(p.agents) ==> Distinct(path)
  {}

  lemma SoloCandidate(net: Network, task: TaskType, a: nat)
    requires net.CapabilityAt(a, task).Some?
    ensures Qualified(net, [a], task)
    ensures MetricsOf(net, [a], task) == Solo(net.CapabilityAt(a, task).value)
  {
    assert CapabilitiesAlong(net, [a], task) == [net.CapabilityAt(a, task).value];
  }

  /** One solo candidate per weight vector for one agent. */
  method SoloResults(net: Network, ghost agents: seq<nat>, task: TaskType, model: CostModel, a: nat)
    returns (results: seq<BellmanFordResult>)
    requires a in agents && net.CapabilityAt(a, task).Some?
    ensures Candidates(net, agents, task, model, results)
    ensures |results| == |PARETO_SAMPLE_VECTORS|
    ensures forall w :: w in PARETO_SAMPLE_VECTORS ==> HasSolo(net, task, a, w, results)
  {
    var metrics := Solo(net.CapabilityAt(a, task).value);
    SoloCandidate(net, task, a);
    results := [];
    for k := 0 to |PARETO_SAMPLE_VECTORS|
      invariant |results| == k && Candidates(net, agents, task, model, results)
      invariant forall i :: 0 <= i < k ==> results[i].path == [a] && results[i].weights == PARETO_SAMPLE_VECTORS[i]
    {
      var w := PARETO_SAMPLE_VECTORS[k];
      results := results + [BellmanFordResult(w, [a], ScalarRouteCost(model, metrics, w), metrics)];
    }
    forall w | w in PARETO_SAMPLE_VECTORS ensures HasSolo(net, task, a, w, results) {
      var i :| 0 <= i < |PARETO_SAMPLE_VECTORS| && PARETO_SAMPLE_VECTORS[i] == w;
      assert results[i] in results;
    }
  }

  /** The run from one source: at most one candidate. */
  method RunOne(p: Problem, s: nat) returns (added: seq<BellmanFordResult>)
    requires p.Valid() && s < |p.agents| && p.weights in PARETO_SAMPLE_VECTORS
    requires forall a :: a in p.agents ==> p.net.CapabilityAt(a, p.task).Some?
    ensures Candidates(p.net, p.agents, p.task, p.model, added)
    ensures Swept(p.net, p.agents, p.task, p.model, p.weights, s, added)
  {
    hide RunDelivers, BestRoute, RealRoute, NoNegativeCycle, SomeoneReachable, Swept, Candidate, Qualified;
    added := [];
    var run := BellmanFordSingle(p, p.agents[s]);
    assert RunDelivers(p, s, run);
    if run.Some? {
      RunIsReal(p, s, run);
      RealRouteQualified(p, p.agents[s], run.value.0);
      var walked := WalkPath(p.net, run.value.0, p.task);
      if |run.value.0| >= 2 && walked.Ok? {
        added := [BellmanFordResult(p.weights, run.value.0, run.value.1, walked.value.1)];
        RunIsCandidate(p, run.value, walked.value.1);
        assert added[0] in added;
      }
    }
    RunSweeps(p, s, run, added);
  }

  /** The runs of one weight vector, one per source. */
  method RunsFor(net: Network, agents: seq<nat>, task: TaskType, model: CostModel, w: CostWeights)
    returns (results: seq<BellmanFordResult>)
    requires net.Valid() && Distinct(agents) && w in PARETO_SAMPLE_VECTORS
    requires forall a :: a in agents ==> net.CapabilityAt(a, task).Some?
    ensures Candidates(net, agents, task, model, results)
    ensures forall s :: 0 <= s < |agents| ==> Swept(net, agents, task, model, w, s, results)
  {
    hide Swept, Candidate;
    results := [];
    for s := 0 to |agents|
      invariant Candidates(net, agents, task, model, results)
      invariant forall t :: 0 <= t < s ==> Swept(net, agents, task, model, w, t, results)
    {
      ghost var before := results;
      var added := RunOne(Problem(net, agents, task, w, model), s);
      results := results + added;
      forall t | 0 <= t <= s ensures Swept(net, agents, task, model, w, t, results) {
        SweptGrows(net, agents, task, model, w, t, if t == s then added else before, results);
      }
    }
  }

  lemma RunIsReal(p: Problem, s: nat, run: Option<(seq<nat>, real)>)
    requires s < |p.agents| && RunDelivers(p, s, run) && run.Some?
    ensures RealRoute(p, p.agents[s], run.value.0) && |run.value.0| >= 2 && run.value.0[0] == p.agents[s]
  {}

  lemma RunIsCandidate(p: Problem, found: (seq<nat>, real), metrics: RouteMetrics)
    requires p.weights in PARETO_SAMPLE_VECTORS && |found.0| >= 2
    requires Qualified(p.net, found.0, p.task) && metrics == MetricsOf(p.net, found.0, p.task)
    requires RealRoute(p, found.0[0], found.0)
    requires forall a :: a in p.agents ==> p.net.CapabilityAt(a, p.task).Some?
    ensures Candidate(p.net, p.agents, p.task, p.model, BellmanFordResult(p.weights, found.0, found.1, metrics))
  {
    RealRouteQualified(p, found.0[0], found.0);
  }

  lemma RunSweeps(p: Problem, s: nat, run: Option<(seq<nat>, real)>, results: seq<BellmanFordResult>)
    requires s < |p.agents| && RunDelivers(p, s, run)
    requires run.Some? ==>
               exists c :: c in results && c.weights == p.weights
                           && c.path == run.value.0 && c.scalarCost == run.value.1
    ensures Swept(p.net, p.agents, p.task, p.model, p.weights, s, results)
  {
    hide NoNegativeCycle, SomeoneReachable, BestRoute, RealRoute;
  }

  lemma SweptGrows(net: Network, agents: seq<nat>, task: TaskType, model: CostModel, w: CostWeights, s: nat,
                   a: seq<BellmanFordResult>, b: seq<BellmanFordResult>)
    requires s < |agents| && Swept(net, agents, task, model, w, s, a)
    requires forall c :: c in a ==> c in b
    ensures Swept(net, agents, task, model, w, s, b)
  {
    hide NoNegativeCycle, SomeoneReachable, BestRoute;
  }

  /** What the sweep promises about its candidate list. */
  ghost predicate SweepDelivers(net: Network, task: TaskType, minTrust: real, model: CostModel,
                                results: seq<BellmanFordResult>) {
    var agents := net.CapableAgents(task, minTrust);
    && results != []
    && Candidates(net, agents, task, model, results)
    && (forall a, w :: a in agents && w in PARETO_SAMPLE_VECTORS ==> HasSolo(net, task, a, w, results))
    && (|agents| >= 2 ==> forall w, s :: w in PARETO_SAMPLE_VECTORS && 0 <= s < |agents| ==>
          Swept(net, agents, task, model, w, s, results))
  }

  method MultiObjectiveBellmanFord(net: Network, task: TaskType, minTrust: real, model: CostModel)
    returns (r: Result<seq<BellmanFordResult>, RoutingError>)
    requires net.Valid()
    ensures r.Err? <==> forall i :: !net.IsCapable(i, task, minTrust)
    ensures r.Err? ==> r.error == NoFeasibleRoute
    ensures r.Ok? ==> SweepDelivers(net, task, minTrust, model, r.value)
  {
    hide Swept, Candidate;
    var agents := net.CapableAgents(task, minTrust);
    if |agents| == 0 { return Err(NoFeasibleRoute); }
    assert net.IsCapable(agents[0], task, minTrust);
    if |agents| == 1 {
      var solo := SoloResults(net, agents, task, model, agents[0]);
      return Ok(solo);
    }
    var results: seq<BellmanFordResult> := [];
    for k := 0 to |PARETO_SAMPLE_VECTORS|
      invariant Candidates(net, agents, task, model, results)
      invariant forall i, s :: 0 <= i < k && 0 <= s < |agents| ==>
                                 Swept(net, agents, task, model, PARETO_SAMPLE_VECTORS[i], s, results)
    {
      var runs := RunsFor(net, agents, task, model, PARETO_SAMPLE_VECTORS[k]);
      ghost var before := results;
      results := results + runs;
      forall i, s | 0 <= i <= k && 0 <= s < |agents|
        ensures Swept(net, agents, task, model, PARETO_SAMPLE_VECTORS[i], s, results)
      {
        SweptGrows(net, agents, task, model, PARETO_SAMPLE_VECTORS[i], s, if i == k then runs else before, results);
      }
    }
    ghost var swept := results;
    for i := 0 to |agents|
      invariant Candidates(net, agents, task, model, results) && swept <= results
      invariant forall j, w :: 0 <= j < i && w in PARETO_SAMPLE_VECTORS ==> HasSolo(net, task, agents[j], w, results)
    {
      var solo := SoloResults(net, agents, task, model, agents[i]);
      ghost var before := results;
      results := results + solo;
      forall j, w | 0 <= j <= i && w in PARETO_SAMPLE_VECTORS ensures HasSolo(net, task, agents[j], w, results) {
        SoloGrows(net, task, agents[j], w, if j == i then solo else before, results);
      }
    }
    forall w, s | w in PARETO_SAMPLE_VECTORS && 0 <= s < |agents|
      ensures Swept(net, agents, task, model, w, s, results)
    {
      var i :| 0 <= i < |PARETO_SAMPLE_VECTORS| && PARETO_SAMPLE_VECTORS[i] == w;
      SweptGrows(net, agents, task, model, w, s, swept, results);
    }
    assert PARETO_SAMPLE_VECTORS[0] in PARETO_SAMPLE_VECTORS;
    assert HasSolo(net, task, agents[0], PARETO_SAMPLE_VECTORS[0], results);
    r := Ok(results);
  }

  lemma SoloGrows(net: Network, task: TaskType, a: nat, w: CostWeights, xs: seq<BellmanFordResult>,
                  ys: seq<BellmanFordResult>)
    requires HasSolo(net, task, a, w, xs) && forall c :: c in xs ==> c in ys
    ensures HasSolo(net, task, a, w, ys)
  {}

  /** With non-negative prices, weights and price reference the capability subgraph has no negative cycle. */
  lemma PricesRuleOutNegativeCycles(p: Problem, s: nat)
    requires p.weights.NonNegative() && 0.0 <= p.model.costRef
    requires forall a :: a in p.agents && p.net.CapabilityAt(a, p.task).Some? ==>
               0.0 <= p.net.CapabilityAt(a, p.task).value.costPerTask
    ensures NoNegativeCycle(p.Subgraph(), s)
  {
    var g := p.Subgraph();
    forall u: nat, v: nat | g.Arc(u, v) ensures 0.0 <= g.Weight(u, v) {
      assert p.HasArc(u, v);
      EdgeCostNonNegative(p.model, p.net.CapabilityAt(p.agents[v], p.task).value,
                          p.net.TransferLatency(p.agents[u], p.agents[v]).value, p.weights);
    }
    NonNegativeArcsSuffice(g, s);
  }
}
