# Verified model of the agent transfer protocol

A Dafny model of the decision-making parts of the protocol's layers: identity and trust (L1), the capability
handshake (L2), semantic context exchange (L3), economic routing (L4) and fault tolerance (L5). Methods follow the
loops and in-place updates of the original code; each is proved against a specification, and what the system promises
is proved about that specification for all inputs, all runs or all event histories.

`dafny verify dfyconfig.toml` checks everything.

## What is modelled

**Economic routing.** `Graph` is the indexed adjacency list and its invariant. `ShortestPaths` is the mathematics of
edge relaxation: walks, distances, the predecessor tree. `BellmanFord` is the run on the arrays `dist` and `pred`, with
early exit, destination choice and path reconstruction. It is proved for arbitrary real edge costs: where the loop
stops, distances are exact *if and only if* no negative cycle is reachable, and non-negative prices are one way to
ensure that. A run charges every agent that is entered and not the source; it minimises summed edge costs, not the
scalar cost of a route, and nothing here claims otherwise. What a reported cost means is said without the scalarisation
(`PathMetrics.PureCosts`): quality gaps, measured latency and measured price beyond the source. `Sweep` runs it for all weight vectors and sources,
`Optimizer` takes the Pareto front and selects the top routes, `Patterns` holds the redundant, cascading and
draft-refine patterns and the automatic choice, `Choice` the priority table that the automatic choice follows,
`Staffing` who may be named in a route, and `Router` puts them together. The end result is about the whole router:
without a preferred pattern `FindRoute` returns a successful automatic choice, and with a non-negative budget or fair
prices it equals the automatic choice, failures included. `Exploration` shows where that ends. Under a budget `b`
exploring adds nothing in any network if and only if `b` is not negative (`ExploringAddsNothingIff`); for every negative
budget three agents in a line form a network on which the automatic choice fails and every sweep succeeds, and
`RescueRun` is that run. The reason on the level of capabilities is `SoloSufficesIffBudgetNonNegative`: a feasible chain
has a feasible single agent under exactly the non-negative budgets.

**Identity and trust.** `Base58` is the carry loop in both directions, on 32-bit digits, against positional values;
`Base58Text` adds the alphabet and the exact round trips; `DidKey` the `did:key` identifiers, including the `z6Mk`
prefix that the documentation shows. `Trust` is the time-decayed weighted average.

**Semantic context.** `Extraction` splits, scores and selects chunks, `Adaptive` reconstructs and merges payloads,
`Session` is the refinement protocol between receiver and provider with its halving law.

**Capability handshake.** `Registry` holds the two indices, `Handshake` the relaxation of bounds, the state machine and
offer ranking, `Negotiation` the retry loop.

**Fault tolerance.** `Poison` compares the pruned sliding window with the full history; `CircuitBreaking` relates the
stored breakers to runs over event histories.

`Prelude`, `Types`, `Clock`, `Cost`, `PathMetrics`, `Products` and `Sequences` hold what these share; `Sequences` stands
for the stable sort, filter, retain and truncate operations of the standard library, and `Products` names the product
of two reals, so that proofs reason with its laws.

## Modelling decisions

- Floating point numbers are reals. A zero reference in a normalisation yields the cap of 2, as infinity and NaN do
  under `min`. A budget of exactly -1 makes every derived cost NaN; all comparisons then tie and the order is kept,
  which zero weights reproduce.
- Durations in routing and handshake are non-negative real seconds; clocks in the fault and trust layers are integer
  nanoseconds and are passed in. One call reads the clock once.
- Identifiers are numbers compared for equality. Random identifiers are parameters.
- The order in which a hash map yields its values is left open; every result holds for any order.
- A relaxation factor below -1 makes the original panic on a negative duration, so relaxation requires at least -1.
- Trust ages are whole seconds, so a decay weight is a power of one positive constant; no property of the exponential
  function is needed.

## Where the code and its documentation differ

The model follows the code.

- `extract_msc` documents an error when no chunk survives filtering; it returns an empty selection
  (crates/atp-context/src/extraction.rs:105, 162-180). `ExtractionFailsIff` says when it errs, `SelectionEmptyIff` when
  the selection is empty.
- The circuit breaker's comments speak of one probe; the half-open state lets every request through
  (crates/atp-fault/src/circuit_breaker.rs:84-88). Until an outcome is recorded all requests are granted, so one is
  granted exactly when one was made (`HalfOpenGrantsAll`); `TwoProbesGranted` is a run with two.
- `create_contract` says that the offer's values become the agreed terms. They do exactly when none of them is strictly
  inside its bound; the requester's bounds do exactly when the offer is within them
  (crates/atp-handshake/src/contract.rs:194-206), so a negotiated contract always carries the effective bounds
  (`AgreedIsEffective`).
- `select_top_routes` says that dominated routes might still satisfy the bounds when the front does not. That happens
  exactly when feasible results exist but the cheapest result of each of their paths is infeasible
  (`FrontFeasibleIff`): never on the candidates of a sweep, whose metrics depend on the path (`FrontKeepsFeasibility`).
- `merge_chunks` says that it deduplicates by index; it does so only against chunks held before the call. Indices stay
  unique exactly when a supply repeats only indices that were held (`MergeUniqueIff`), and requests are duplicate-free.
- `auto_select_pattern` compares the budget with one and a half times the median price and its default is a single
  agent (crates/atp-routing/src/patterns.rs:486, 507-520), not the plain median and a pipeline as documented.
- Base58 strings and bytes that are non-empty and all zero come out one symbol longer
  (crates/atp-identity/src/did.rs:140, 162-164), and characters are cut to eight bits before the lookup
  (crates/atp-identity/src/did.rs:182). The round trips name these families exactly; `AllZeroGrows`, `ForeignTwin` and
  `ForeignAccepted` are their members.

## Model

| member | source | states |
|---|---|---|
| Types.FindCapability | crates/atp-routing/src/graph.rs:30-32 | A listed capability for the task type; none exactly when none is listed |
| Types.FindsFirst | crates/atp-routing/src/graph.rs:30-32 | What is found is the first capability listed for the task type |
| Cost.DominanceLowersCost | crates/atp-routing/src/cost.rs:144-150 | A route that dominates another never has the higher scalar cost when each weight is in step with the sign of its reference |
| Cost.DominanceRespectedIffAligned | crates/atp-routing/src/cost.rs:144-150 | For any weights and references: scalarising respects dominance if and only if the quality weight is not negative and no weight has the sign opposite to its reference |
| Cost.DominatorMeetsBounds | crates/atp-routing/src/cost.rs:153-157 | Whatever dominates a route within the bounds is within them too |
| Cost.DominatesMeaning | crates/atp-routing/src/optimizer.rs:32-44 | One route dominates another exactly when they differ and it is nowhere worse |
| Cost.EdgeCostNonNegative | crates/atp-routing/src/cost.rs:99-106 | With non-negative prices and weights no edge cost is negative |
| Cost.WeightsFromConstraints | crates/atp-routing/src/cost.rs:161-177 | Derived weights are non-negative whenever the quality floor is non-negative and the budget is above -1; `WeightsMeaning` determines them |
| Cost.WeightsMeaning | crates/atp-routing/src/cost.rs:161-177 | Outside the default case the weights add up to 1, latency and cost weight are in inverse proportion to one plus their ceilings and the quality weight is the floor times that inverse; the default case and a budget of -1 by their values |
| Cost.TighterWeighsMore | crates/atp-routing/src/cost.rs:159-177 | For sane bounds, tightening one bound never lowers that bound's own weight |
| Cost.SampledWeights | crates/atp-routing/src/cost.rs:36-56 | The sampled vectors each add up to 1 and are pure, even over two, even over three, or mostly one objective |
| PathMetrics.EdgeCostIs | crates/atp-routing/src/cost.rs:99-106 | An edge counts the weighted quality gap, latency with its link, and price, in units of the references; a figure beyond twice its reference counts 2 |
| PathMetrics.RouteCostIs | crates/atp-routing/src/cost.rs:144-150 | A route counts its quality gap, latency and cost the same way |
| PathMetrics.UnlinkedHop | crates/atp-routing/src/cost.rs:179-184 | A hop that is not recorded counts 5 ms |
| PathMetrics.MetricsSnoc | crates/atp-routing/src/cost.rs:112-141 | One more agent on a path multiplies its quality and adds its latency, its link and its price |
| Cost.SoloMetrics | crates/atp-routing/src/cost.rs:112-141 | A one-agent route has exactly the (clamped) figures of its agent |
| Cost.PathNoBetterThanMember | crates/atp-routing/src/cost.rs:112-141 | A chain is at most as good and at least as slow as each of its agents |
| Cost.MembersMeetBounds | crates/atp-routing/src/cost.rs:112-157 | With non-negative prices, every agent of a chain that meets the bounds meets them alone |
| Cost.SomeMemberMeetsBounds | crates/atp-routing/src/cost.rs:112-157 | With any prices and a non-negative budget, some agent of such a chain meets the bounds alone; the agent is produced |
| Cost.SoloSufficesIffBudgetNonNegative | crates/atp-routing/src/cost.rs:112-157 | Single agents suffice for every feasible chain under a budget if and only if that budget is non-negative |
| Graph.Network.CapableAgents | crates/atp-routing/src/graph.rs:197-212 | Exactly the available agents with enough trust and a capability for the task, each once |
| Graph.Network.CapableMeaning | crates/atp-routing/src/graph.rs:194-213 | Capable are the agents that are switched on, trusted enough and list a capability for the task |
| Graph.AgentGraph.constructor | crates/atp-routing/src/graph.rs:62-68 | An empty graph satisfies the index and adjacency invariant |
| Graph.AgentGraph.AddAgent | crates/atp-routing/src/graph.rs:83-107 | The id index stays the inverse of the node list; a known agent keeps index and edges, every other node is untouched |
| Graph.AgentGraph.AddEdge | crates/atp-routing/src/graph.rs:110-126 | The latency of every ordered pair afterwards: only an unlinked pair of known agents gains the new one |
| Graph.AgentGraph.AddBidiEdge | crates/atp-routing/src/graph.rs:129-132 | The latency of every ordered pair afterwards: both directions of two known agents are linked, earlier links unchanged |
| Graph.AgentGraph.FullyConnect | crates/atp-routing/src/graph.rs:239-255 | The latency of every ordered pair afterwards: all different pairs linked, earlier links unchanged, no self links added |
| Graph.AgentGraph.SetAvailability | crates/atp-routing/src/graph.rs:135-146 | Switching an agent on or off changes its flag and nothing else |
| ShortestPaths.ShortenWalk | crates/atp-routing/src/bellman_ford.rs:66-67 | Every walk has a companion of at most n vertices with the same ends, no dearer when no negative cycle is reachable: why k-1 passes are enough |
| ShortestPaths.RelaxStep | crates/atp-routing/src/bellman_ford.rs:86-94 | One improving relaxation keeps soundness, link validity and the predecessor tree, and only lowers distances |
| ShortestPaths.NoChainBack | crates/atp-routing/src/bellman_ford.rs:90-93 | A relaxation never links a vertex below itself unless a negative cycle is reachable; zero-cost cycles included |
| ShortestPaths.RelinkedChain | crates/atp-routing/src/bellman_ford.rs:90-93 | After relinking one vertex every reached vertex still hangs from the source by a chain of links |
| ShortestPaths.PassCovers | crates/atp-routing/src/bellman_ford.rs:67-97 | A full pass, updating in place, accounts for all walks that are one edge longer |
| ShortestPaths.StableCoversAll | crates/atp-routing/src/bellman_ford.rs:99-101 | A pass that changes nothing has accounted for walks of every length: early exit is sound |
| ShortestPaths.ExactOnlyWithoutNegativeCycle | crates/atp-routing/src/bellman_ford.rs:61-102 | Exact distances exist only when no reachable closed walk is negative |
| ShortestPaths.StoppedRun | crates/atp-routing/src/bellman_ford.rs:61-102 | Where the loop stops, early or after k-1 passes, distances are the least walk costs if and only if no negative cycle is reachable, and are infinite exactly on unreachable vertices |
| ShortestPaths.TreePathIsShortest | crates/atp-routing/src/bellman_ford.rs:117-133 | The chain of links to a vertex is a simple real path of at most n vertices whose cost is the reported distance |
| BellmanFord.LocalIndices | crates/atp-routing/src/bellman_ford.rs:51-54 | The dense index map is the inverse of the agent list |
| BellmanFord.RelaxEdge | crates/atp-routing/src/bellman_ford.rs:86-94 | The comparison and update keep every run invariant, leave the edge relaxed, and report a change if there was one |
| BellmanFord.VisitEdge | crates/atp-routing/src/bellman_ford.rs:75-95 | One edge of the inner loop: relaxed when it leads to a capable agent, otherwise skipped with nothing changed |
| BellmanFord.RelaxEdges | crates/atp-routing/src/bellman_ford.rs:75-96 | All arcs out of one agent end up relaxed; edges that leave the capable set are skipped |
| BellmanFord.RelaxPass | crates/atp-routing/src/bellman_ford.rs:67-101 | One outer iteration covers walks one edge longer; when nothing changed it covers all walks |
| BellmanFord.ShortestDistances | crates/atp-routing/src/bellman_ford.rs:61-102 | On arrays updated in place: distances exact if and only if no negative cycle is reachable, finite exactly on the reachable agents |
| BellmanFord.BestDestination | crates/atp-routing/src/bellman_ford.rs:104-113 | The first agent of least finite distance other than the source; none exactly when no other agent is reached |
| BellmanFord.BackwardsIsChain | crates/atp-routing/src/bellman_ford.rs:117-133 | Following predecessor links backwards retraces the unique chain from the source |
| BellmanFord.ReconstructPath | crates/atp-routing/src/bellman_ford.rs:117-145 | For any costs: a returned path is a simple real walk, and the patch for a path that missed the source is dead code; with exact distances the cycle branch is dead too and the path costs the distance |
| BellmanFord.BellmanFordSingle | crates/atp-routing/src/bellman_ford.rs:37-151 | Always simple real routes, whose reported cost is what entering their agents after the source costs; without a reachable negative cycle, a route exactly when some other agent is reachable, and then one no dearer than any walk to any other agent |
| BellmanFord.WalkCostIsEntered | crates/atp-routing/src/bellman_ford.rs:75-101 | The summed arcs of a walk are the weighted sums, over the entered agents, of quality gaps, counted latencies with links, and counted prices |
| PathMetrics.EnteredLatencyMeaning | crates/atp-routing/src/bellman_ford.rs:75-101 | With no figure capped, the entered latencies times the reference are the measured latency of the path less that of its source |
| PathMetrics.EnteredPricesMeaning | crates/atp-routing/src/bellman_ford.rs:75-101 | With no figure capped, the entered prices times the reference are the measured cost of the path less that of its source |
| PathMetrics.PureCosts | crates/atp-routing/src/bellman_ford.rs:75-101 | Under a pure weight vector the cost is the sum of the quality gaps, the measured latency or the measured price beyond the source, in units of the reference |
| Sweep.PricesRuleOutNegativeCycles | crates/atp-routing/src/bellman_ford.rs:86-88 | Non-negative prices and weights rule out negative cycles, so every run is exact |
| PathMetrics.WalkPath | crates/atp-routing/src/bellman_ford.rs:154-182 | The collecting loop shared with the pipeline pattern: succeeds exactly on non-empty qualified paths, with the metrics of that path and the ids in order, and otherwise names the first obstacle |
| Sweep.RealRouteQualified | crates/atp-routing/src/bellman_ford.rs:75-84 | A route found by a run uses capable agents only and every hop is a recorded link |
| Sweep.SoloResults | crates/atp-routing/src/bellman_ford.rs:254-269 | One candidate per weight vector for each agent alone |
| Sweep.RunOne | crates/atp-routing/src/bellman_ford.rs:235-250 | One run adds at most its own route, and adds a cheapest route when one is reachable and no negative cycle is |
| Sweep.MultiObjectiveBellmanFord | crates/atp-routing/src/bellman_ford.rs:193-276 | Fails exactly when nobody is capable; otherwise only real candidates, a cheapest route for every (weights, source) pair that has one, and every capable agent alone under every weight vector |
| Optimizer.Deduplicate | crates/atp-routing/src/optimizer.rs:55-68 | The map holds every path once, represented by the first among its cheapest results |
| Optimizer.IsDominated | crates/atp-routing/src/optimizer.rs:75-77 | The scan answers whether any other path dominates this one |
| Optimizer.ParetoFront | crates/atp-routing/src/optimizer.rs:50-89 | For any iteration order of the map: exactly the undominated representatives, each path once |
| Optimizer.FrontDominates | crates/atp-routing/src/optimizer.rs:73-86 | Every candidate is on the front or is dominated by a front member |
| Optimizer.FrontCoversRepresentative | crates/atp-routing/src/optimizer.rs:50-89 | For every list and order: the representative of every path is on the front or dominated by a front member |
| Optimizer.FrontCoversInputs | crates/atp-routing/src/optimizer.rs:50-89 | Every input route is matched on its path or dominated by a front member, when metrics depend on the path |
| Optimizer.FrontIsUndominated | crates/atp-routing/src/optimizer.rs:32-89 | Front members are input routes with the least scalar cost of their path, and no input route dominates one |
| Optimizer.FrontFeasibleIff | crates/atp-routing/src/optimizer.rs:130-144 | For every list: the front has a feasible member if and only if the representative of some path is feasible, so the fallback adds something exactly when feasible results exist and all are hidden behind infeasible representatives |
| Optimizer.FrontKeepsFeasibility | crates/atp-routing/src/optimizer.rs:130-144 | When metrics depend on the path, some input is feasible if and only if some front member is: the fallback adds nothing |
| Optimizer.FallbackMattersOtherwise | crates/atp-routing/src/optimizer.rs:55-68 | A list where the fallback matters: a feasible result, no feasible representative, and no feasible front member for any order |
| Optimizer.RankRoutes | crates/atp-routing/src/optimizer.rs:105-114 | All routes rescored, none lost or added, sorted by the new cost |
| Optimizer.TakeTop | crates/atp-routing/src/optimizer.rs:150-157 | At most n routes from the pool, rescored, sorted, no path twice; a route of the pool is left out only when the selection is full of routes no dearer |
| Optimizer.FrontHoldsTheBest | crates/atp-routing/src/optimizer.rs:118-158 | Exchange argument: a cheapest feasible front member is cheapest among all feasible inputs |
| Optimizer.SelectTopRoutes | crates/atp-routing/src/optimizer.rs:118-158 | Succeeds if and only if some candidate meets the bounds; returns the top n of the feasible front (or of all feasible inputs when the front has none), sorted, paths distinct; the first beats every feasible candidate |
| Optimizer.TopSelectionMeaning | crates/atp-routing/src/optimizer.rs:118-158 | No selected route is dominated by an input, and an undominated feasible input is left out only when the selection is full of routes no dearer |
| Optimizer.FirstAlwaysBestIffAligned | crates/atp-routing/src/optimizer.rs:118-158 | On every list whose metrics depend on the path the first selected route is a best feasible one, if and only if the weights are in step with their references |
| Sequences.SortStable | crates/atp-routing/src/optimizer.rs:109-113 | Sorting keeps the relative order of tied values |
| Patterns.CascadePattern | crates/atp-routing/src/patterns.rs:224-302 | The escalation loop on its four accumulators computes the recursive escalation totals, then checks the bounds |
| Patterns.CascadeIsExpectation | crates/atp-routing/src/patterns.rs:246-289 | The four accumulators arrive at the expectations of the chain, defined from its first agent on: what a task is worth, costs and takes when each agent keeps it with its chance and passes it on otherwise |
| Patterns.CascadeRouteSpec | crates/atp-routing/src/patterns.rs:224-302 | A cascade route exists if and only if these expectations meet the bounds, and reports them |
| Patterns.EscalateLevel | crates/atp-routing/src/patterns.rs:254-277 | One level of the loop, with a hop only when another level follows |
| Patterns.CascadeConservesProbability | crates/atp-routing/src/patterns.rs:252-277 | At every level the chances handled so far and the chance still in play sum to 1 |
| Patterns.CascadeQualityBounds | crates/atp-routing/src/patterns.rs:246-289 | For any estimates: the reported quality lies between the least and the greatest clamped quality in the chain; the final clamp changes nothing when the last estimate is a probability |
| Patterns.CascadeCostBounds | crates/atp-routing/src/patterns.rs:251-264 | For any prices: the expected cost lies between the least and the greatest running total of the chain |
| Patterns.FairCascadeCost | crates/atp-routing/src/patterns.rs:251-264 | With non-negative prices it lies between the price of the first level and the price of the whole chain |
| Patterns.CascadeLatencyBounds | crates/atp-routing/src/patterns.rs:250-277 | Expected latency lies between that of the first level and that of running every level with its hop |
| Patterns.CascadeUsesCheapest | crates/atp-routing/src/patterns.rs:237-240 | The chain is ordered by price, at most four long, and no capable agent outside it is cheaper than one inside |
| Patterns.SelectionMaximisesQuality | crates/atp-routing/src/patterns.rs:166-180 | Among all ways to pick n capable agents, the pick of parallel merge and the pick of ensemble have the greatest combined quality |
| Patterns.RedundantRoutesAreBest | crates/atp-routing/src/patterns.rs:157-213 | The quality of a parallel-merge or ensemble route is at least the combined quality of any equally large choice of capable agents |
| Patterns.ParallelMergeRouteSpec | crates/atp-routing/src/patterns.rs:149-213 | A parallel-merge route exists if and only if two or more of the best agents by quality meet the bounds together, 10 ms on top of the slowest |
| Patterns.EnsembleRouteSpec | crates/atp-routing/src/patterns.rs:315-383 | The same for the ensemble: ties in quality go to the more trusted, 5 ms on top of the slowest |
| Patterns.CombinedQualityUnfolds | crates/atp-routing/src/patterns.rs:350-354 | Of one more agent, what the others miss is made good with its quality |
| Patterns.SlowestMember | crates/atp-routing/src/patterns.rs:183-189 | The latency of a redundant route is that of its slowest member, before overhead |
| Patterns.CombinedBeatsMembers | crates/atp-routing/src/patterns.rs:350-354 | Combined quality is at least that of every member and at most 1 |
| Patterns.DraftRefineRoles | crates/atp-routing/src/patterns.rs:117-133 | The drafter is a cheapest agent, the refiner a best among the others, and both exist whenever two agents do |
| Patterns.DraftRefineRouteSpec | crates/atp-routing/src/patterns.rs:105-146 | With fewer than two capable agents it fails; otherwise it goes from a cheapest one to a best one among the others, with the product quality, summed latency including the hop, and summed cost, if and only if these meet the bounds |
| Patterns.AutoSelectMeetsBounds | crates/atp-routing/src/patterns.rs:466-523 | Whatever pattern is chosen, the route meets the bounds; the only failure is that none does |
| Patterns.ExtractedAreDescribed | crates/atp-routing/src/patterns.rs:35-53 | The agents to choose from are exactly the capable ones, each once, with the id, capability and trust of their node |
| Patterns.FirstSoloSpec | crates/atp-routing/src/patterns.rs:507-522 | The default finds an agent exactly when one meets the bounds alone, and it is the first in price order |
| Patterns.AutoSelectFindsSolo | crates/atp-routing/src/patterns.rs:466-523 | If any capable agent meets the bounds alone, the automatic choice succeeds |
| Patterns.DefaultIsCheapestSolo | crates/atp-routing/src/patterns.rs:507-520 | The default choice is at most as expensive as any agent that meets the bounds alone |
| Choice.MedianCostIsMedian | crates/atp-routing/src/patterns.rs:475-484 | The price compared with is a median: at most half of the prices are below it and fewer than the other half above |
| Choice.MedianIsUnique | crates/atp-routing/src/patterns.rs:475-484 | There is only one such price |
| Choice.FirstSoloIsCheapest | crates/atp-routing/src/patterns.rs:507-522 | The default is the cheapest agent that is feasible alone, of equally cheap ones the first, with that agent's figures |
| Choice.AutoSelectIsChosen | crates/atp-routing/src/patterns.rs:466-523 | The priority table. With two or more agents: under a budget below one and a half medians the cascade if feasible, else draft-refine if feasible; else, from a floor of 0.9 on, the ensemble; else, up to half a second, the parallel merge; when none applies, the cheapest agent feasible alone |
| Staffing.AutoSelectStaffed | crates/atp-routing/src/patterns.rs:466-523 | Every agent the automatic choice names is switched on, trusted enough and lists the task |
| Router.PatternRouteMakes | crates/atp-routing/src/lib.rs:350-372 | Each of the four patterns on the figures of the agents: the three best together, the four cheapest in turn at a confidence of 0.7, or the cheapest and the best other one |
| Router.CandidatesDetermined | crates/atp-routing/src/bellman_ford.rs:238-250 | In the sweep's output metrics are a function of the path |
| Router.FeasibleCandidateHasSolo | crates/atp-routing/src/lib.rs:166-184 | A feasible candidate of any length implies a capable agent that is feasible alone (fair prices or a non-negative budget) |
| Router.SweepFeasibleIffSolo | crates/atp-routing/src/lib.rs:166-184 | The sweep holds a feasible candidate if and only if some capable agent is feasible alone |
| Router.PathIds | crates/atp-routing/src/bellman_ford.rs:279-283 | Converting a path to ids keeps its length and order |
| Router.BellmanFordRoutes | crates/atp-routing/src/lib.rs:230-257 | The top pipelines of one sweep: within the bounds, along recorded links between different capable agents; the first beats every feasible candidate of that same sweep and every agent feasible alone; present exactly when a single agent suffices, for a sane budget |
| Router.SaneIsScorable | crates/atp-routing/src/cost.rs:161-177 | Non-negative quality floor and price reference and a budget above -1 suffice for the scoring claims |
| Router.EconomicRouter.BestPipeline | crates/atp-routing/src/lib.rs:166-208 | The fallback succeeds exactly when some agent is feasible alone, and its route beats every feasible candidate of the sweep under the derived weights |
| Router.EconomicRouter.TryPattern | crates/atp-routing/src/lib.rs:282-347 | What the requested pattern makes of the capable agents, spelled out on their figures, within the bounds and staffed; a pipeline follows real links |
| Router.EconomicRouter.FindRoute | crates/atp-routing/src/lib.rs:136-209 | Every route meets the bounds and names only agents that are switched on, trusted enough and list the task; without a preferred pattern the result is the entry of the priority table whenever that is a route or the budget or the prices are non-negative; after a failed choice under other budgets it is a pipeline along real links, from a sweep with a feasible candidate, or a failure, from a sweep without one or with nobody capable; any preferred pattern that fails leads to the same |
| Exploration.ExploringAddsNothingIff | crates/atp-routing/src/lib.rs:157-184 | No network has a feasible candidate after a failed automatic choice, if and only if the budget is not negative |
| Exploration.LineAutoSelectFails | crates/atp-routing/src/patterns.rs:466-523 | Three perfect agents in a line that each pay a third of a negative budget: every pattern tried and every agent alone misses the budget |
| Exploration.LineIsAlwaysFound | crates/atp-routing/src/bellman_ford.rs:193-276 | Whatever list a sweep of that line delivers, the whole line is in it and meets the bounds |
| Exploration.LineIsSwept | crates/atp-routing/src/bellman_ford.rs:193-276 | A list that a sweep of the line delivers, spelled out |
| Exploration.LineIsRescued | crates/atp-routing/src/lib.rs:157-184 | On the line the automatic choice fails and no sweep does |
| Exploration.RescueRun | crates/atp-routing/src/lib.rs:136-209 | The run for every negative budget: build the line in the graph, and the router finds a feasible pipeline that the automatic choice cannot |
| Exploration.FirstLevelKeepsAll | crates/atp-routing/src/patterns.rs:254-277 | A first level of full quality keeps every task, so a cascade costs what that level costs |
| Router.RankByCost | crates/atp-routing/src/lib.rs:263-275 | Sorted by scalar cost, one route per agent list, at most n; an agent list is left out only when the result is full of routes no dearer |
| Router.EconomicRouter.CollectPatternRoutes | crates/atp-routing/src/lib.rs:350-372 | Exactly the routes of the applicable patterns |
| Router.EconomicRouter.FindRoutes | crates/atp-routing/src/lib.rs:216-279 | All within the bounds and staffed, agent lists distinct, sorted; gathered from the applicable patterns and the top pipelines of one sweep, one of which is left out only when the list is full of routes no dearer; the first beats every feasible candidate of that sweep |
| Base58.DigitsOfValue | crates/atp-identity/src/did.rs:138-152 | Digits without superfluous zeros are determined by the value they stand for |
| Base58.CarryStaysSmall | crates/atp-identity/src/did.rs:143-147 | In both directions the running sum stays below 65536 and the carry below the factor, far inside u32 |
| Base58.CarriedValue | crates/atp-identity/src/did.rs:141-151 | One round of the carry loop multiplies the number by the factor and adds the digit |
| Base58.CarryDigit | crates/atp-identity/src/did.rs:143-147 | One digit takes in the carry and passes on the quotient, in u32 throughout |
| Base58.CarryThrough | crates/atp-identity/src/did.rs:142-147 | The inner loop followed by the digits of its last carry is a whole round |
| Base58.ShiftIn | crates/atp-identity/src/did.rs:141-152 | One outer iteration of either loop, on u32 digits: value times factor plus digit, still without superfluous zeros |
| Base58.ConvertRoundTrip | crates/atp-identity/src/did.rs:130-209 | Converting digits to another base and back is the identity if and only if the list is empty or has a non-zero digit |
| Base58.AllZeroGrows | crates/atp-identity/src/did.rs:140-164 | A non-empty all-zero list comes out one symbol longer: the input family that does not round-trip |
| Base58Text.SymbolRoundTrip | crates/atp-identity/src/did.rs:180-183 | Every digit comes back from its symbol, and '1' is the symbol of zero alone |
| Base58Text.SymbolsAreUnambiguous | crates/atp-identity/src/did.rs:17-18 | The symbols are exactly the alphanumerical characters without zero, capital o, capital i and small l |
| Base58Text.AlphabetOrder | crates/atp-identity/src/did.rs:17-18 | The symbols stand in ascending order |
| Base58Text.EncodeLoop | crates/atp-identity/src/did.rs:130-167 | The encoder computes the digit conversion from base 256 to base 58, as text |
| Base58Text.Accumulate | crates/atp-identity/src/did.rs:177-195 | The decoder's accumulator holds the number the symbols spell, or the first character outside the alphabet |
| Base58Text.DecodeLoop | crates/atp-identity/src/did.rs:170-209 | The decoder computes the conversion back, or reports the first invalid character |
| Base58Text.DecodeEncode | crates/atp-identity/src/did.rs:130-209 | Decoding an encoding gives the bytes back if and only if they are empty or contain a non-zero byte |
| Base58Text.EncodeDecode | crates/atp-identity/src/did.rs:130-209 | Encoding a decoding gives the text back if and only if it is empty, or ASCII with a symbol other than '1' |
| Base58Text.ForeignTwin | crates/atp-identity/src/did.rs:182 | Every ASCII text with a symbol other than '1' has a twin beyond ASCII that decodes alike and does not come back |
| DidKey.ExtractPublicKey | crates/atp-identity/src/did.rs:86-123 | Whatever is extracted is a 32-byte key |
| DidKey.ExtractionFails | crates/atp-identity/src/did.rs:86-123 | Which check an identifier fails first; a key is accepted exactly behind the prefix 0xed01 in 34 bytes |
| DidKey.VerificationMeaning | crates/atp-identity/src/did.rs:70-83 | A key verifies exactly against the identifier generated from it |
| DidKey.ExtractGenerated | crates/atp-identity/src/did.rs:28-43 | Every key comes back out of its identifier, and the identifier verifies |
| DidKey.IdentifiersAreUnique | crates/atp-identity/src/did.rs:28-43 | Different keys never share an identifier |
| DidKey.AcceptedIsCanonical | crates/atp-identity/src/did.rs:70-123 | An accepted identifier verifies against its extracted key if and only if it is ASCII |
| DidKey.ForeignAccepted | crates/atp-identity/src/did.rs:70-123 | Every key has an identifier beyond ASCII that is accepted for it and does not verify |
| DidKey.AcceptsExactlyGenerated | crates/atp-identity/src/did.rs:28-123 | Among ASCII identifiers, extraction yields a key if and only if the identifier is the one generated from it |
| DidKey.IdentifierPrefix | README.md:124 | Every generated identifier has 48 characters and starts with `z6Mk` |
| Extraction.Split | crates/atp-context/src/extraction.rs:80-85 | Concatenating the chunks gives the data back; no chunk is empty or too long |
| Extraction.SplitSlices | crates/atp-context/src/extraction.rs:80-85 | Chunk i is the slice at i times the chunk size, and all but the last are full |
| Extraction.ExtractMsc | crates/atp-context/src/extraction.rs:108-181 | The scoring loop, sort and truncation compute the specified extraction |
| Extraction.ExtractionFailsIff | crates/atp-context/src/extraction.rs:108-130 | Extraction fails if and only if the dimensions differ or there is nothing to split, and says which |
| Extraction.SelectionEmptyIff | crates/atp-context/src/extraction.rs:132-162 | The selection is empty if and only if no chunk scores above the threshold |
| Extraction.NothingRelevantIsNoError | crates/atp-context/src/extraction.rs:105-181 | With data and matching dimensions: the result is the empty payload of confidence 0 if and only if no chunk scores above the threshold; the documented error never occurs |
| Extraction.NothingRelevantExample | crates/atp-context/src/extraction.rs:105-181 | An input without a surviving chunk, extracted successfully |
| Extraction.SelectionIsSound | crates/atp-context/src/extraction.rs:136-162 | Selected chunks are the sender's own, above the threshold, each once, best first, within budget |
| Extraction.SelectionIsBest | crates/atp-context/src/extraction.rs:153-160 | A qualifying chunk is left out only when the budget is full of chunks at least as relevant |
| Extraction.ConfidenceAboveThreshold | crates/atp-context/src/extraction.rs:165-171 | A non-empty selection is more confident than the threshold |
| Extraction.ConfidenceBalances | crates/atp-context/src/extraction.rs:165-171 | The confidence of a payload is where its relevances balance, 0 for an empty one |
| Adaptive.ApplyDiffLoop | crates/atp-context/src/differential.rs:127-137 | The reconstruction loop concatenates the held chunks in index order |
| Adaptive.Reconstruction | crates/atp-context/src/differential.rs:127-137 | A consistent payload reconstructs exactly the held slices of the original, in order, and its reported size is their length |
| Adaptive.FullReconstruction | crates/atp-context/src/differential.rs:127-137 | Once every index is held the original data is back |
| Adaptive.MergeChunks | crates/atp-context/src/differential.rs:143-164 | Push what was not held before, re-sort, recompute size and confidence |
| Adaptive.MergeUniqueIff | crates/atp-context/src/differential.rs:143-152 | Merging keeps indices unique if and only if the supply repeats only indices that were held before the call |
| Adaptive.MergedIndices | crates/atp-context/src/differential.rs:143-152 | Whatever is supplied, a merge adds exactly the supplied indices |
| Adaptive.MergedConfidence | crates/atp-context/src/differential.rs:154-164 | After a merge the confidence is where the held relevances balance; without chunks it stays |
| Adaptive.MergedOrder | crates/atp-context/src/differential.rs:143-156 | Merged chunks are most relevant first, and each is there as often as it was held or pushed |
| Adaptive.MergeConsistent | crates/atp-context/src/differential.rs:143-164 | A merge keeps a payload consistent if and only if the supply repeats only held indices and every chunk of an index not held is the sender's own |
| Adaptive.RepeatedSupplyIsKeptTwice | crates/atp-context/src/differential.rs:145-152 | A supply that breaks uniqueness: an index repeated in it and not held before is kept twice |
| Session.SupplyIsExact | crates/atp-context/src/extraction.rs:185-211 | A duplicate-free request in range is answered exactly, in order, with faithful chunks |
| Session.OutOfRangeIsDropped | crates/atp-context/src/extraction.rs:185-211 | Indices out of range are dropped, and nothing else |
| Session.AdaptiveContextManager.EvaluateDiff | crates/atp-context/src/adaptive.rs:89-134 | Sufficient if and only if the confidence reaches the threshold; too low if and only if it does not and the limit is reached or nothing is missing; otherwise a request for the lowest half of the missing indices, with one round counted |
| Session.AdaptiveContextManager.Reset | crates/atp-context/src/adaptive.rs:137-140 | Round count and received set are cleared, limits are kept |
| Session.RequestIsSound | crates/atp-context/src/adaptive.rs:113-125 | A request names the rounded-up half of what is missing: distinct, in range, not held |
| Session.SessionStarts | crates/atp-context/src/adaptive.rs:190-192 | A fresh receiver with the provider's first payload satisfies the session invariant |
| Session.RoundHalves | crates/atp-context/src/adaptive.rs:89-134 | An answered round keeps the invariant, uses one round of the limit and leaves half of what was missing, rounded down |
| Session.HalvingLaw | crates/atp-context/src/adaptive.rs:96-134 | After r answered rounds exactly floor(m0 / 2^r) chunks are missing, and r is within the limit |
| Session.AnsweredIff | crates/atp-context/src/adaptive.rs:96-134 | A round is answered if and only if the confidence is below the threshold, the limit is not reached and something is missing |
| Session.AnsweredBelowThreshold | crates/atp-context/src/adaptive.rs:96-134 | Every answered round of a session started below the threshold |
| Session.SatisfiedIff | crates/atp-context/src/adaptive.rs:96-134 | A session ends satisfied if and only if its last payload reaches the threshold, and gives up otherwise |
| Session.SessionEnds | crates/atp-context/src/adaptive.rs:106-111 | No session gets past max_rounds + 1 evaluations |
| Session.GivingUp | crates/atp-context/src/adaptive.rs:106-121 | A session that gives up holds the complete original if and only if m0 < 2^max_rounds |
| Registry.CapabilityRegistry.Register | crates/atp-handshake/src/registry.rs:41-68 | The new entry replaces the agent's old one for the task type, everything else stays, both indices in list order |
| Registry.CapabilityRegistry.Unregister | crates/atp-handshake/src/registry.rs:71-76 | Exactly the agent's entries disappear from both indices |
| Registry.CapabilityRegistry.UnregisterCapability | crates/atp-handshake/src/registry.rs:79-89 | Exactly that entry disappears, and the agent with its last entry |
| Registry.CapabilityRegistry.UpdateTrust | crates/atp-handshake/src/registry.rs:140-153 | Exactly one pair's trust changes, to the clamped value |
| Registry.WithTrustEntries | crates/atp-handshake/src/registry.rs:140-153 | A trust update rewrites one (agent, task type) pair and touches no other entry |
| Registry.RegisterAgrees | crates/atp-handshake/src/registry.rs:41-68 | Registration keeps the two indices in agreement |
| Registry.UnregisterAgrees | crates/atp-handshake/src/registry.rs:71-76 | Removing an agent keeps the two indices in agreement |
| Registry.UnregisterCapabilityAgrees | crates/atp-handshake/src/registry.rs:79-89 | Removing a capability keeps the two indices in agreement, with no agent left without entries |
| Registry.WithTrustAgrees | crates/atp-handshake/src/registry.rs:140-153 | A trust update keeps the two indices in agreement |
| Registry.CapabilityRegistry.Len | crates/atp-handshake/src/registry.rs:156-158 | The sum of list lengths is the number of entries and equals the total of the per-agent lists |
| Registry.CountsAgree | crates/atp-handshake/src/registry.rs:156-168 | Entries in one index are as many as capabilities in the other |
| Registry.CapabilityRegistry.AgentCount | crates/atp-handshake/src/registry.rs:166-168 | Counts exactly the agents that have an entry |
| Registry.AgentsAreKeys | crates/atp-handshake/src/registry.rs:166-168 | The agents with an entry are the keys of the per-agent index |
| Registry.CapableEntriesAreExact | crates/atp-handshake/src/registry.rs:94-118 | The lookup returns exactly the entries of the task type within the bounds, by descending trust |
| Handshake.RelaxLoosensIff | crates/atp-types/src/capability.rs:66-73 | For any factor from -1: one relaxation admits everything admitted before if and only if no bound moves the wrong way, which for a positive factor means no negative bound |
| Handshake.PositiveFactorLoosens | crates/atp-types/src/capability.rs:66-73 | For a positive factor the condition is that no bound is negative |
| Handshake.RelaxedLooserIff | crates/atp-types/src/capability.rs:66-73 | The same condition decides for any positive number of relaxations |
| Handshake.RelaxedLooser | crates/atp-types/src/capability.rs:66-73 | Under that condition more relaxations admit more |
| Handshake.RelaxedClosedForm | crates/atp-types/src/capability.rs:66-73 | After n relaxations floors are scaled by (1-f)^n and ceilings by (1+f)^n |
| Handshake.ContractNeedsAllPhases | crates/atp-handshake/src/contract.rs:84-129 | A contract is only reached by probe, offers and acceptance, in this order with nothing between |
| Handshake.TerminalIsFinal | crates/atp-handshake/src/contract.rs:132-170 | Contracted and failed accept no further event |
| Handshake.PermittedIff | crates/atp-handshake/src/contract.rs:84-162 | Which events are permitted in which state, and where they lead |
| Handshake.HandshakeStateMachine.OnProbeSent | crates/atp-handshake/src/contract.rs:84-95 | Idle to probe sent; anything else is refused and changes nothing |
| Handshake.HandshakeStateMachine.OnOffersReceived | crates/atp-handshake/src/contract.rs:98-109 | Probe sent to offers received; anything else is refused and changes nothing |
| Handshake.HandshakeStateMachine.OnContractAccepted | crates/atp-handshake/src/contract.rs:112-129 | Offers received to contracted, recording contract and agent; anything else is refused and changes nothing |
| Handshake.HandshakeStateMachine.OnFailure | crates/atp-handshake/src/contract.rs:132-145 | Any non-terminal state to failed; a terminal state is kept |
| Handshake.HandshakeStateMachine.ResetForRetry | crates/atp-handshake/src/contract.rs:149-162 | Only a started, unfinished handshake goes back to idle |
| Handshake.BestOffer | crates/atp-handshake/src/offer.rs:138-154 | The first ranked offer is one of the offers and none scores higher |
| Handshake.BetterOfferScoresNoLower | crates/atp-handshake/src/offer.rs:110-135 | An offer at least as good in quality, latency, cost and trust never scores lower |
| Handshake.ScoreInUnit | crates/atp-handshake/src/offer.rs:110-135 | Scores lie in [0,1] |
| Handshake.ScoreMeaning | crates/atp-handshake/src/offer.rs:110-135 | In twentieths: 7 for quality, 4 for the room below the latency bound, 3 for the room below the price bound, 6 for trust |
| Negotiation.AgreedIsEffective | crates/atp-handshake/src/contract.rs:186-206 | The agreed terms are the requester's bounds if and only if the offer is within them, and the offer's own figures if and only if none is strictly inside its bound |
| Negotiation.AgreedIsLooser | crates/atp-handshake/src/contract.rs:186-221 | Whatever the offer, the terms are the tightest that admit both the bounds and the figures, and the contract names both parties |
| Negotiation.LiveMeaning | crates/atp-handshake/src/negotiation.rs:119-183 | An entry is live at an attempt exactly when it is within the bounds then in force and its offer is at most 5 s old |
| Negotiation.RankingFindsWinner | crates/atp-handshake/src/negotiation.rs:187-196 | Ranking the live offers yields a top-scoring one within the bounds |
| Negotiation.HandshakeCoordinator.ProcessProbe | crates/atp-handshake/src/negotiation.rs:119-128 | The registry answers with exactly its entries of the task type within the bounds, by descending trust |
| Negotiation.HandshakeCoordinator.Attempt | crates/atp-handshake/src/negotiation.rs:109-224 | One attempt concludes if and only if it has a live offer; otherwise the machine stays at probe sent |
| Negotiation.HandshakeCoordinator.Conclude | crates/atp-handshake/src/negotiation.rs:185-224 | The contracting phase: a top-scoring offer, agreed terms equal to the effective bounds, state machine contracted |
| Negotiation.HandshakeCoordinator.Negotiate | crates/atp-handshake/src/negotiation.rs:88-232 | Refused from a terminal state; otherwise succeeds if and only if some attempt has a live offer, at the first such attempt, with a top-scoring agent and the effective bounds agreed, else ends failed with the error of the last attempt |
| Negotiation.SuccessIffFullyRelaxedMatch | crates/atp-handshake/src/negotiation.rs:94-146 | With unexpired offers and no retry, or bounds that relaxation can only loosen, negotiation succeeds if and only if a registered agent meets the fully relaxed bounds |
| Negotiation.FullRelaxationDecidesIff | crates/atp-handshake/src/negotiation.rs:94-146 | That criterion is right for every registry and task type if and only if there is no retry or relaxation can only loosen the bounds |
| Negotiation.RelaxationKeepsMatchesIff | crates/atp-handshake/src/negotiation.rs:137-142 | No registry loses a match through relaxation if and only if relaxation can only loosen the bounds |
| Negotiation.LostMatch | crates/atp-handshake/src/negotiation.rs:94-146 | Otherwise an agent exactly on the bounds is contracted although it fails the fully relaxed bounds |
| Negotiation.NegativeBoundCanTighten | crates/atp-handshake/src/negotiation.rs:94-146 | Such a run: one retry and a negative trust floor, an attempt with a live offer, no match of the fully relaxed bounds |
| Poison.WindowAgentsMeaning | crates/atp-fault/src/poison.rs:87-93 | An agent counts for a window exactly when one of its failures falls in it and was not cleared since |
| Poison.PoisonedMeaning | crates/atp-fault/src/poison.rs:65-110 | A task is poisoned exactly when some event, not cleared since, forced it or filled its window |
| Poison.VerdictMeaning | crates/atp-fault/src/poison.rs:87-110 | Suspected, while not poisoned, exactly when two different agents failed the task within the window |
| Poison.WindowMeaning | crates/atp-fault/src/poison.rs:75-76 | The window is the configured one, or 60 s when the clock library cannot hold it |
| Poison.OnlyClearUnpoisons | crates/atp-fault/src/poison.rs:209-219 | Once poisoned, a task stays so through every continuation without a clear of it |
| Poison.RecordTracks | crates/atp-fault/src/poison.rs:78-93 | The pruned list answers every later window as the full history does |
| Poison.PoisonDetector.RecordFailure | crates/atp-fault/src/poison.rs:65-110 | The verdict from the pruned list is the verdict from the full history |
| Poison.PoisonDetector.StatusOf | crates/atp-fault/src/poison.rs:115-147 | A query at any later time agrees with the full history, and says poisoned exactly when the poisoned set does |
| Poison.PoisonDetector.IsPoisoned | crates/atp-fault/src/poison.rs:150-153 | True exactly when the full history poisons the task |
| Poison.PoisonDetector.ForcePoison | crates/atp-fault/src/poison.rs:202-206 | The history gains a forced poisoning; the invariant holds |
| Poison.PoisonDetector.ClearTask | crates/atp-fault/src/poison.rs:209-219 | The history gains a clear; records and verdict of the task are forgotten and the invariant holds |
| CircuitBreaking.ClosedBelowThreshold | crates/atp-fault/src/circuit_breaker.rs:128-195 | In every run a breaker is closed if and only if its consecutive failures are below the threshold (a threshold of 0 acts as 1) |
| CircuitBreaking.CounterMeaning | crates/atp-fault/src/circuit_breaker.rs:128-195 | The counter is the number of failures since the last reset or success outside the open state |
| CircuitBreaking.OpensIff | crates/atp-fault/src/circuit_breaker.rs:156-184 | An event opens the circuit if and only if it is a failure and the circuit is half-open, or closed with this the failure that reaches the threshold since the last healing event |
| CircuitBreaking.ClosesIff | crates/atp-fault/src/circuit_breaker.rs:128-195 | A circuit that is not closed closes exactly on a reset, or on a success while half-open |
| CircuitBreaking.HalfOpensIff | crates/atp-fault/src/circuit_breaker.rs:78-105 | A circuit half-opens exactly on a request granted while it is open |
| CircuitBreaking.FailedProbeRestarts | crates/atp-fault/src/circuit_breaker.rs:175-179 | On a forward clock, after a failed probe every request within its cooldown is refused until a reset |
| CircuitBreaking.SuccessfulProbeCloses | crates/atp-fault/src/circuit_breaker.rs:134-141 | A successful probe closes the circuit and clears the count |
| CircuitBreaking.CooldownMeaning | crates/atp-fault/src/circuit_breaker.rs:91-92 | The cooldown is the configured one, or 30 s when the clock library cannot hold it |
| CircuitBreaking.TripMeaning | crates/atp-fault/src/circuit_breaker.rs:164-173 | The effective threshold is the configured one, and 1 for a threshold of 0 |
| CircuitBreaking.TotalsCount | crates/atp-fault/src/circuit_breaker.rs:132-161 | The lifetime totals are the numbers of recorded failures and successes |
| CircuitBreaking.OpenHasCause | crates/atp-fault/src/circuit_breaker.rs:164-179 | An open breaker was opened by an event in its past, not reset since, at the time it remembers |
| CircuitBreaking.RefusedExactlyWithinCooldown | crates/atp-fault/src/circuit_breaker.rs:89-103 | On a forward clock a request is refused if and only if some earlier opening, not reset since, is still within its cooldown |
| CircuitBreaking.HalfOpenGrantsAll | crates/atp-fault/src/circuit_breaker.rs:84-98 | In every run, from the request that half-opens the circuit until an outcome or reset is recorded, the circuit stays half-open and every request is granted: one probe exactly when one request was made |
| CircuitBreaking.TwoProbesGranted | crates/atp-fault/src/circuit_breaker.rs:84-98 | Every configuration has such a run on a forward clock with two granted requests |
| CircuitBreaking.CircuitBreaker.AllowRequest | crates/atp-fault/src/circuit_breaker.rs:78-105 | Grants what the agent's recorded run grants; only that agent's history grows |
| CircuitBreaking.CircuitBreaker.RecordSuccess | crates/atp-fault/src/circuit_breaker.rs:128-149 | The stored breaker is that of the run extended by a success; other agents are untouched |
| CircuitBreaking.CircuitBreaker.RecordFailure | crates/atp-fault/src/circuit_breaker.rs:156-184 | The stored breaker is that of the run extended by a failure, which opens exactly as `OpensIff` says; other agents are untouched |
| CircuitBreaking.CircuitBreaker.ResetBreaker | crates/atp-fault/src/circuit_breaker.rs:187-195 | Closed afterwards; an unknown agent gains no entry |
| CircuitBreaking.CircuitBreaker.OpenCircuitsAreTheOpenRuns | crates/atp-fault/src/circuit_breaker.rs:214-221 | The listed agents are exactly those whose run is open |
| Trust.WeightedAverage | crates/atp-identity/src/trust.rs:155-183 | The accumulation loop computes the weighted sums' quotient, clamped, or the prior |
| Trust.ComputeTrustScore | crates/atp-identity/src/trust.rs:57-78 | The prior when the subject has no record of that task type; otherwise a value between the least and the greatest quality of exactly those records, with their number |
| Trust.ComputeAggregateTrust | crates/atp-identity/src/trust.rs:104-137 | Its own accumulation loop: the prior without records of the subject, otherwise a value between the least and the greatest quality of exactly those |
| Trust.OthersHaveNoInfluence | crates/atp-identity/src/trust.rs:57-137 | A record of another agent, or of another task type for a task score, changes neither score nor count, wherever it stands |
| Trust.OwnRecordCounts | crates/atp-identity/src/trust.rs:57-137 | A record of the agent counts once for its task type and once for the aggregate, wherever it stands |
| Trust.DenominatorPositive | crates/atp-identity/src/trust.rs:177-182 | The zero-denominator branch is never taken once there is a record |
| Trust.ScoreBounds | crates/atp-identity/src/trust.rs:155-183 | The score lies between the least and the greatest recorded quality, each cut to [0,1] |
| Trust.ScoreBalances | crates/atp-identity/src/trust.rs:155-183 | The score of qualities in [0,1] is where the weighted records balance |
| Trust.WeightMeaning | crates/atp-identity/src/trust.rs:167-175 | A fresh record weighs 1.5, 1.2, 1.0 or 0.8 by its task type, and every further second costs the same factor |
| Trust.AgeMeaning | crates/atp-identity/src/trust.rs:185-189 | Ages are whole seconds passed; a record from the future is fresh |
| Trust.WaitingChangesNothing | crates/atp-identity/src/trust.rs:155-189 | Any whole number of seconds of waiting past all timestamps leaves every score and count unchanged |
| Trust.ComplexityCancels | crates/atp-types/src/capability.rs:16-23 | Within one task type the complexity weight cannot influence the score |

## Left out

- Rounding, NaN and infinity of floating point numbers, beyond the cases named above.
- A zero price reference together with a negative price (an infinite negative share in the original).
- Route identifiers, creation times and time to live; contract expiry, signatures and context plans; message structs.
- Locks, asynchronous execution, timeouts and tracing: every operation is one sequential step.
- Overflow of fixed-width counters: breaker counts, `max_retries + 1`, chunk counts and distinct-agent counts beyond 32 bits.
- Embeddings and cosine similarity: relevance is an arbitrary real-valued function of a chunk.
- SHA-256 base hashes and Ed25519 keys: a key is any 32 bytes.
- `diff_stats`, compression ratios, `should_request_more` and `generate_context_request`: one-line queries.
- `capability_subgraph`, `pipeline_from_ids`, `sort_by_cost`, `sort_by_quality`: not used by the modelled paths or single calls.
- `compute_trust_vector`, the sybil guard and the trust store: folds and locked maps over the modelled score.
- Heartbeats, checkpoints, back-pressure, `poisoned_tasks`, `failed_agents_for`, `build_message`: one-branch queries.
- Transport, protobuf codecs, Python bindings, SDK, benchmarks, simulator and node wiring.
- Router.EconomicRouter.FindRoute: for a negative budget with a negative price the equality with the automatic choice is false of the code, as `RescueRun` shows; which of those networks a sweep rescues is stated through the sweep's candidates, not through the network.
- Registry.CapabilityRegistry.Len: sums the lists in an arbitrary order, as a hash map does.
- Session.GivingUp: needs a positive chunk size; with chunk size 0 the provider has no chunks and its first payload is an error.
- Trust.WaitingChangesNothing: stated for times past all timestamps; before a record's timestamp its age is held at zero.
- Negotiation.SuccessIffFullyRelaxedMatch: stated for bounds that relaxation can only loosen, because the criterion is wrong for all others, as `FullRelaxationDecidesIff` shows.
