/** Pareto-front selection, constraint filtering and ranking of candidate routes. */
module Optimizer {
  import opened Prelude
  import opened Types
  import opened Cost
  import opened Sequences
  import opened Sweep

  datatype ParetoRoute = ParetoRoute(path: seq<nat>, metrics: RouteMetrics, scalarCost: real)

  function AsRoute(r: BellmanFordResult): ParetoRoute {
    ParetoRoute(r.path, r.metrics, r.scalarCost)
  }

  function PathKey(r: ParetoRoute): seq<nat> {
    r.path
  }

  // ------------------------------------------------------------ deduplication

  /** The result at position `i` is the first among the cheapest of its path. */
  ghost predicate RepresentsAt(results: seq<BellmanFordResult>, path: seq<nat>, i: nat) {
    && i < |results| && results[i].path == path
    && (forall j :: 0 <= j < i && results[j].path == path ==> results[i].scalarCost < results[j].scalarCost)
    && (forall j :: i <= j < |results| && results[j].path == path ==> results[i].scalarCost <= results[j].scalarCost)
  }

  /** The result that stands for a path: the first among its cheapest. */
  ghost predicate Represents(results: seq<BellmanFordResult>, path: seq<nat>, r: BellmanFordResult) {
    exists i: nat :: RepresentsAt(results, path, i) && results[i] == r
  }

  /** The map built by the deduplication loop. */
  ghost predicate Deduplicated(results: seq<BellmanFordResult>, unique: map<seq<nat>, BellmanFordResult>) {
    && (forall r :: r in results ==> r.path in unique)
    && (forall p :: p in unique ==> Represents(results, p, unique[p]))
  }

  lemma RepresentsStep(results: seq<BellmanFordResult>, path: seq<nat>, r: BellmanFordResult, next: BellmanFordResult)
    requires Represents(results, path, r)
    requires next.path == path ==> r.scalarCost <= next.scalarCost
    ensures Represents(results + [next], path, r)
  {
    var i: nat :| RepresentsAt(results, path, i) && results[i] == r;
    assert RepresentsAt(results + [next], path, i);
  }

  lemma RepresentsNew(results: seq<BellmanFordResult>, next: BellmanFordResult)
    requires forall r :: r in results && r.path == next.path ==> next.scalarCost < r.scalarCost
    ensures Represents(results + [next], next.path, next)
  {
    var all := results + [next];
    forall j | 0 <= j < |results| && all[j].path == next.path ensures next.scalarCost < all[j].scalarCost {
      assert all[j] in results;
    }
    assert RepresentsAt(all, next.path, |results|);
  }

  lemma RepresentativeIsLeast(results: seq<BellmanFordResult>, path: seq<nat>, r: BellmanFordResult)
    requires Represents(results, path, r)
    ensures r in results && r.path == path
    ensures forall x :: x in results && x.path == path ==> r.scalarCost <= x.scalarCost
  {}

  method Deduplicate(results: seq<BellmanFordResult>) returns (unique: map<seq<nat>, BellmanFordResult>)
    ensures Deduplicated(results, unique)
  {
    unique := map[];
    for n := 0 to |results|
      invariant Deduplicated(results[..n], unique)
    {
      var r := results[n];
      ghost var before := unique;
      assert results[..n + 1] == results[..n] + [r];
      if r.path in unique {
        RepresentativeIsLeast(results[..n], r.path, unique[r.path]);
        if r.scalarCost < unique[r.path].scalarCost {
          unique := unique[r.path := r];
          RepresentsNew(results[..n], r);
        }
      } else {
        unique := unique[r.path := r];
        RepresentsNew(results[..n], r);
      }
      forall p | p in unique && unique[p] != r ensures Represents(results[..n + 1], p, unique[p]) {
        RepresentsStep(results[..n], p, unique[p], r);
      }
      if r.path in before && unique[r.path] == before[r.path] {
        RepresentsStep(results[..n], r.path, unique[r.path], r);
      }
    }
    assert results[..|results|] == results;
  }

  // -------------------------------------------------------------- the front

  /** No other path's representative dominates the one of `p`. */
  ghost predicate Undominated(unique: map<seq<nat>, BellmanFordResult>, p: seq<nat>)
    requires p in unique
  {
    forall q :: q in unique && q != p ==> !Dominates(unique[q].metrics, unique[p].metrics)
  }

  ghost predicate OnFront(unique: map<seq<nat>, BellmanFordResult>, p: seq<nat>) {
    p in unique && Undominated(unique, p)
  }

  /** `front` lists the undominated representatives, each path once, in some order. */
  ghost predicate IsFront(results: seq<BellmanFordResult>, front: seq<ParetoRoute>) {
    exists unique :: Deduplicated(results, unique) && FrontOf(unique, front)
  }

  ghost predicate FrontOf(unique: map<seq<nat>, BellmanFordResult>, front: seq<ParetoRoute>) {
    && KeysDistinct(front, PathKey)
    && (forall e :: e in front ==> OnFront(unique, e.path) && e == AsRoute(unique[e.path]))
    && (forall p :: OnFront(unique, p) ==> AsRoute(unique[p]) in front)
  }

  /** The candidates in whatever order the hash map yields its values. */
  method IntoValues(unique: map<seq<nat>, BellmanFordResult>) returns (order: seq<seq<nat>>)
    ensures Distinct(order) && forall p :: p in order <==> p in unique
  {
    order := [];
    var left := unique.Keys;
    while left != {}
      invariant Distinct(order) && left <= unique.Keys
      invariant forall p :: p in order <==> p in unique && p !in left
      decreases left
    {
      var p :| p in left;
      order := order + [p];
      left := left - {p};
    }
  }

  /** The quadratic scan: does any other candidate dominate the one at position `i`? */
  method IsDominated(unique: map<seq<nat>, BellmanFordResult>, order: seq<seq<nat>>, i: nat) returns (dominated: bool)
    requires Distinct(order) && (forall p :: p in order <==> p in unique) && i < |order|
    ensures dominated <==> !Undominated(unique, order[i])
  {
    dominated := false;
    for j := 0 to |order|
      invariant dominated <==>
                  exists k :: 0 <= k < j && k != i && Dominates(unique[order[k]].metrics, unique[order[i]].metrics)
    {
      if i != j && Dominates(unique[order[j]].metrics, unique[order[i]].metrics) {
        dominated := true;
      }
    }
    forall q | q in unique && q != order[i] ensures exists k :: 0 <= k < |order| && k != i && order[k] == q {
      assert q in order;
    }
  }

  /** The front a scan in the given order collects. */
  ghost function Collected(unique: map<seq<nat>, BellmanFordResult>, order: seq<seq<nat>>): seq<ParetoRoute>
    requires forall p :: p in order ==> p in unique
  {
    if order == [] then []
    else
      var last := order[|order| - 1];
      Collected(unique, order[..|order| - 1]) + (if Undominated(unique, last) then [AsRoute(unique[last])] else [])
  }

  lemma {:induction false} CollectedIsFront(unique: map<seq<nat>, BellmanFordResult>, order: seq<seq<nat>>)
    requires Distinct(order) && (forall p :: p in order ==> p in unique)
    requires forall p :: p in unique ==> unique[p].path == p
    ensures var front := Collected(unique, order);
            && KeysDistinct(front, PathKey)
            && (forall e :: e in front ==>
                  e.path in order && Undominated(unique, e.path) && e == AsRoute(unique[e.path]))
            && (forall p :: p in order && Undominated(unique, p) ==> AsRoute(unique[p]) in front)
  {
    hide Undominated;
    if order != [] {
      var rest := order[..|order| - 1];
      CollectedIsFront(unique, rest);
      var front, last := Collected(unique, rest), order[|order| - 1];
      assert order == rest + [last] && last !in rest;
      forall k | 0 <= k < |front| ensures front[k].path != last {
        assert front[k] in front;
      }
    }
  }

  method ScanForFront(unique: map<seq<nat>, BellmanFordResult>, order: seq<seq<nat>>) returns (front: seq<ParetoRoute>)
    requires Distinct(order) && forall p :: p in order <==> p in unique
    ensures front == Collected(unique, order)
  {
    hide Undominated, Collected;
    front := [];
    assert Collected(unique, order[..0]) == [] by { NothingCollected(unique, order[..0]); }
    for i := 0 to |order|
      invariant front == Collected(unique, order[..i])
    {
      var dominated := IsDominated(unique, order, i);
      CollectedNext(unique, order, i);
      if !dominated {
        front := front + [AsRoute(unique[order[i]])];
      }
    }
    assert order[..|order|] == order;
  }

  method ParetoFront(results: seq<BellmanFordResult>) returns (front: seq<ParetoRoute>)
    ensures IsFront(results, front)
  {
    hide Undominated, Collected, Deduplicated;
    var unique := Deduplicate(results);
    PathsAreKeys(results, unique);
    var order := IntoValues(unique);
    front := ScanForFront(unique, order);
    CollectedIsFront(unique, order);
    assert FrontOf(unique, front);
  }

  lemma PathsAreKeys(results: seq<BellmanFordResult>, unique: map<seq<nat>, BellmanFordResult>)
    requires Deduplicated(results, unique)
    ensures forall p :: p in unique ==> unique[p].path == p
  {}

  lemma NothingCollected(unique: map<seq<nat>, BellmanFordResult>, order: seq<seq<nat>>)
    requires order == []
    ensures Collected(unique, order) == []
  {}

  lemma CollectedNext(unique: map<seq<nat>, BellmanFordResult>, order: seq<seq<nat>>, i: nat)
    requires (forall p :: p in order ==> p in unique) && i < |order|
    ensures Collected(unique, order[..i + 1]) ==
            Collected(unique, order[..i]) + (if Undominated(unique, order[i]) then [AsRoute(unique[order[i]])] else [])
  {
    assert order[..i + 1][..i] == order[..i];
  }

  // ------------------------------------------------ domination over the front

  lemma DominatesTransitive(a: RouteMetrics, b: RouteMetrics, c: RouteMetrics)
    requires Dominates(a, b) && Dominates(b, c)
    ensures Dominates(a, c)
  {}

  ghost function Dominators(unique: map<seq<nat>, BellmanFordResult>, p: seq<nat>): set<seq<nat>>
    requires p in unique
  {
    set q | q in unique && Dominates(unique[q].metrics, unique[p].metrics)
  }

  /** Every representative is on the front or dominated by one that is. */
  lemma {:induction false} FrontDominates(unique: map<seq<nat>, BellmanFordResult>, p: seq<nat>) returns (q: seq<nat>)
    requires p in unique
    ensures OnFront(unique, q)
    ensures q == p || Dominates(unique[q].metrics, unique[p].metrics)
    decreases Dominators(unique, p)
  {
    if Undominated(unique, p) {
      q := p;
    } else {
      var better :| better in unique && better != p && Dominates(unique[better].metrics, unique[p].metrics);
      forall d | d in Dominators(unique, better) ensures d in Dominators(unique, p) {
        DominatesTransitive(unique[d].metrics, unique[better].metrics, unique[p].metrics);
      }
      assert better in Dominators(unique, p) && better !in Dominators(unique, better);
      q := FrontDominates(unique, better);
      if q != better {
        DominatesTransitive(unique[q].metrics, unique[better].metrics, unique[p].metrics);
      }
    }
  }

  /** Metrics are a function of the path, as they are for every list the sweep produces. */
  ghost predicate PathDetermined(results: seq<BellmanFordResult>) {
    forall a, b :: a in results && b in results && a.path == b.path ==> a.metrics == b.metrics
  }

  lemma RepresentativeIsUnique(results: seq<BellmanFordResult>, path: seq<nat>, a: BellmanFordResult,
                               b: BellmanFordResult)
    requires Represents(results, path, a) && Represents(results, path, b)
    ensures a == b
  {
    var i: nat :| RepresentsAt(results, path, i) && results[i] == a;
    var k: nat :| RepresentsAt(results, path, k) && results[k] == b;
    NotEarlier(results, path, i, k);
    NotEarlier(results, path, k, i);
  }

  lemma NotEarlier(results: seq<BellmanFordResult>, path: seq<nat>, i: nat, k: nat)
    requires RepresentsAt(results, path, i) && RepresentsAt(results, path, k)
    ensures k <= i
  {}

  /** Every path's representative is on the front or dominated by a front member, whatever the list and the order. */
  lemma FrontCoversRepresentative(results: seq<BellmanFordResult>, front: seq<ParetoRoute>, path: seq<nat>,
                                  r: BellmanFordResult)
    returns (e: ParetoRoute)
    requires IsFront(results, front) && Represents(results, path, r)
    ensures e in front && (e == AsRoute(r) || Dominates(e.metrics, r.metrics))
  {
    var unique :| Deduplicated(results, unique) && FrontOf(unique, front);
    RepresentativeIsLeast(results, path, r);
    RepresentativeIsUnique(results, path, r, unique[path]);
    hide Represents, Dominates;
    var q := FrontDominates(unique, path);
    e := AsRoute(unique[q]);
  }

  lemma RepresentativeExists(results: seq<BellmanFordResult>, front: seq<ParetoRoute>, r: BellmanFordResult)
    returns (best: BellmanFordResult)
    requires IsFront(results, front) && r in results
    ensures Represents(results, r.path, best) && best in results && best.path == r.path
  {
    var unique :| Deduplicated(results, unique) && FrontOf(unique, front);
    best := unique[r.path];
    RepresentativeIsLeast(results, r.path, best);
  }

  /** Every input route is matched on its own path or dominated by a front member, whatever the order of the front. */
  lemma FrontCoversInputs(results: seq<BellmanFordResult>, front: seq<ParetoRoute>, r: BellmanFordResult)
    returns (e: ParetoRoute)
    requires IsFront(results, front) && PathDetermined(results) && r in results
    ensures e in front
    ensures (e.path == r.path && e.metrics == r.metrics) || Dominates(e.metrics, r.metrics)
  {
    hide IsFront, Represents, Dominates;
    var best := RepresentativeExists(results, front, r);
    e := FrontCoversRepresentative(results, front, r.path, best);
  }

  /** Every front member represents its path. */
  lemma FrontRepresents(results: seq<BellmanFordResult>, front: seq<ParetoRoute>, e: ParetoRoute)
    returns (r: BellmanFordResult)
    requires IsFront(results, front) && e in front
    ensures Represents(results, e.path, r) && AsRoute(r) == e
  {
    var unique :| Deduplicated(results, unique) && FrontOf(unique, front);
    r := unique[e.path];
  }

  /** Front members are input routes, the cheapest of their paths, and no input route dominates one. */
  lemma FrontIsUndominated(results: seq<BellmanFordResult>, front: seq<ParetoRoute>, e: ParetoRoute)
    requires IsFront(results, front) && e in front
    ensures exists r :: r in results && AsRoute(r) == e
    ensures exists r :: r in results && e.path == r.path && e.metrics == r.metrics && e.scalarCost == r.scalarCost
    ensures forall r :: r in results && r.path == e.path ==> e.scalarCost <= r.scalarCost
    ensures PathDetermined(results) ==> forall r :: r in results ==> !Dominates(r.metrics, e.metrics)
  {
    var unique :| Deduplicated(results, unique) && FrontOf(unique, front);
    RepresentativeIsLeast(results, e.path, unique[e.path]);
    if PathDetermined(results) {
      forall r | r in results ensures !Dominates(r.metrics, e.metrics) {
        RepresentativeIsLeast(results, r.path, unique[r.path]);
      }
    }
  }

  lemma FrontNonEmpty(results: seq<BellmanFordResult>, front: seq<ParetoRoute>)
    requires IsFront(results, front)
    ensures front == [] <==> results == []
  {
    var unique :| Deduplicated(results, unique) && FrontOf(unique, front);
    if results != [] {
      assert results[0] in results;
      var q := FrontDominates(unique, results[0].path);
      assert AsRoute(unique[q]) in front;
    }
    if front != [] {
      assert front[0] in front;
      RepresentativeIsLeast(results, front[0].path, unique[front[0].path]);
    }
  }

  // ------------------------------------------------- filtering and ranking

  function Meets(qos: QoS): ParetoRoute -> bool {
    (r: ParetoRoute) => SatisfiesConstraints(r.metrics, qos)
  }

  function FilterByConstraints(routes: seq<ParetoRoute>, qos: QoS): seq<ParetoRoute> {
    Filter(routes, Meets(qos))
  }

  predicate CheaperRoute(a: ParetoRoute, b: ParetoRoute) {
    a.scalarCost <= b.scalarCost
  }

  function Rescored(r: ParetoRoute, w: CostWeights, model: CostModel): ParetoRoute {
    r.(scalarCost := ScalarRouteCost(model, r.metrics, w))
  }

  /** Overwrite every scalar cost with the one under the reference weights, then sort by it. */
  method RankRoutes(routes: seq<ParetoRoute>, w: CostWeights, model: CostModel) returns (ranked: seq<ParetoRoute>)
    ensures |ranked| == |routes| && SortedBy(ranked, CheaperRoute)
    ensures forall e :: e in ranked <==> exists r :: r in routes && e == Rescored(r, w, model)
    ensures KeysDistinct(routes, PathKey) ==> KeysDistinct(ranked, PathKey)
  {
    ranked := routes;
    for i := 0 to |routes|
      invariant |ranked| == |routes|
      invariant forall k :: 0 <= k < |routes| ==>
          ranked[k] == if k < i then Rescored(routes[k], w, model) else routes[k]
    {
      ranked := ranked[i := ranked[i].(scalarCost := ScalarRouteCost(model, ranked[i].metrics, w))];
    }
    ghost var scored := ranked;
    assert forall r :: r in routes ==> Rescored(r, w, model) in scored by {
      forall r | r in routes ensures Rescored(r, w, model) in scored {
        var k :| 0 <= k < |routes| && routes[k] == r;
        assert scored[k] == Rescored(r, w, model);
      }
    }
    ranked := StableSort(ranked, CheaperRoute);
    SortPermutes(scored, CheaperRoute);
    SortSorts(scored, CheaperRoute);
    SortKeepsKeys(scored, CheaperRoute, PathKey);
  }

  // ---------------------------------------------------------- top selection

  ghost predicate SomeFeasible(results: seq<BellmanFordResult>, qos: QoS) {
    exists r :: r in results && SatisfiesConstraints(r.metrics, qos)
  }

  /** The representative of some path meets the bounds. */
  ghost predicate RepresentativeFeasible(results: seq<BellmanFordResult>, qos: QoS) {
    exists path, r :: Represents(results, path, r) && SatisfiesConstraints(r.metrics, qos)
  }

  /**
   * For every list: the front has a feasible member exactly when the representative of some path is feasible.
   * So the fallback to all candidates adds something exactly when a feasible result exists but every feasible
   * result is hidden behind an infeasible representative of its path.
   */
  lemma FrontFeasibleIff(results: seq<BellmanFordResult>, front: seq<ParetoRoute>, qos: QoS)
    requires IsFront(results, front)
    ensures FilterByConstraints(front, qos) != [] <==> RepresentativeFeasible(results, qos)
  {
    hide IsFront, Dominates, SatisfiesConstraints, Represents;
    var kept := FilterByConstraints(front, qos);
    if RepresentativeFeasible(results, qos) {
      var path, r :| Represents(results, path, r) && SatisfiesConstraints(r.metrics, qos);
      var e := FrontCoversRepresentative(results, front, path, r);
      if e != AsRoute(r) { DominatorMeetsBounds(e.metrics, r.metrics, qos); }
      assert e in kept;
    }
    if kept != [] {
      assert kept[0] in kept;
      var r := FrontRepresents(results, front, kept[0]);
    }
  }

  /** When metrics depend on the path, a feasible input has a feasible representative, so the fallback adds nothing. */
  lemma FrontKeepsFeasibility(results: seq<BellmanFordResult>, front: seq<ParetoRoute>, qos: QoS)
    requires IsFront(results, front) && PathDetermined(results)
    ensures SomeFeasible(results, qos) <==> FilterByConstraints(front, qos) != []
  {
    FrontFeasibleIff(results, front, qos);
    hide IsFront, SatisfiesConstraints, Represents;
    if SomeFeasible(results, qos) {
      var r :| r in results && SatisfiesConstraints(r.metrics, qos);
      var best := RepresentativeExists(results, front, r);
    }
    if RepresentativeFeasible(results, qos) {
      var path, r :| Represents(results, path, r) && SatisfiesConstraints(r.metrics, qos);
      RepresentativeIsLeast(results, path, r);
    }
  }

  lemma CheapestRepresents(poor: BellmanFordResult, good: BellmanFordResult, path: seq<nat>, r: BellmanFordResult)
    requires poor.path == good.path && poor.scalarCost < good.scalarCost
    requires Represents([poor, good], path, r)
    ensures r == poor
  {
    RepresentativeIsLeast([poor, good], path, r);
    assert poor in [poor, good];
  }

  /** A list where the fallback matters: the cheaper of two results on one path hides a feasible one. */
  lemma FallbackMattersOtherwise() returns (results: seq<BellmanFordResult>, qos: QoS)
    ensures SomeFeasible(results, qos) && !RepresentativeFeasible(results, qos)
    ensures forall front :: IsFront(results, front) ==> FilterByConstraints(front, qos) == []
  {
    hide IsFront, FilterByConstraints;
    var poor := BellmanFordResult(DEFAULT_WEIGHTS, [0], 0.0, RouteMetrics(0.0, 0.0, 0.0));
    var good := BellmanFordResult(DEFAULT_WEIGHTS, [0], 1.0, RouteMetrics(1.0, 0.0, 0.0));
    results, qos := [poor, good], QoS(0.5, 1.0, 1.0, 0.0);
    assert poor in results && good in results;
    forall path, r | Represents(results, path, r) ensures !SatisfiesConstraints(r.metrics, qos) {
      CheapestRepresents(poor, good, path, r);
    }
    forall front | IsFront(results, front) ensures FilterByConstraints(front, qos) == [] {
      FrontFeasibleIff(results, front, qos);
    }
  }

  /** What a selection promises: real feasible candidates, rescored, cheapest first, no path twice. */
  ghost predicate Selection(results: seq<BellmanFordResult>, qos: QoS, w: CostWeights, model: CostModel, maxRoutes: nat,
                            selected: seq<ParetoRoute>) {
    && |selected| <= maxRoutes
    && SortedBy(selected, CheaperRoute) && KeysDistinct(selected, PathKey)
    && (forall e :: e in selected ==>
          && SatisfiesConstraints(e.metrics, qos) && e.scalarCost == ScalarRouteCost(model, e.metrics, w)
          && exists r :: r in results && r.path == e.path && r.metrics == e.metrics)
  }

  /** No feasible candidate beats the first selected route. */
  ghost predicate FirstIsBest(results: seq<BellmanFordResult>, qos: QoS, w: CostWeights, model: CostModel,
                              selected: seq<ParetoRoute>) {
    && selected != []
    && forall r :: r in results && SatisfiesConstraints(r.metrics, qos) ==>
                     selected[0].scalarCost <= ScalarRouteCost(model, r.metrics, w)
  }

  /** `e` is a route of the input that meets the bounds. */
  ghost predicate FeasibleInput(results: seq<BellmanFordResult>, qos: QoS, e: ParetoRoute) {
    SatisfiesConstraints(e.metrics, qos) && exists r :: r in results && r.path == e.path && r.metrics == e.metrics
  }

  /** The route's path is selected at no higher cost, or the selection is full of routes that are no dearer. */
  ghost predicate KeptOrFull(path: seq<nat>, cost: real, maxRoutes: nat, selected: seq<ParetoRoute>) {
    || (exists e :: e in selected && e.path == path && e.scalarCost <= cost)
    || (|selected| == maxRoutes && forall e :: e in selected ==> e.scalarCost <= cost)
  }

  ghost predicate KeepsTop(pool: seq<ParetoRoute>, w: CostWeights, model: CostModel, maxRoutes: nat,
                           selected: seq<ParetoRoute>)
  {
    forall f :: f in pool ==> KeptOrFull(f.path, ScalarRouteCost(model, f.metrics, w), maxRoutes, selected)
  }

  ghost predicate RescoredFrom(pool: seq<ParetoRoute>, w: CostWeights, model: CostModel, selected: seq<ParetoRoute>) {
    forall e :: e in selected ==> exists f :: f in pool && e == Rescored(f, w, model)
  }

  /** Rank, drop repeated paths and truncate. */
  method TakeTop(feasible: seq<ParetoRoute>, w: CostWeights, model: CostModel, maxRoutes: nat)
    returns (selected: seq<ParetoRoute>)
    ensures |selected| <= maxRoutes && SortedBy(selected, CheaperRoute) && KeysDistinct(selected, PathKey)
    ensures RescoredFrom(feasible, w, model, selected)
    ensures KeepsTop(feasible, w, model, maxRoutes, selected)
  {
    hide ScalarRouteCost, DistinctBy, Take, SortedBy, KeysDistinct, KeepsTop;
    var ranked := RankRoutes(feasible, w, model);
    selected := Take(DistinctBy(ranked, PathKey, {}), maxRoutes);
    TopOfRanked(ranked, maxRoutes);
    TopIsKept(feasible, ranked, w, model, maxRoutes);
  }

  lemma TopOfRanked(ranked: seq<ParetoRoute>, maxRoutes: nat)
    requires SortedBy(ranked, CheaperRoute)
    ensures var selected := Take(DistinctBy(ranked, PathKey, {}), maxRoutes);
            && |selected| <= maxRoutes && SortedBy(selected, CheaperRoute) && KeysDistinct(selected, PathKey)
            && forall e :: e in selected ==> e in ranked
  {
    DistinctByKeys(ranked, PathKey, {});
    DistinctByOrder(ranked, PathKey, {}, CheaperRoute);
    hide DistinctBy;
  }

  lemma TopIsKept(pool: seq<ParetoRoute>, ranked: seq<ParetoRoute>, w: CostWeights, model: CostModel, maxRoutes: nat)
    requires SortedBy(ranked, CheaperRoute) && forall f :: f in pool ==> Rescored(f, w, model) in ranked
    ensures KeepsTop(pool, w, model, maxRoutes, Take(DistinctBy(ranked, PathKey, {}), maxRoutes))
  {
    assert TotalPreorder(CheaperRoute);
    hide TotalPreorder, ScalarRouteCost, DistinctBy, Take;
    forall f | f in pool
      ensures KeptOrFull(f.path, ScalarRouteCost(model, f.metrics, w), maxRoutes,
                         Take(DistinctBy(ranked, PathKey, {}), maxRoutes))
    {
      TopKept(ranked, PathKey, CheaperRoute, maxRoutes, Rescored(f, w, model));
    }
  }

  /** The first route of a selection that keeps the top is as cheap as every route of the pool. */
  lemma TopComesFirst(pool: seq<ParetoRoute>, w: CostWeights, model: CostModel, maxRoutes: nat,
                      selected: seq<ParetoRoute>)
    requires KeepsTop(pool, w, model, maxRoutes, selected) && SortedBy(selected, CheaperRoute)
    requires maxRoutes >= 1 && pool != []
    ensures selected != []
    ensures forall f :: f in pool ==> selected[0].scalarCost <= ScalarRouteCost(model, f.metrics, w)
  {
    hide ScalarRouteCost;
    assert pool[0] in pool;
    forall f | f in pool ensures selected != [] && selected[0].scalarCost <= ScalarRouteCost(model, f.metrics, w) {
      KeptIsFirst(f.path, ScalarRouteCost(model, f.metrics, w), maxRoutes, selected);
    }
  }

  lemma KeptIsFirst(path: seq<nat>, cost: real, maxRoutes: nat, selected: seq<ParetoRoute>)
    requires KeptOrFull(path, cost, maxRoutes, selected) && SortedBy(selected, CheaperRoute) && maxRoutes >= 1
    ensures selected != [] && selected[0].scalarCost <= cost
  {
    if |selected| == maxRoutes && forall e :: e in selected ==> e.scalarCost <= cost {
      assert selected[0] in selected;
    } else {
      var e :| e in selected && e.path == path && e.scalarCost <= cost;
      var k :| 0 <= k < |selected| && selected[k] == e;
      if k > 0 { assert CheaperRoute(selected[0], selected[k]); }
    }
  }

  function AllRoutes(results: seq<BellmanFordResult>): seq<ParetoRoute> {
    seq(|results|, i requires 0 <= i < |results| => AsRoute(results[i]))
  }

  /** The routes the selection works on: the feasible front, or all feasible inputs when there is none. */
  function FeasiblePool(results: seq<BellmanFordResult>, front: seq<ParetoRoute>, qos: QoS): seq<ParetoRoute> {
    var feasible := FilterByConstraints(front, qos);
    if feasible != [] then feasible else FilterByConstraints(AllRoutes(results), qos)
  }

  lemma PoolIsFeasible(results: seq<BellmanFordResult>, front: seq<ParetoRoute>, qos: QoS)
    requires IsFront(results, front)
    ensures forall e :: e in FeasiblePool(results, front, qos) ==> FeasibleInput(results, qos, e)
    ensures FeasiblePool(results, front, qos) != [] <==> SomeFeasible(results, qos)
  {
    hide IsFront, SatisfiesConstraints;
    var pool, all := FeasiblePool(results, front, qos), AllRoutes(results);
    forall e | e in FilterByConstraints(front, qos) ensures FeasibleInput(results, qos, e) {
      FrontIsUndominated(results, front, e);
    }
    forall r | r in results && SatisfiesConstraints(r.metrics, qos)
      ensures AsRoute(r) in FilterByConstraints(all, qos)
    {
      var i :| 0 <= i < |results| && results[i] == r;
      assert all[i] == AsRoute(r);
    }
    forall e | e in FilterByConstraints(all, qos) ensures FeasibleInput(results, qos, e) {
      var i :| 0 <= i < |all| && all[i] == e;
      assert results[i] in results;
    }
    if pool != [] { assert FeasibleInput(results, qos, pool[0]); }
  }

  /** The exchange argument: the cheapest feasible front member is cheapest among all feasible inputs. */
  lemma FrontHoldsTheBest(results: seq<BellmanFordResult>, front: seq<ParetoRoute>, qos: QoS, w: CostWeights,
                          model: CostModel, selected: seq<ParetoRoute>)
    requires IsFront(results, front) && PathDetermined(results) && Aligned(model, w)
    requires selected != [] && forall f :: f in FilterByConstraints(front, qos) ==>
               selected[0].scalarCost <= ScalarRouteCost(model, f.metrics, w)
    ensures FirstIsBest(results, qos, w, model, selected)
  {
    hide IsFront, PathDetermined, Dominates, SatisfiesConstraints, ScalarRouteCost;
    forall r | r in results && SatisfiesConstraints(r.metrics, qos)
      ensures selected[0].scalarCost <= ScalarRouteCost(model, r.metrics, w)
    {
      var e := FrontCoversInputs(results, front, r);
      DominatorMeetsBounds(e.metrics, r.metrics, qos);
      assert e in FilterByConstraints(front, qos);
      DominanceLowersCost(model, e.metrics, r.metrics, w);
    }
  }

  /** The selection is the top of the feasible pool of a front. */
  ghost predicate TopSelection(results: seq<BellmanFordResult>, qos: QoS, w: CostWeights, model: CostModel,
                               maxRoutes: nat, selected: seq<ParetoRoute>) {
    exists front :: IsFront(results, front)
      && RescoredFrom(FeasiblePool(results, front, qos), w, model, selected)
      && KeepsTop(FeasiblePool(results, front, qos), w, model, maxRoutes, selected)
  }

  ghost predicate Undefeated(results: seq<BellmanFordResult>, metrics: RouteMetrics) {
    forall r :: r in results ==> !Dominates(r.metrics, metrics)
  }

  /**
   * In plain words, when metrics depend on the path: no selected route is dominated by an input, and an undominated
   * feasible input is left out only when the selection is full of routes that are no dearer.
   */
  lemma TopSelectionMeaning(results: seq<BellmanFordResult>, qos: QoS, w: CostWeights, model: CostModel, maxRoutes: nat,
                            selected: seq<ParetoRoute>, r: BellmanFordResult)
    requires TopSelection(results, qos, w, model, maxRoutes, selected) && PathDetermined(results)
    requires r in results && SatisfiesConstraints(r.metrics, qos)
    ensures forall e :: e in selected ==> Undefeated(results, e.metrics)
    ensures Undefeated(results, r.metrics) ==>
              KeptOrFull(r.path, ScalarRouteCost(model, r.metrics, w), maxRoutes, selected)
  {
    hide IsFront, PathDetermined, SatisfiesConstraints, ScalarRouteCost, Dominates;
    var front :| IsFront(results, front) && RescoredFrom(FeasiblePool(results, front, qos), w, model, selected)
                 && KeepsTop(FeasiblePool(results, front, qos), w, model, maxRoutes, selected);
    FrontKeepsFeasibility(results, front, qos);
    var pool := FilterByConstraints(front, qos);
    assert FeasiblePool(results, front, qos) == pool;
    forall e | e in selected ensures Undefeated(results, e.metrics) {
      var f :| f in pool && e == Rescored(f, w, model);
      FrontIsUndominated(results, front, f);
    }
    if Undefeated(results, r.metrics) {
      var f := FrontCoversInputs(results, front, r);
      FrontMemberIsInput(results, front, f);
      assert f.path == r.path && f.metrics == r.metrics && f in pool;
    }
  }

  lemma FrontMemberIsInput(results: seq<BellmanFordResult>, front: seq<ParetoRoute>, f: ParetoRoute)
    requires IsFront(results, front) && f in front
    ensures exists r :: r in results && r.metrics == f.metrics
  {
    FrontIsUndominated(results, front, f);
  }

  method SelectTopRoutes(results: seq<BellmanFordResult>, qos: QoS, w: CostWeights, model: CostModel, maxRoutes: nat)
    returns (r: Result<seq<ParetoRoute>, RoutingError>)
    ensures r.Ok? <==> SomeFeasible(results, qos)
    ensures r.Err? ==> r.error == NoFeasibleRoute
    ensures r.Ok? ==> Selection(results, qos, w, model, maxRoutes, r.value)
    ensures r.Ok? ==> TopSelection(results, qos, w, model, maxRoutes, r.value)
    ensures r.Ok? && maxRoutes >= 1 ==> r.value != []
    ensures r.Ok? && maxRoutes >= 1 && PathDetermined(results) && Aligned(model, w) ==>
              FirstIsBest(results, qos, w, model, r.value)
  {
    hide IsFront, PathDetermined, FirstIsBest, ScalarRouteCost, FeasiblePool, FilterByConstraints, KeepsTop, Aligned;
    var front := ParetoFront(results);
    FrontNonEmpty(results, front);
    if |front| == 0 { return Err(NoFeasibleRoute); }
    var feasible := FilterByConstraints(front, qos);
    if |feasible| == 0 { feasible := FilterByConstraints(AllRoutes(results), qos); }
    assert feasible == FeasiblePool(results, front, qos) by { PoolIs(results, front, qos); }
    PoolIsFeasible(results, front, qos);
    if |feasible| == 0 { return Err(NoFeasibleRoute); }
    var selected := TakeTop(feasible, w, model, maxRoutes);
    if maxRoutes >= 1 { TopComesFirst(feasible, w, model, maxRoutes, selected); }
    if maxRoutes >= 1 && PathDetermined(results) && Aligned(model, w) {
      FrontKeepsFeasibility(results, front, qos);
      PoolIs(results, front, qos);
      FrontHoldsTheBest(results, front, qos, w, model, selected);
    }
    SelectedFromPool(results, qos, w, model, maxRoutes, feasible, selected);
    r := Ok(selected);
  }

  lemma PoolIs(results: seq<BellmanFordResult>, front: seq<ParetoRoute>, qos: QoS)
    ensures FeasiblePool(results, front, qos) ==
            if FilterByConstraints(front, qos) != [] then FilterByConstraints(front, qos)
            else FilterByConstraints(AllRoutes(results), qos)
  {}

  lemma SelectedFromPool(results: seq<BellmanFordResult>, qos: QoS, w: CostWeights, model: CostModel, maxRoutes: nat,
                         pool: seq<ParetoRoute>, selected: seq<ParetoRoute>)
    requires |selected| <= maxRoutes && SortedBy(selected, CheaperRoute) && KeysDistinct(selected, PathKey)
    requires RescoredFrom(pool, w, model, selected) && forall e :: e in pool ==> FeasibleInput(results, qos, e)
    ensures Selection(results, qos, w, model, maxRoutes, selected)
  {
    hide SatisfiesConstraints, ScalarRouteCost;
  }

  // ------------------------------------ exactly when the first is the best

  /** A selection, as `SelectTopRoutes` makes it, from a list whose metrics depend on the path. */
  ghost predicate Selected(results: seq<BellmanFordResult>, qos: QoS, w: CostWeights, model: CostModel, maxRoutes: nat,
                           selected: seq<ParetoRoute>)
  {
    && PathDetermined(results) && SomeFeasible(results, qos) && maxRoutes >= 1
    && Selection(results, qos, w, model, maxRoutes, selected)
    && TopSelection(results, qos, w, model, maxRoutes, selected)
  }

  ghost predicate FirstAlwaysBest(model: CostModel, w: CostWeights) {
    forall results, qos, maxRoutes: nat, selected ::
      Selected(results, qos, w, model, maxRoutes, selected) ==> FirstIsBest(results, qos, w, model, selected)
  }

  lemma AlignedFirstIsBest(results: seq<BellmanFordResult>, qos: QoS, w: CostWeights, model: CostModel, maxRoutes: nat,
                           selected: seq<ParetoRoute>)
    requires Selected(results, qos, w, model, maxRoutes, selected) && Aligned(model, w)
    ensures FirstIsBest(results, qos, w, model, selected)
  {
    hide IsFront, PathDetermined, SomeFeasible, FilterByConstraints, KeepsTop, ScalarRouteCost, Aligned, FirstIsBest;
    var front :| IsFront(results, front) && RescoredFrom(FeasiblePool(results, front, qos), w, model, selected)
                 && KeepsTop(FeasiblePool(results, front, qos), w, model, maxRoutes, selected);
    FrontKeepsFeasibility(results, front, qos);
    TopComesFirst(FilterByConstraints(front, qos), w, model, maxRoutes, selected);
    FrontHoldsTheBest(results, front, qos, w, model, selected);
  }

  function Lone(path: seq<nat>, m: RouteMetrics): BellmanFordResult {
    BellmanFordResult(DEFAULT_WEIGHTS, path, 0.0, m)
  }

  /** Of two results on different paths the dominating one alone is the front. */
  lemma DominatorIsFront(a: RouteMetrics, b: RouteMetrics)
    requires Dominates(a, b)
    ensures IsFront([Lone([0], a), Lone([1], b)], [AsRoute(Lone([0], a))])
  {
    var ra, rb := Lone([0], a), Lone([1], b);
    var results, front := [ra, rb], [AsRoute(ra)];
    assert [0][0] != [1][0];
    var unique: map<seq<nat>, BellmanFordResult> := map[[0] := ra, [1] := rb];
    assert RepresentsAt(results, [0], 0) && RepresentsAt(results, [1], 1);
    assert Deduplicated(results, unique);
    assert Undominated(unique, [0]) && !Undominated(unique, [1]);
    assert AsRoute(ra) in front;
    assert FrontOf(unique, front);
  }

  /** Weights out of step: the dominating route is selected although the dominated one scores better. */
  lemma MisalignedFirstIsNotBest(w: CostWeights, model: CostModel)
    returns (results: seq<BellmanFordResult>, qos: QoS, selected: seq<ParetoRoute>)
    requires !Aligned(model, w)
    ensures Selected(results, qos, w, model, 1, selected) && !FirstIsBest(results, qos, w, model, selected)
  {
    hide ScalarRouteCost, TopSelection, IsFront, SatisfiesConstraints, Selection, PathDetermined, Aligned, FirstIsBest;
    var a, b := MisalignedPrefersWorse(model, w);
    var ra, rb := Lone([0], a), Lone([1], b);
    results, qos := [ra, rb], QoS(b.quality, b.latency, b.cost, 0.0);
    selected := [Rescored(AsRoute(ra), w, model)];
    assert SatisfiesConstraints(b, qos) by { OwnBounds(b, qos); }
    DominatorMeetsBounds(a, b, qos);
    DominatorIsFront(a, b);
    LoneSelection(ra, rb, qos, w, model);
    LoneIsSelection(ra, rb, qos, w, model);
    LonesAreDetermined(a, b);
    assert ra in results;
    DearerIsNotBest(results, qos, w, model, selected, rb);
  }

  lemma OwnBounds(m: RouteMetrics, qos: QoS)
    requires qos.minQuality == m.quality && qos.maxLatency == m.latency && qos.maxCost == m.cost
    ensures SatisfiesConstraints(m, qos)
  {}

  lemma LonesAreDetermined(a: RouteMetrics, b: RouteMetrics)
    ensures PathDetermined([Lone([0], a), Lone([1], b)])
  {
    assert [0][0] != [1][0];
  }

  lemma LoneIsSelection(ra: BellmanFordResult, rb: BellmanFordResult, qos: QoS, w: CostWeights, model: CostModel)
    requires SatisfiesConstraints(ra.metrics, qos)
    ensures Selection([ra, rb], qos, w, model, 1, [Rescored(AsRoute(ra), w, model)])
  {
    hide ScalarRouteCost, SatisfiesConstraints;
    assert ra in [ra, rb];
  }

  lemma DearerIsNotBest(results: seq<BellmanFordResult>, qos: QoS, w: CostWeights, model: CostModel,
                        selected: seq<ParetoRoute>, r: BellmanFordResult)
    requires r in results && SatisfiesConstraints(r.metrics, qos) && selected != []
    requires selected[0].scalarCost > ScalarRouteCost(model, r.metrics, w)
    ensures !FirstIsBest(results, qos, w, model, selected)
  {}

  lemma LoneSelection(ra: BellmanFordResult, rb: BellmanFordResult, qos: QoS, w: CostWeights, model: CostModel)
    requires IsFront([ra, rb], [AsRoute(ra)]) && SatisfiesConstraints(ra.metrics, qos)
    ensures TopSelection([ra, rb], qos, w, model, 1, [Rescored(AsRoute(ra), w, model)])
  {
    hide ScalarRouteCost, IsFront, SatisfiesConstraints;
    var results, front, selected := [ra, rb], [AsRoute(ra)], [Rescored(AsRoute(ra), w, model)];
    assert AsRoute(ra) in front && AsRoute(ra) in FilterByConstraints(front, qos);
    var pool := FeasiblePool(results, front, qos);
    assert forall f :: f in pool ==> f == AsRoute(ra);
    assert selected[0] in selected && AsRoute(ra) in pool;
    assert RescoredFrom(pool, w, model, selected) && KeepsTop(pool, w, model, 1, selected);
  }

  /** The first selected route is a best feasible one on every such list exactly when the weights are in step. */
  lemma FirstAlwaysBestIffAligned(model: CostModel, w: CostWeights)
    ensures FirstAlwaysBest(model, w) <==> Aligned(model, w)
  {
    hide Selected, FirstIsBest, Aligned;
    if Aligned(model, w) {
      forall results, qos, maxRoutes: nat, selected | Selected(results, qos, w, model, maxRoutes, selected)
        ensures FirstIsBest(results, qos, w, model, selected)
      {
        AlignedFirstIsBest(results, qos, w, model, maxRoutes, selected);
      }
    } else {
      var results, qos, selected := MisalignedFirstIsNotBest(w, model);
    }
  }
}
