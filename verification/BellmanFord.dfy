/** The in-place Bellman-Ford run over the capable agents: relaxation, destination and reconstruction. */
module BellmanFord {
  import opened Prelude
  import opened Types
  import opened Cost
  import opened Graph
  import opened ShortestPaths
  import opened PathMetrics

  /** One single-source problem: the capable agents of a network under one weight vector. */
  datatype Problem = Problem(net: Network, agents: seq<nat>, task: TaskType, weights: CostWeights, model: CostModel) {

    ghost predicate Valid() {
      net.Valid() && Distinct(agents)
    }

    ghost predicate HasArc(i: nat, j: nat) {
      && i < |agents| && j < |agents|
      && net.TransferLatency(agents[i], agents[j]).Some?
      && net.CapabilityAt(agents[j], task).Some?
    }

    /** Only the agent that is entered is charged. */
    ghost function ArcCost(i: nat, j: nat): real
      requires HasArc(i, j)
    {
      ScalarEdgeCost(model, net.CapabilityAt(agents[j], task).value,
                     net.TransferLatency(agents[i], agents[j]).value, weights)
    }

    /** The capability subgraph over local indices. */
    ghost function Subgraph(): (g: Digraph)
      ensures g.n == |agents|
      ensures forall i: nat, j: nat :: g.Arc(i, j) <==> HasArc(i, j)
      ensures forall i: nat, j: nat :: HasArc(i, j) ==> g.Weight(i, j) == ArcCost(i, j)
    {
      Digraph(|agents|, (i: nat, j: nat) => if HasArc(i, j) then Some(ArcCost(i, j)) else None)
    }
  }

  function Globals(agents: seq<nat>, local: seq<nat>): seq<nat>
    requires forall i :: 0 <= i < |local| ==> local[i] < |agents|
  {
    seq(|local|, i requires 0 <= i < |local| => agents[local[i]])
  }

  method LocalIndices(agents: seq<nat>) returns (globalToLocal: map<nat, nat>)
    requires Distinct(agents)
    ensures forall a :: a in globalToLocal <==> a in agents
    ensures forall i :: 0 <= i < |agents| ==> globalToLocal[agents[i]] == i
  {
    globalToLocal := map[];
    for local := 0 to |agents|
      invariant forall a :: a in globalToLocal <==> a in agents[..local]
      invariant forall i :: 0 <= i < local ==> agents[i] in globalToLocal && globalToLocal[agents[i]] == i
    {
      globalToLocal := globalToLocal[agents[local] := local];
    }
  }

  /** The comparison and update of one edge, against the current distance of `u`. */
  method RelaxEdge(ghost g: Digraph, dist: array<Dist>, pred: array<Option<nat>>, u: nat, v: nat, edgeCost: real,
                   ghost s: nat, ghost start: seq<Dist>)
    returns (updated: bool)
    requires dist.Length == pred.Length == g.n && RunInv(g, s, dist[..], pred[..])
    requires g.Arc(u, v) && g.Weight(u, v) == edgeCost
    requires dist[u].Finite? && Leq(dist[..], start)
    modifies dist, pred
    ensures RunInv(g, s, dist[..], pred[..]) && dist[u].Finite?
    ensures Leq(dist[..], old(dist[..])) && Leq(dist[..], start)
    ensures Relaxed(g, start, dist[..], u, v)
    ensures !updated ==> dist[..] == old(dist[..]) && pred[..] == old(pred[..])
  {
    hide RunInv;
    var newDist := dist[u].value + edgeCost;
    updated := dist[v].Infinite? || newDist < dist[v].value;
    if updated {
      RelaxStep(g, s, dist[..], pred[..], u, v);
      ghost var before, linked := dist[..], pred[..];
      dist[v] := Finite(newDist);
      pred[v] := Some(u);
      assert dist[..] == before[v := Finite(newDist)] && pred[..] == linked[v := Some(u)];
    }
  }

  /** Every arc out of `u` is relaxed unless its edge is still ahead of position `e`. */
  ghost predicate EdgesDone(p: Problem, start: seq<Dist>, d: seq<Dist>, u: nat, e: nat)
    requires |d| == |start| == |p.agents|
  {
    forall v: nat :: p.HasArc(u, v) ==>
      Relaxed(p.Subgraph(), start, d, u, v) ||
      exists k :: e <= k < |p.net.EdgesFrom(p.agents[u])| && p.net.EdgesFrom(p.agents[u])[k].to == p.agents[v]
  }

  lemma ArcsAreAhead(p: Problem, start: seq<Dist>, d: seq<Dist>, u: nat)
    requires u < |p.agents| && |d| == |start| == |p.agents|
    ensures EdgesDone(p, start, d, u, 0)
  {}

  lemma EdgesDoneStep(p: Problem, start: seq<Dist>, d: seq<Dist>, d': seq<Dist>, u: nat, e: nat)
    requires u < |p.agents| && |d| == |d'| == |start| == |p.agents|
    requires EdgesDone(p, start, d, u, e) && Leq(d', d) && e < |p.net.EdgesFrom(p.agents[u])|
    requires forall v: nat :: p.HasArc(u, v) && p.agents[v] == p.net.EdgesFrom(p.agents[u])[e].to ==>
                                Relaxed(p.Subgraph(), start, d', u, v)
    ensures EdgesDone(p, start, d', u, e + 1)
  {}

  lemma EdgesDoneStays(p: Problem, start: seq<Dist>, d: seq<Dist>, d': seq<Dist>, u: nat, e: nat)
    requires |d| == |d'| == |start| == |p.agents| && EdgesDone(p, start, d, u, e) && Leq(d', d)
    ensures EdgesDone(p, start, d', u, e)
  {}

  /** An agent whose distance is still infinite has nothing to relax in this pass. */
  lemma UnreachedIsDone(p: Problem, start: seq<Dist>, d: seq<Dist>, u: nat)
    requires u < |p.agents| && |d| == |start| == |p.agents| && Leq(d, start) && d[u].Infinite?
    ensures EdgesDone(p, start, d, u, |p.net.EdgesFrom(p.agents[u])|)
  {}

  lemma AllEdgesDone(p: Problem, start: seq<Dist>, d: seq<Dist>)
    requires |d| == |start| == |p.agents|
    requires forall u :: 0 <= u < |p.agents| ==> EdgesDone(p, start, d, u, |p.net.EdgesFrom(p.agents[u])|)
    ensures forall u: nat, v: nat :: p.Subgraph().Arc(u, v) ==> Relaxed(p.Subgraph(), start, d, u, v)
  {}

  /** The edge at position `e` of agent `u`, seen as an arc of the subgraph. */
  lemma EdgeIsArc(p: Problem, u: nat, e: nat, v: nat)
    requires p.Valid() && u < |p.agents| && v < |p.agents|
    requires e < |p.net.EdgesFrom(p.agents[u])| && p.net.EdgesFrom(p.agents[u])[e].to == p.agents[v]
    requires p.net.CapabilityAt(p.agents[v], p.task).Some?
    ensures p.HasArc(u, v)
    ensures p.Subgraph().Arc(u, v)
    ensures p.Subgraph().Weight(u, v) ==
            ScalarEdgeCost(p.model, p.net.CapabilityAt(p.agents[v], p.task).value,
                           p.net.EdgesFrom(p.agents[u])[e].transferLatency, p.weights)
  {
    FindEdgeAt(p.net.EdgesFrom(p.agents[u]), e);
  }

  /** One edge of the inner loop: relaxed if it leads to a capable agent, skipped otherwise. */
  method VisitEdge(p: Problem, globalToLocal: map<nat, nat>, dist: array<Dist>, pred: array<Option<nat>>,
                   u: nat, e: nat, ghost s: nat, ghost start: seq<Dist>)
    returns (changed: bool)
    requires p.Valid() && u < |p.agents| && e < |p.net.EdgesFrom(p.agents[u])|
    requires forall a :: a in globalToLocal <==> a in p.agents
    requires forall i :: 0 <= i < |p.agents| ==> globalToLocal[p.agents[i]] == i
    requires dist.Length == pred.Length == |p.agents| && RunInv(p.Subgraph(), s, dist[..], pred[..])
    requires dist[u].Finite? && Leq(dist[..], start)
    modifies dist, pred
    ensures RunInv(p.Subgraph(), s, dist[..], pred[..]) && dist[u].Finite?
    ensures Leq(dist[..], old(dist[..])) && Leq(dist[..], start)
    ensures forall v: nat :: p.HasArc(u, v) && p.agents[v] == p.net.EdgesFrom(p.agents[u])[e].to ==>
                               Relaxed(p.Subgraph(), start, dist[..], u, v)
    ensures !changed ==> dist[..] == old(dist[..]) && pred[..] == old(pred[..])
  {
    hide RunInv, Relaxed, Leq;
    var edge := p.net.EdgesFrom(p.agents[u])[e];
    if edge.to in globalToLocal && p.net.CapabilityAt(edge.to, p.task).Some? {
      var v := globalToLocal[edge.to];
      var cap := p.net.CapabilityAt(edge.to, p.task).value;
      EdgeIsArc(p, u, e, v);
      changed := RelaxEdge(p.Subgraph(), dist, pred, u, v,
                           ScalarEdgeCost(p.model, cap, edge.transferLatency, p.weights), s, start);
    } else {
      LeqReflexive(dist[..]);
      changed := false;
    }
  }

  /** Relax every edge out of one agent against its current distance. */
  method RelaxEdges(p: Problem, globalToLocal: map<nat, nat>, dist: array<Dist>, pred: array<Option<nat>>,
                    u: nat, ghost s: nat, ghost start: seq<Dist>)
    returns (updated: bool)
    requires p.Valid() && u < |p.agents|
    requires forall a :: a in globalToLocal <==> a in p.agents
    requires forall i :: 0 <= i < |p.agents| ==> globalToLocal[p.agents[i]] == i
    requires dist.Length == pred.Length == |p.agents| && RunInv(p.Subgraph(), s, dist[..], pred[..])
    requires dist[u].Finite? && Leq(dist[..], start)
    modifies dist, pred
    ensures RunInv(p.Subgraph(), s, dist[..], pred[..])
    ensures Leq(dist[..], old(dist[..])) && Leq(dist[..], start)
    ensures EdgesDone(p, start, dist[..], u, |p.net.EdgesFrom(p.agents[u])|)
    ensures !updated ==> dist[..] == old(dist[..]) && pred[..] == old(pred[..])
  {
    hide RunInv, Relaxed;
    updated := false;
    var edges := p.net.EdgesFrom(p.agents[u]);
    assert EdgesDone(p, start, dist[..], u, 0) by { ArcsAreAhead(p, start, dist[..], u); }
    LeqReflexive(dist[..]);
    hide EdgesDone, Leq;
    for e := 0 to |edges|
      invariant RunInv(p.Subgraph(), s, dist[..], pred[..]) && dist[u].Finite?
      invariant Leq(dist[..], old(dist[..])) && Leq(dist[..], start)
      invariant EdgesDone(p, start, dist[..], u, e)
      invariant !updated ==> dist[..] == old(dist[..]) && pred[..] == old(pred[..])
    {
      ghost var before := dist[..];
      var changed := VisitEdge(p, globalToLocal, dist, pred, u, e, s, start);
      updated := updated || changed;
      LeqTransitive(dist[..], before, old(dist[..]));
      EdgesDoneStep(p, start, before, dist[..], u, e);
    }
  }

  /** One pass of the outer loop over all agents that already have a finite distance. */
  method RelaxPass(p: Problem, globalToLocal: map<nat, nat>, dist: array<Dist>, pred: array<Option<nat>>,
                   ghost s: nat, ghost hops: nat)
    returns (updated: bool)
    requires p.Valid()
    requires forall a :: a in globalToLocal <==> a in p.agents
    requires forall i :: 0 <= i < |p.agents| ==> globalToLocal[p.agents[i]] == i
    requires dist.Length == pred.Length == |p.agents| && RunInv(p.Subgraph(), s, dist[..], pred[..])
    requires CoversWalks(p.Subgraph(), s, dist[..], hops)
    modifies dist, pred
    ensures RunInv(p.Subgraph(), s, dist[..], pred[..])
    ensures CoversWalks(p.Subgraph(), s, dist[..], hops + 1)
    ensures !updated ==> AllCovered(p.Subgraph(), s, dist[..])
  {
    hide RunInv, CoversWalks, AllCovered, EdgesDone, Leq;
    updated := false;
    ghost var g, start := p.Subgraph(), dist[..];
    LeqReflexive(start);
    for u := 0 to |p.agents|
      invariant RunInv(g, s, dist[..], pred[..]) && Leq(dist[..], start)
      invariant forall w :: 0 <= w < u ==> EdgesDone(p, start, dist[..], w, |p.net.EdgesFrom(p.agents[w])|)
      invariant !updated ==> dist[..] == start
    {
      ghost var before := dist[..];
      var uLocal := globalToLocal[p.agents[u]];
      if dist[uLocal].Finite? {
        var changed := RelaxEdges(p, globalToLocal, dist, pred, uLocal, s, start);
        updated := updated || changed;
      } else {
        LeqReflexive(dist[..]);
        UnreachedIsDone(p, start, dist[..], u);
      }
      forall w | 0 <= w < u ensures EdgesDone(p, start, dist[..], w, |p.net.EdgesFrom(p.agents[w])|) {
        EdgesDoneStays(p, start, before, dist[..], w, |p.net.EdgesFrom(p.agents[w])|);
      }
    }
    assert forall u: nat, v: nat :: g.Arc(u, v) ==> Relaxed(g, start, dist[..], u, v) by {
      AllEdgesDone(p, start, dist[..]);
    }
    PassCovers(g, s, start, dist[..], hops);
    if !updated {
      CoversFewer(g, s, start, hops);
      StableCoversAll(g, s, start);
    }
  }

  /** All passes: the arrays at the point where the loop stops. */
  method ShortestDistances(p: Problem, globalToLocal: map<nat, nat>, s: nat)
    returns (dist: array<Dist>, pred: array<Option<nat>>)
    requires p.Valid() && s < |p.agents|
    requires forall a :: a in globalToLocal <==> a in p.agents
    requires forall i :: 0 <= i < |p.agents| ==> globalToLocal[p.agents[i]] == i
    ensures dist.Length == pred.Length == |p.agents| && RunInv(p.Subgraph(), s, dist[..], pred[..])
    ensures ExactDistances(p.Subgraph(), s, dist[..]) <==> NoNegativeCycle(p.Subgraph(), s)
    ensures forall v :: 0 <= v < |p.agents| ==> (dist[v].Finite? <==> Reachable(p.Subgraph(), s, v))
  {
    hide RunInv, CoversWalks, AllCovered, ExactDistances, NoNegativeCycle, Reachable;
    var k := |p.agents|;
    ghost var g := p.Subgraph();
    dist := new Dist[k](_ => Infinite);
    pred := new Option<nat>[k](_ => None);
    dist[s] := Finite(0.0);
    InitialRun(g, s, dist[..], pred[..]);
    for pass := 0 to k - 1
      invariant fresh(dist) && fresh(pred)
      invariant RunInv(g, s, dist[..], pred[..]) && CoversWalks(g, s, dist[..], pass)
    {
      var updated := RelaxPass(p, globalToLocal, dist, pred, s, pass);
      if !updated {
        StoppedRun(g, s, dist[..], pred[..]);
        return;
      }
    }
    StoppedRun(g, s, dist[..], pred[..]);
  }

  /** The first agent other than the source whose distance is least, if any is finite. */
  method BestDestination(d: seq<Dist>, s: nat) returns (best: Option<nat>)
    ensures best.None? <==> forall v :: 0 <= v < |d| && v != s ==> d[v].Infinite?
    ensures best.Some? ==>
              && best.value < |d| && best.value != s && d[best.value].Finite?
              && (forall v :: 0 <= v < |d| && v != s && d[v].Finite? ==> d[best.value].value <= d[v].value)
              && (forall v :: 0 <= v < best.value && v != s && d[v].Finite? ==> d[best.value].value < d[v].value)
  {
    best := None;
    for local := 0 to |d|
      invariant best.None? <==> forall v :: 0 <= v < local && v != s ==> d[v].Infinite?
      invariant best.Some? ==>
                  && best.value < local && best.value != s && d[best.value].Finite?
                  && (forall v :: 0 <= v < local && v != s && d[v].Finite? ==> d[best.value].value <= d[v].value)
                  && (forall v :: 0 <= v < best.value && v != s && d[v].Finite? ==> d[best.value].value < d[v].value)
    {
      if local != s && d[local].Finite? && (best.None? || d[local].value < d[best.value].value) {
        best := Some(local);
      }
    }
  }

  /** `back` lists the vertices of a walk that ends in `dest`, last vertex first. */
  ghost predicate LinksBack(d: seq<Dist>, pred: seq<Option<nat>>, s: nat, dest: nat, back: seq<nat>) {
    && |d| == |pred| && |back| > 0 && back[0] == dest
    && (forall i :: 0 <= i < |back| ==> back[i] < |d| && d[back[i]].Finite? && back[i] != s)
    && (forall i :: 0 <= i < |back| - 1 ==> pred[back[i]] == Some(back[i + 1]))
  }

  /** Following links backwards retraces any predecessor chain. */
  lemma {:induction false} BackwardsIsChain(d: seq<Dist>, pred: seq<Option<nat>>, s: nat, dest: nat, back: seq<nat>,
                                            chain: seq<nat>)
    requires LinksBack(d, pred, s, dest, back) && Chain(pred, chain, s, dest)
    ensures |back| < |chain|
    ensures forall i :: 0 <= i < |back| ==> back[i] == chain[|chain| - 1 - i]
  {
    if |back| > 1 {
      var front := back[..|back| - 1];
      BackwardsIsChain(d, pred, s, dest, front, chain);
      var m := |chain| - 1 - (|back| - 2);
      assert back[|back| - 2] == front[|back| - 2] == chain[m];
      assert pred[back[|back| - 2]] == Some(back[|back| - 2 + 1]);
      assert pred[chain[m]] == Some(chain[m - 1]);
    }
  }

  /** A backwards list that has reached the source spells out a real walk from it. */
  lemma BackwardsIsWalk(g: Digraph, d: seq<Dist>, pred: seq<Option<nat>>, s: nat, dest: nat, back: seq<nat>)
    requires LinksHold(g, d, pred) && LinksBack(d, pred, s, dest, back) && s < g.n
    requires pred[back[|back| - 1]] == Some(s)
    ensures WalkBetween(g, Reversed(back + [s]), s, dest)
  {}

  lemma BackLink(d: seq<Dist>, pred: seq<Option<nat>>, s: nat, dest: nat, back: seq<nat>, i: nat)
    requires LinksBack(d, pred, s, dest, back) && i < |back| - 1
    ensures pred[back[i]] == Some(back[i + 1]) && back[i + 1] != s
  {}

  /** A backwards list that has reached the source repeats no vertex: its links would run on for ever. */
  lemma {:induction false} BackDistinct(d: seq<Dist>, pred: seq<Option<nat>>, s: nat, dest: nat, back: seq<nat>,
                                        i: nat, j: nat)
    requires LinksBack(d, pred, s, dest, back) && pred[back[|back| - 1]] == Some(s) && i < j < |back|
    ensures back[i] != back[j]
    decreases |back| - j
  {
    BackLink(d, pred, s, dest, back, i);
    if j < |back| - 1 {
      BackLink(d, pred, s, dest, back, j);
      BackDistinct(d, pred, s, dest, back, i + 1, j + 1);
    }
  }

  lemma BackwardsIsSimple(d: seq<Dist>, pred: seq<Option<nat>>, s: nat, dest: nat, back: seq<nat>)
    requires LinksBack(d, pred, s, dest, back) && pred[back[|back| - 1]] == Some(s)
    ensures Distinct(Reversed(back + [s]))
  {
    var full := back + [s];
    forall i, j | 0 <= i < j < |full| ensures full[i] != full[j] {
      if j < |back| { BackDistinct(d, pred, s, dest, back, i, j); }
    }
  }

  /**
   * Path reconstruction. Whatever it returns is a simple real walk from the source to `dest`, whatever the
   * costs. When the distances are exact it always succeeds, and the walk costs exactly `d[dest]`.
   */
  method ReconstructPath(ghost g: Digraph, d: seq<Dist>, pred: seq<Option<nat>>, s: nat, dest: nat)
    returns (path: Option<seq<nat>>)
    requires RunInv(g, s, d, pred) && dest < g.n && dest != s && d[dest].Finite?
    ensures path.Some? ==> WalkBetween(g, path.value, s, dest) && Distinct(path.value)
    ensures ExactDistances(g, s, d) ==> path.Some? && WalkCost(g, path.value) == d[dest].value
  {
    hide NoNegativeCycle, Reachable, LinksHold, Sound, ExactDistances, Distinct, WalkCost, IsWalk;
    var back, current := [dest], dest;
    ghost var chain: seq<nat> := [];
    if ExactDistances(g, s, d) {
      ExactOnlyWithoutNegativeCycle(g, s, d);
      assert HasChain(pred, s, dest);
      chain :| Chain(pred, chain, s, dest);
      TreePathIsShortest(g, s, d, pred, chain, dest);
    }
    var reached := false;
    while pred[current].Some?
      invariant !reached && LinksBack(d, pred, s, dest, back) && current == back[|back| - 1]
      invariant |back| <= g.n
      decreases g.n - |back|
    {
      var previous := pred[current].value;
      assert LinkHolds(g, d, previous, current) by { LinkAt(g, d, pred, current); }
      if previous == s {
        reached := true;
        break;
      }
      back, current := back + [previous], previous;
      if ExactDistances(g, s, d) { BackwardsIsChain(d, pred, s, dest, back, chain); }
      if |back| > |d| { return None; }
    }
    // The original code patches a list that never met vertex `s`; such a list cannot arise.
    assert reached;
    BackwardsIsWalk(g, d, pred, s, dest, back);
    BackwardsIsSimple(d, pred, s, dest, back);
    path := Some(Reversed(back + [s]));
    if ExactDistances(g, s, d) {
      BackwardsIsChain(d, pred, s, dest, back, chain);
      var m := |chain| - |back|;
      assert chain[m] == current && pred[chain[m]] == Some(chain[m - 1]);
      RootOnlyAtStart(pred, chain, s, dest);
      assert path.value == chain;
    }
  }

  /** No walk from `s` to any other vertex is cheaper than `cost`. */
  ghost predicate CheapestAway(g: Digraph, s: nat, cost: real) {
    forall v: nat :: v != s ==> LowerBound(g, s, v, cost)
  }

  /**
   * A simple real walk from local index `s` to another agent that costs `cost`, and no walk to any other
   * agent costs less.
   */
  ghost predicate BestLocalRoute(g: Digraph, s: nat, local: seq<nat>, cost: real) {
    && |local| >= 2 && WalkBetween(g, local, s, Last(local)) && Distinct(local)
    && WalkCost(g, local) == cost && CheapestAway(g, s, cost)
  }

  /** A simple walk of the capability subgraph. */
  ghost predicate SimpleWalk(g: Digraph, local: seq<nat>) {
    IsWalk(g, local) && Distinct(local)
  }

  /** `path` names the agents of a simple walk of the capability subgraph, starting at agent `source`. */
  ghost predicate RealRoute(p: Problem, source: nat, path: seq<nat>) {
    exists local ::
      SimpleWalk(p.Subgraph(), local) && path == Globals(p.agents, local) && |path| >= 2 && path[0] == source
  }

  ghost predicate BestRoute(p: Problem, s: nat, path: seq<nat>, cost: real) {
    exists local :: BestLocalRoute(p.Subgraph(), s, local, cost) && path == Globals(p.agents, local)
  }

  ghost predicate SomeoneReachable(g: Digraph, s: nat) {
    exists v: nat :: v != s && Reachable(g, s, v)
  }

  /** The cost of a walk is what entering its agents after the first one costs. */
  lemma {:induction false} WalkCostIsEntered(p: Problem, local: seq<nat>)
    requires IsWalk(p.Subgraph(), local)
    ensures var path := Globals(p.agents, local);
            && Enterable(p.net, path, p.task)
            && WalkCost(p.Subgraph(), local) == EnteredCost(p.net, path, p.task, p.weights, p.model)
    decreases |local|
  {
    var path := Globals(p.agents, local);
    WalkEnters(p, local);
    hide EnteredCost, Enterable, Problem.Subgraph, WalkCost;
    if |local| == 1 {
      EnteredNothing(p.net, path, p.task, p.weights, p.model);
      assert WalkCost(p.Subgraph(), local) == 0.0 by { WalkStands(p.Subgraph(), local); }
    } else {
      var front := local[..|local| - 1];
      WalkEnds(p.Subgraph(), local);
      WalkCostIsEntered(p, front);
      OneMoreArc(p, local);
    }
  }

  /** One more arc adds to the price of entering what it adds to the walk. */
  lemma OneMoreArc(p: Problem, local: seq<nat>)
    requires |local| >= 2 && forall i :: 0 <= i < |local| ==> local[i] < |p.agents|
    requires p.Subgraph().Arc(local[|local| - 2], local[|local| - 1])
    requires Enterable(p.net, Globals(p.agents, local), p.task)
    requires Enterable(p.net, Globals(p.agents, local[..|local| - 1]), p.task)
    ensures EnteredCost(p.net, Globals(p.agents, local), p.task, p.weights, p.model) ==
            EnteredCost(p.net, Globals(p.agents, local[..|local| - 1]), p.task, p.weights, p.model)
            + p.Subgraph().Weight(local[|local| - 2], local[|local| - 1])
  {
    hide EnteredCost, Enterable, Problem.Subgraph, ScalarEdgeCost, Network.TransferOrDefault, Network.CapabilityAt;
    var path := Globals(p.agents, local);
    ArcPrice(p, local[|local| - 2], local[|local| - 1]);
    assert Globals(p.agents, local[..|local| - 1]) == path[..|path| - 1];
    EnteredOneMore(p.net, path, p.task, p.weights, p.model);
  }

  /** An arc costs what its head charges, with the latency of the link. */
  lemma ArcPrice(p: Problem, i: nat, j: nat)
    requires p.Subgraph().Arc(i, j)
    ensures i < |p.agents| && j < |p.agents| && p.net.CapabilityAt(p.agents[j], p.task).Some?
    ensures p.Subgraph().Weight(i, j) ==
            ScalarEdgeCost(p.model, p.net.CapabilityAt(p.agents[j], p.task).value,
                           p.net.TransferOrDefault(p.agents[i], p.agents[j]), p.weights)
  {
    hide ScalarEdgeCost, Problem.Subgraph, Network.CapabilityAt, Network.TransferLatency;
    assert p.HasArc(i, j);
  }

  lemma WalkEnters(p: Problem, local: seq<nat>)
    requires IsWalk(p.Subgraph(), local)
    ensures Enterable(p.net, Globals(p.agents, local), p.task)
  {
    var path := Globals(p.agents, local);
    forall i | 0 < i < |path| ensures p.net.CapabilityAt(path[i], p.task).Some? {
      assert p.Subgraph().Arc(local[i - 1], local[i - 1 + 1]);
      assert p.HasArc(local[i - 1], local[i]);
    }
  }

  /** The reported cost is what entering the route's agents after the source costs. */
  ghost predicate ReportsCost(p: Problem, path: seq<nat>, cost: real) {
    Enterable(p.net, path, p.task) && cost == EnteredCost(p.net, path, p.task, p.weights, p.model)
  }

  lemma BestReportsCost(p: Problem, s: nat, path: seq<nat>, cost: real)
    requires BestRoute(p, s, path, cost)
    ensures ReportsCost(p, path, cost)
  {
    hide EnteredCost, CheapestAway, Distinct;
    var local :| BestLocalRoute(p.Subgraph(), s, local, cost) && path == Globals(p.agents, local);
    WalkCostIsEntered(p, local);
  }

  /** What a run from local index `s` delivers. */
  ghost predicate RunDelivers(p: Problem, s: nat, r: Option<(seq<nat>, real)>)
    requires s < |p.agents|
  {
    && (r.Some? ==> RealRoute(p, p.agents[s], r.value.0))
    && (NoNegativeCycle(p.Subgraph(), s) ==>
          && (r.Some? <==> SomeoneReachable(p.Subgraph(), s))
          && (r.Some? ==> BestRoute(p, s, r.value.0, r.value.1) && ReportsCost(p, r.value.0, r.value.1)))
  }

  /**
   * The single-source run. It always returns simple real routes; with no reachable negative cycle it finds a
   * route exactly when some other agent is reachable, the route is a cheapest one, and its cost is what entering
   * its agents costs.
   */
  method BellmanFordSingle(p: Problem, source: nat) returns (r: Option<(seq<nat>, real)>)
    requires p.Valid()
    ensures source !in p.agents ==> r.None?
    ensures forall s :: 0 <= s < |p.agents| && p.agents[s] == source ==> RunDelivers(p, s, r)
  {
    hide RunDelivers;
    if |p.agents| == 0 { return None; }
    var globalToLocal := LocalIndices(p.agents);
    if source !in globalToLocal { return None; }
    r := RunFrom(p, globalToLocal, globalToLocal[source]);
  }

  method RunFrom(p: Problem, globalToLocal: map<nat, nat>, s: nat) returns (r: Option<(seq<nat>, real)>)
    requires p.Valid() && s < |p.agents|
    requires forall a :: a in globalToLocal <==> a in p.agents
    requires forall i :: 0 <= i < |p.agents| ==> globalToLocal[p.agents[i]] == i
    ensures RunDelivers(p, s, r)
  {
    hide NoNegativeCycle, RunInv, ExactDistances, Reachable, RunDelivers;
    var dist, pred := ShortestDistances(p, globalToLocal, s);
    r := ReadRoute(p, s, dist[..], pred[..]);
  }

  /** From final distances to the returned route. */
  method ReadRoute(p: Problem, s: nat, d: seq<Dist>, pred: seq<Option<nat>>) returns (r: Option<(seq<nat>, real)>)
    requires s < |p.agents| && |d| == |p.agents|
    requires RunInv(p.Subgraph(), s, d, pred)
    requires ExactDistances(p.Subgraph(), s, d) <==> NoNegativeCycle(p.Subgraph(), s)
    requires forall v :: 0 <= v < |d| ==> (d[v].Finite? <==> Reachable(p.Subgraph(), s, v))
    ensures RunDelivers(p, s, r)
  {
    ghost var g := p.Subgraph();
    hide NoNegativeCycle, RunInv, ExactDistances, Reachable, SomeoneReachable, BestRoute, RealRoute, CheapestAway,
         Distinct, WalkBetween, WalkCost, ReportsCost;
    var best := BestDestination(d, s);
    if best.None? {
      NobodyReachable(g, s, d);
      return None;
    }
    SomebodyReachable(g, s, best.value);
    var local := ReconstructPath(g, d, pred, s, best.value);
    if local.None? { return None; }
    LocalInRange(g, s, best.value, local.value);
    r := Some((Globals(p.agents, local.value), d[best.value].value));
    LocalIsReal(p, s, best.value, local.value);
    if NoNegativeCycle(g, s) {
      CheapestIsBest(g, s, d, best.value);
      LocalIsBest(p, s, best.value, local.value, d[best.value].value);
      BestReportsCost(p, s, r.value.0, r.value.1);
    }
  }

  lemma NobodyReachable(g: Digraph, s: nat, d: seq<Dist>)
    requires |d| == g.n
    requires forall v :: 0 <= v < |d| ==> (d[v].Finite? <==> Reachable(g, s, v))
    requires forall v :: 0 <= v < |d| && v != s ==> d[v].Infinite?
    ensures !SomeoneReachable(g, s)
  {}

  lemma SomebodyReachable(g: Digraph, s: nat, v: nat)
    requires v != s && Reachable(g, s, v)
    ensures SomeoneReachable(g, s)
  {}

  lemma LocalInRange(g: Digraph, s: nat, v: nat, local: seq<nat>)
    requires WalkBetween(g, local, s, v)
    ensures forall i :: 0 <= i < |local| ==> local[i] < g.n
    ensures IsWalk(g, local)
  {}

  lemma LocalIsReal(p: Problem, s: nat, v: nat, local: seq<nat>)
    requires WalkBetween(p.Subgraph(), local, s, v) && v != s && Distinct(local)
    ensures RealRoute(p, p.agents[s], Globals(p.agents, local))
  {}

  lemma LocalIsBest(p: Problem, s: nat, v: nat, local: seq<nat>, cost: real)
    requires WalkBetween(p.Subgraph(), local, s, v) && v != s && Distinct(local)
    requires WalkCost(p.Subgraph(), local) == cost && CheapestAway(p.Subgraph(), s, cost)
    ensures BestRoute(p, s, Globals(p.agents, local), cost)
  {
    assert BestLocalRoute(p.Subgraph(), s, local, cost);
  }

  lemma CheapestIsBest(g: Digraph, s: nat, d: seq<Dist>, dest: nat)
    requires ExactDistances(g, s, d) && dest < g.n && d[dest].Finite?
    requires forall v :: 0 <= v < g.n && v != s && d[v].Finite? ==> d[dest].value <= d[v].value
    ensures CheapestAway(g, s, d[dest].value)
  {
    forall v: nat, w | v != s && WalkBetween(g, w, s, v) ensures d[dest].value <= WalkCost(g, w) {
      assert Reachable(g, s, v);
      assert ShortestDistance(g, s, v, d[v].value);
    }
  }
}
