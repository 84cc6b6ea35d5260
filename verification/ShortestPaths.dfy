/**
 * Weighted directed graphs, walks and the invariants of edge relaxation.
 * Nothing here mentions agents: this is the mathematics the Bellman-Ford run
 * is measured against.
 */
module ShortestPaths {
  import opened Prelude

  /** A graph on the vertices 0..n-1 with at most one weighted arc per ordered pair. */
  datatype Digraph = Digraph(n: nat, arcs: (nat, nat) -> Option<real>) {
    predicate Arc(u: nat, v: nat) {
      u < n && v < n && arcs(u, v).Some?
    }

    function Weight(u: nat, v: nat): real
      requires Arc(u, v)
    {
      arcs(u, v).value
    }
  }

  /** The original's `f64::INFINITY` or a finite distance. */
  datatype Dist = Infinite | Finite(value: real)

  // ---------------------------------------------------------------- walks

  ghost predicate IsWalk(g: Digraph, p: seq<nat>) {
    && |p| > 0
    && (forall i :: 0 <= i < |p| ==> p[i] < g.n)
    && (forall i :: 0 <= i < |p| - 1 ==> g.Arc(p[i], p[i + 1]))
  }

  ghost function Last(p: seq<nat>): nat
    requires |p| > 0
  {
    p[|p| - 1]
  }

  ghost predicate WalkBetween(g: Digraph, p: seq<nat>, a: nat, b: nat) {
    IsWalk(g, p) && p[0] == a && Last(p) == b
  }

  ghost function WalkCost(g: Digraph, p: seq<nat>): real
    requires IsWalk(g, p)
  {
    if |p| == 1 then 0.0
    else WalkCost(g, p[..|p| - 1]) + g.Weight(p[|p| - 2], p[|p| - 1])
  }

  ghost predicate Reachable(g: Digraph, a: nat, b: nat) {
    exists p :: WalkBetween(g, p, a, b)
  }

  /** `c` is the cost of some walk from `a` to `b`. */
  ghost predicate Achieved(g: Digraph, a: nat, b: nat, c: real) {
    exists p :: WalkBetween(g, p, a, b) && WalkCost(g, p) == c
  }

  /** No walk from `a` to `b` costs less than `c`. */
  ghost predicate LowerBound(g: Digraph, a: nat, b: nat, c: real) {
    forall p :: WalkBetween(g, p, a, b) ==> c <= WalkCost(g, p)
  }

  ghost predicate ShortestDistance(g: Digraph, a: nat, b: nat, c: real) {
    Achieved(g, a, b, c) && LowerBound(g, a, b, c)
  }

  /** Every closed walk that starts at a vertex reachable from `s` costs at least zero. */
  ghost predicate NoNegativeCycle(g: Digraph, s: nat) {
    forall c :: IsWalk(g, c) && c[0] == Last(c) && Reachable(g, s, c[0]) ==> 0.0 <= WalkCost(g, c)
  }

  ghost predicate NonNegativeArcs(g: Digraph) {
    forall u, v :: g.Arc(u, v) ==> 0.0 <= g.Weight(u, v)
  }

  lemma {:induction false} NonNegativeWalk(g: Digraph, p: seq<nat>)
    requires NonNegativeArcs(g) && IsWalk(g, p)
    ensures 0.0 <= WalkCost(g, p)
  {
    if |p| > 1 {
      NonNegativeWalk(g, p[..|p| - 1]);
      assert g.Arc(p[|p| - 2], p[|p| - 2 + 1]);
    }
  }

  /** Non-negative arcs are one way to have no negative cycle. */
  lemma NonNegativeArcsSuffice(g: Digraph, s: nat)
    requires NonNegativeArcs(g)
    ensures NoNegativeCycle(g, s)
  {
    forall c | IsWalk(g, c) && c[0] == Last(c) && Reachable(g, s, c[0]) ensures 0.0 <= WalkCost(g, c) {
      NonNegativeWalk(g, c);
    }
  }

  lemma SliceIsWalk(g: Digraph, p: seq<nat>, i: nat, j: nat)
    requires IsWalk(g, p) && i < j <= |p|
    ensures IsWalk(g, p[i..j])
  {}

  lemma WalkStands(g: Digraph, p: seq<nat>)
    requires IsWalk(g, p) && |p| == 1
    ensures WalkCost(g, p) == 0.0
  {}

  /** A walk is its front and its last arc. */
  lemma WalkEnds(g: Digraph, p: seq<nat>)
    requires IsWalk(g, p) && |p| >= 2
    ensures IsWalk(g, p[..|p| - 1]) && g.Arc(p[|p| - 2], p[|p| - 1])
    ensures WalkCost(g, p) == WalkCost(g, p[..|p| - 1]) + g.Weight(p[|p| - 2], p[|p| - 1])
  {
    SliceIsWalk(g, p, 0, |p| - 1);
    assert p[..|p| - 1] == p[0..|p| - 1];
    assert g.Arc(p[|p| - 2], p[|p| - 2 + 1]);
  }

  lemma ExtendWalk(g: Digraph, p: seq<nat>, v: nat)
    requires IsWalk(g, p) && g.Arc(Last(p), v)
    ensures IsWalk(g, p + [v]) && WalkCost(g, p + [v]) == WalkCost(g, p) + g.Weight(Last(p), v)
  {}

  /** Walks that meet can be joined; the costs add up. */
  lemma {:induction false} JoinWalks(g: Digraph, p: seq<nat>, q: seq<nat>)
    requires IsWalk(g, p) && IsWalk(g, q) && Last(p) == q[0]
    ensures IsWalk(g, p + q[1..]) && Last(p + q[1..]) == Last(q)
    ensures WalkCost(g, p + q[1..]) == WalkCost(g, p) + WalkCost(g, q)
    decreases |q|
  {
    if |q| == 1 {
      assert p + q[1..] == p;
    } else {
      var front := q[..|q| - 1];
      SliceIsWalk(g, q, 0, |q| - 1);
      JoinWalks(g, p, front);
      assert g.Arc(q[|q| - 2], q[|q| - 2 + 1]);
      ExtendWalk(g, p + front[1..], Last(q));
      assert p + q[1..] == (p + front[1..]) + [Last(q)];
    }
  }

  lemma SplitCost(g: Digraph, p: seq<nat>, i: nat)
    requires IsWalk(g, p) && i < |p|
    ensures IsWalk(g, p[..i + 1]) && IsWalk(g, p[i..])
    ensures WalkCost(g, p) == WalkCost(g, p[..i + 1]) + WalkCost(g, p[i..])
  {
    hide WalkCost;
    SliceIsWalk(g, p, 0, i + 1);
    SliceIsWalk(g, p, i, |p|);
    JoinWalks(g, p[..i + 1], p[i..]);
    assert p[..i + 1] + p[i..][1..] == p;
  }

  /** Cutting a repeated vertex out of a walk leaves a shorter walk with the same ends. */
  lemma CutCycle(g: Digraph, p: seq<nat>, i: nat, j: nat) returns (q: seq<nat>, c: seq<nat>)
    requires IsWalk(g, p) && i < j < |p| && p[i] == p[j]
    ensures WalkBetween(g, q, p[0], Last(p)) && |q| < |p|
    ensures WalkBetween(g, c, p[i], p[i]) && Reachable(g, p[0], p[i])
    ensures WalkCost(g, p) == WalkCost(g, q) + WalkCost(g, c)
  {
    hide WalkCost;
    SplitCost(g, p, i);
    var tail := p[i..];
    SplitCost(g, tail, j - i);
    c := tail[..j - i + 1];
    var rest := tail[j - i..];
    JoinWalks(g, p[..i + 1], rest);
    q := p[..i + 1] + rest[1..];
    assert WalkBetween(g, p[..i + 1], p[0], p[i]);
  }

  /**
   * Every walk has a companion with the same ends and at most `n` vertices, no dearer when there are no
   * negative cycles.
   */
  lemma {:induction false} ShortenWalk(g: Digraph, p: seq<nat>) returns (q: seq<nat>)
    requires IsWalk(g, p)
    ensures WalkBetween(g, q, p[0], Last(p)) && |q| <= g.n
    ensures NoNegativeCycle(g, p[0]) ==> WalkCost(g, q) <= WalkCost(g, p)
    decreases |p|
  {
    if |p| <= g.n {
      q := p;
    } else {
      PigeonHole(p, g.n);
      var i, j :| 0 <= i < j < |p| && p[i] == p[j];
      var shorter, c := CutCycle(g, p, i, j);
      q := ShortenWalk(g, shorter);
    }
  }

  // ------------------------------------------------- what a run must deliver

  /** Distances are exact and infinite exactly on the unreachable vertices. */
  ghost predicate ExactDistances(g: Digraph, s: nat, d: seq<Dist>) {
    && |d| == g.n
    && forall v :: 0 <= v < g.n ==>
                     match d[v]
                     case Infinite => !Reachable(g, s, v)
                     case Finite(c) => ShortestDistance(g, s, v, c)
  }

  /** Distances can only be exact when no negative cycle is reachable. */
  lemma ExactOnlyWithoutNegativeCycle(g: Digraph, s: nat, d: seq<Dist>)
    requires ExactDistances(g, s, d)
    ensures NoNegativeCycle(g, s)
  {
    forall c | IsWalk(g, c) && c[0] == Last(c) && Reachable(g, s, c[0]) ensures 0.0 <= WalkCost(g, c) {
      assert d[c[0]].Finite? && ShortestDistance(g, s, c[0], d[c[0]].value);
      var q :| WalkBetween(g, q, s, c[0]) && WalkCost(g, q) == d[c[0]].value;
      JoinWalks(g, q, c);
      assert WalkBetween(g, q + c[1..], s, c[0]);
    }
  }

  // -------------------------------------------------- invariants of relaxation

  /** Every walk from `s` with at most `hops` arcs is already accounted for. */
  ghost predicate CoversWalks(g: Digraph, s: nat, d: seq<Dist>, hops: nat)
    requires |d| == g.n
  {
    forall p :: IsWalk(g, p) && p[0] == s && |p| <= hops + 1 ==>
                  d[Last(p)].Finite? && d[Last(p)].value <= WalkCost(g, p)
  }

  ghost predicate AllCovered(g: Digraph, s: nat, d: seq<Dist>)
    requires |d| == g.n
  {
    forall p :: IsWalk(g, p) && p[0] == s ==> d[Last(p)].Finite? && d[Last(p)].value <= WalkCost(g, p)
  }

  /** Finite distances are the costs of real walks. */
  ghost predicate Sound(g: Digraph, s: nat, d: seq<Dist>)
    requires |d| == g.n
  {
    forall v :: 0 <= v < g.n && d[v].Finite? ==> Achieved(g, s, v, d[v].value)
  }

  /** A predecessor link is an arc whose relaxation the distances still reflect. */
  ghost predicate LinkHolds(g: Digraph, d: seq<Dist>, u: nat, v: nat)
    requires |d| == g.n
  {
    && g.Arc(u, v) && d[u].Finite? && d[v].Finite?
    && d[u].value + g.Weight(u, v) <= d[v].value
  }

  ghost predicate LinksHold(g: Digraph, d: seq<Dist>, pred: seq<Option<nat>>) {
    && |d| == |pred| == g.n
    && forall v :: 0 <= v < g.n && pred[v].Some? ==> LinkHolds(g, d, pred[v].value, v)
  }

  lemma LinkAt(g: Digraph, d: seq<Dist>, pred: seq<Option<nat>>, v: nat)
    requires LinksHold(g, d, pred) && v < g.n && pred[v].Some?
    ensures LinkHolds(g, d, pred[v].value, v)
  {}

  /** `p` runs from `s` to `v` along predecessor links. */
  ghost predicate Chain(pred: seq<Option<nat>>, p: seq<nat>, s: nat, v: nat) {
    && |p| > 0 && p[0] == s && Last(p) == v
    && (forall i :: 0 <= i < |p| ==> p[i] < |pred|)
    && (forall i :: 0 < i < |p| ==> pred[p[i]] == Some(p[i - 1]))
  }

  ghost predicate HasChain(pred: seq<Option<nat>>, s: nat, v: nat) {
    exists p :: Chain(pred, p, s, v)
  }

  /** The predecessor links form a tree rooted at `s` over the finite vertices. */
  ghost predicate Tree(g: Digraph, s: nat, d: seq<Dist>, pred: seq<Option<nat>>) {
    && |d| == |pred| == g.n && s < g.n
    && d[s] == Finite(0.0) && pred[s] == None
    && (forall v :: 0 <= v < g.n && d[v].Finite? ==> HasChain(pred, s, v))
    && (forall v :: 0 <= v < g.n && d[v].Infinite? ==> pred[v] == None)
  }

  /** What holds between any two relaxations, whatever the costs. */
  ghost predicate RunInv(g: Digraph, s: nat, d: seq<Dist>, pred: seq<Option<nat>>) {
    && |d| == |pred| == g.n && s < g.n
    && Sound(g, s, d) && LinksHold(g, d, pred)
    && d[s].Finite? && (forall v :: 0 <= v < g.n && v != s && d[v].Finite? ==> pred[v].Some?)
    && (NoNegativeCycle(g, s) ==> Tree(g, s, d, pred))
  }

  ghost predicate Leq(d: seq<Dist>, e: seq<Dist>) {
    && |d| == |e|
    && forall v :: 0 <= v < |e| && e[v].Finite? ==> d[v].Finite? && d[v].value <= e[v].value
  }

  lemma LeqReflexive(d: seq<Dist>)
    ensures Leq(d, d)
  {}

  lemma LeqTransitive(a: seq<Dist>, b: seq<Dist>, c: seq<Dist>)
    requires Leq(a, b) && Leq(b, c)
    ensures Leq(a, c)
  {}

  /** Arc (u,v) has been relaxed against the distances `start` of the current pass. */
  ghost predicate Relaxed(g: Digraph, start: seq<Dist>, d: seq<Dist>, u: nat, v: nat)
    requires |d| == |start| == g.n && g.Arc(u, v)
  {
    start[u].Finite? ==> d[v].Finite? && d[v].value <= start[u].value + g.Weight(u, v)
  }

  lemma InitialRun(g: Digraph, s: nat, d: seq<Dist>, pred: seq<Option<nat>>)
    requires |d| == |pred| == g.n && s < g.n
    requires forall v :: 0 <= v < g.n ==> d[v] == (if v == s then Finite(0.0) else Infinite) && pred[v] == None
    ensures RunInv(g, s, d, pred) && CoversWalks(g, s, d, 0)
  {
    assert WalkBetween(g, [s], s, s) && WalkCost(g, [s]) == 0.0;
    assert Chain(pred, [s], s, s);
    forall p | IsWalk(g, p) && p[0] == s && |p| <= 1 ensures d[Last(p)].Finite? && d[Last(p)].value <= WalkCost(g, p) {
      assert p == [s];
    }
  }

  /** A predecessor chain is a walk, and distances grow along it by at least its cost. */
  lemma {:induction false} ChainCost(g: Digraph, d: seq<Dist>, pred: seq<Option<nat>>, p: seq<nat>, s: nat, v: nat)
    requires LinksHold(g, d, pred) && Chain(pred, p, s, v)
    ensures WalkBetween(g, p, s, v)
    ensures |p| > 1 ==> d[s].Finite? && d[v].Finite?
    ensures d[s].Finite? ==> d[v].Finite? && d[s].value + WalkCost(g, p) <= d[v].value
    decreases |p|
  {
    if |p| > 1 {
      var u := p[|p| - 2];
      assert pred[p[|p| - 1]] == Some(p[|p| - 1 - 1]);
      assert LinkHolds(g, d, u, v);
      var front := p[..|p| - 1];
      assert Chain(pred, front, s, u);
      ChainCost(g, d, pred, front, s, u);
      ExtendWalk(g, front, v);
      assert p == front + [v];
    } else {
      assert p == [s];
    }
  }

  /** The arc (u,v) would improve `v`. */
  ghost predicate Improves(g: Digraph, d: seq<Dist>, u: nat, v: nat)
    requires |d| == g.n
  {
    && g.Arc(u, v) && d[u].Finite?
    && (d[v].Finite? ==> d[u].value + g.Weight(u, v) < d[v].value)
  }

  /** Improving `v` through `u` never happens when `v` already precedes `u`: that would close a negative cycle. */
  lemma NoChainBack(g: Digraph, s: nat, d: seq<Dist>, pred: seq<Option<nat>>, u: nat, v: nat, p: seq<nat>)
    requires LinksHold(g, d, pred) && NoNegativeCycle(g, s)
    requires Improves(g, d, u, v)
    requires s < g.n && d[s].Finite? && Chain(pred, p, s, u)
    ensures v !in p
  {
    if v in p {
      var i :| 0 <= i < |p| && p[i] == v;
      ChainThroughCycle(g, d, pred, u, v, p, i, s);
    }
  }

  lemma ChainThroughCycle(g: Digraph, d: seq<Dist>, pred: seq<Option<nat>>, u: nat, v: nat, p: seq<nat>, i: nat, s: nat)
    requires LinksHold(g, d, pred) && Improves(g, d, u, v)
    requires s < g.n && d[s].Finite? && Chain(pred, p, s, u) && i < |p| && p[i] == v
    ensures IsWalk(g, p[i..] + [v]) && Reachable(g, s, v)
    ensures WalkCost(g, p[i..] + [v]) < 0.0
  {
    var back := p[i..];
    assert Chain(pred, p[..i + 1], s, v);
    ChainCost(g, d, pred, p[..i + 1], s, v);
    assert Chain(pred, back, v, u);
    ChainCost(g, d, pred, back, v, u);
    ExtendWalk(g, back, v);
  }

  /** Chains from the root visit no vertex twice, because the root has no predecessor. */
  lemma {:induction false} ChainDistinct(pred: seq<Option<nat>>, p: seq<nat>, s: nat, v: nat, i: nat, j: nat)
    requires Chain(pred, p, s, v) && s < |pred| && pred[s] == None
    requires i < j < |p|
    ensures p[i] != p[j]
    decreases i
  {
    if p[i] == p[j] {
      assert pred[p[j]] == Some(p[j - 1]);
      if i > 0 {
        assert pred[p[i]] == Some(p[i - 1]);
        ChainDistinct(pred, p, s, v, i - 1, j - 1);
      }
    }
  }

  lemma RootOnlyAtStart(pred: seq<Option<nat>>, p: seq<nat>, s: nat, v: nat)
    requires Chain(pred, p, s, v) && s < |pred| && pred[s] == None
    ensures forall i :: 0 < i < |p| ==> p[i] != s
  {
    forall i | 0 < i < |p| ensures p[i] != s {
      assert pred[p[i]] == Some(p[i - 1]);
    }
  }

  /** A chain through `v` survives relinking `v` once its part before `v` is replaced by a chain to `u`. */
  lemma SplicedChain(pred: seq<Option<nat>>, s: nat, u: nat, v: nat, x: nat, toU: seq<nat>, toX: seq<nat>, i: nat)
    requires s < |pred| && v < |pred| && pred[s] == None
    requires Chain(pred, toU, s, u) && v !in toU
    requires Chain(pred, toX, s, x) && i < |toX| && toX[i] == v
    ensures Chain(pred[v := Some(u)], toU + toX[i..], s, x)
  {
    var pred', p := pred[v := Some(u)], toU + toX[i..];
    forall k | 0 < k < |p| ensures pred'[p[k]] == Some(p[k - 1]) {
      if k < |toU| {
        assert pred[toU[k]] == Some(toU[k - 1]);
      } else if k > |toU| {
        var m := i + k - |toU|;
        ChainDistinct(pred, toX, s, x, i, m);
        assert pred[toX[m]] == Some(toX[m - 1]);
      }
    }
  }

  /** After relinking `v` to `u` every vertex still hangs from the root. */
  lemma RelinkedChain(g: Digraph, s: nat, d: seq<Dist>, pred: seq<Option<nat>>, u: nat, v: nat, x: nat)
    requires LinksHold(g, d, pred) && Tree(g, s, d, pred) && NoNegativeCycle(g, s)
    requires Improves(g, d, u, v)
    requires x < g.n && (d[x].Finite? || x == v)
    ensures HasChain(pred[v := Some(u)], s, x)
  {
    hide NoNegativeCycle, LinksHold;
    var pred' := pred[v := Some(u)];
    assert HasChain(pred, s, u);
    var toU :| Chain(pred, toU, s, u);
    NoChainBack(g, s, d, pred, u, v, toU);
    if x == v {
      assert Chain(pred', toU + [v], s, v);
    } else {
      assert HasChain(pred, s, x);
      var toX :| Chain(pred, toX, s, x);
      if v in toX {
        var i :| 0 <= i < |toX| && toX[i] == v;
        SplicedChain(pred, s, u, v, x, toU, toX, i);
      } else {
        assert Chain(pred', toX, s, x);
      }
    }
  }

  /** The source is never improved while no negative cycle is reachable. */
  lemma RootStays(g: Digraph, s: nat, d: seq<Dist>, u: nat)
    requires |d| == g.n && Sound(g, s, d) && NoNegativeCycle(g, s)
    requires s < g.n && g.Arc(u, s) && d[u].Finite?
    ensures 0.0 <= d[u].value + g.Weight(u, s)
  {
    assert Achieved(g, s, u, d[u].value);
    var p :| WalkBetween(g, p, s, u) && WalkCost(g, p) == d[u].value;
    ExtendWalk(g, p, s);
    assert WalkBetween(g, [s], s, s);
    assert IsWalk(g, p + [s]) && (p + [s])[0] == Last(p + [s]);
  }

  lemma RelaxSound(g: Digraph, s: nat, d: seq<Dist>, u: nat, v: nat)
    requires |d| == g.n && Sound(g, s, d) && Improves(g, d, u, v)
    ensures Sound(g, s, d[v := Finite(d[u].value + g.Weight(u, v))])
  {
    assert Achieved(g, s, u, d[u].value);
    var p :| WalkBetween(g, p, s, u) && WalkCost(g, p) == d[u].value;
    ExtendWalk(g, p, v);
    assert WalkBetween(g, p + [v], s, v);
  }

  lemma RelaxLinks(g: Digraph, d: seq<Dist>, pred: seq<Option<nat>>, u: nat, v: nat)
    requires LinksHold(g, d, pred) && Improves(g, d, u, v)
    ensures LinksHold(g, d[v := Finite(d[u].value + g.Weight(u, v))], pred[v := Some(u)])
  {}

  lemma RelaxTree(g: Digraph, s: nat, d: seq<Dist>, pred: seq<Option<nat>>, u: nat, v: nat)
    requires LinksHold(g, d, pred) && Tree(g, s, d, pred) && Sound(g, s, d) && NoNegativeCycle(g, s)
    requires Improves(g, d, u, v)
    ensures Tree(g, s, d[v := Finite(d[u].value + g.Weight(u, v))], pred[v := Some(u)])
  {
    hide NoNegativeCycle, LinksHold, Sound, HasChain;
    if v == s { RootStays(g, s, d, u); }
    forall x | 0 <= x < g.n && (d[x].Finite? || x == v) ensures HasChain(pred[v := Some(u)], s, x) {
      RelinkedChain(g, s, d, pred, u, v, x);
    }
  }

  /** One improving relaxation keeps every invariant and lowers only the improved distance. */
  lemma RelaxStep(g: Digraph, s: nat, d: seq<Dist>, pred: seq<Option<nat>>, u: nat, v: nat)
    requires RunInv(g, s, d, pred) && Improves(g, d, u, v)
    ensures RunInv(g, s, d[v := Finite(d[u].value + g.Weight(u, v))], pred[v := Some(u)])
    ensures Leq(d[v := Finite(d[u].value + g.Weight(u, v))], d)
  {
    hide NoNegativeCycle, LinksHold, Sound, Tree;
    RelaxSound(g, s, d, u, v);
    RelaxLinks(g, d, pred, u, v);
    if NoNegativeCycle(g, s) { RelaxTree(g, s, d, pred, u, v); }
  }

  /** A full pass over all arcs covers walks one arc longer. */
  lemma PassCovers(g: Digraph, s: nat, start: seq<Dist>, d: seq<Dist>, hops: nat)
    requires |d| == |start| == g.n && Leq(d, start)
    requires CoversWalks(g, s, start, hops)
    requires forall u, v :: g.Arc(u, v) ==> Relaxed(g, start, d, u, v)
    ensures CoversWalks(g, s, d, hops + 1)
  {
    forall p | IsWalk(g, p) && p[0] == s && |p| <= hops + 2
      ensures d[Last(p)].Finite? && d[Last(p)].value <= WalkCost(g, p)
    {
      if |p| <= hops + 1 {
        assert start[Last(p)].Finite? && start[Last(p)].value <= WalkCost(g, p);
      } else {
        var front := p[..|p| - 1];
        SliceIsWalk(g, p, 0, |p| - 1);
        assert start[Last(front)].Finite? && start[Last(front)].value <= WalkCost(g, front);
        assert g.Arc(p[|p| - 2], p[|p| - 2 + 1]);
        assert Relaxed(g, start, d, Last(front), Last(p));
      }
    }
  }

  /** A pass that changes nothing has covered walks of every length. */
  lemma {:induction false} StableCovers(g: Digraph, s: nat, d: seq<Dist>, hops: nat, more: nat)
    requires |d| == g.n && CoversWalks(g, s, d, hops)
    requires forall u, v :: g.Arc(u, v) ==> Relaxed(g, d, d, u, v)
    ensures CoversWalks(g, s, d, hops + more)
    decreases more
  {
    if more > 0 {
      StableCovers(g, s, d, hops, more - 1);
      PassCovers(g, s, d, d, hops + more - 1);
    }
  }

  lemma StableCoversAll(g: Digraph, s: nat, d: seq<Dist>)
    requires |d| == g.n && CoversWalks(g, s, d, 0)
    requires forall u, v :: g.Arc(u, v) ==> Relaxed(g, d, d, u, v)
    ensures AllCovered(g, s, d)
  {
    forall p | IsWalk(g, p) && p[0] == s ensures d[Last(p)].Finite? && d[Last(p)].value <= WalkCost(g, p) {
      StableCovers(g, s, d, 0, |p|);
    }
  }

  lemma CoversFewer(g: Digraph, s: nat, d: seq<Dist>, hops: nat)
    requires |d| == g.n && CoversWalks(g, s, d, hops)
    ensures CoversWalks(g, s, d, 0)
  {}

  /**
   * The stopping point. Whether the loop stopped because nothing changed or because n-1
   * passes are over, the distances are exact if and only if no negative cycle is reachable;
   * which distances are infinite never depends on the costs.
   */
  lemma StoppedRun(g: Digraph, s: nat, d: seq<Dist>, pred: seq<Option<nat>>)
    requires RunInv(g, s, d, pred)
    requires CoversWalks(g, s, d, g.n - 1) || AllCovered(g, s, d)
    ensures ExactDistances(g, s, d) <==> NoNegativeCycle(g, s)
    ensures forall v :: 0 <= v < g.n ==> (d[v].Finite? <==> Reachable(g, s, v))
  {
    forall v | 0 <= v < g.n ensures d[v].Finite? <==> Reachable(g, s, v) {
      if Reachable(g, s, v) {
        var p :| WalkBetween(g, p, s, v);
        var q := ShortenWalk(g, p);
      }
      if d[v].Finite? { assert Achieved(g, s, v, d[v].value); }
    }
    if NoNegativeCycle(g, s) {
      forall v | 0 <= v < g.n && d[v].Finite? ensures ShortestDistance(g, s, v, d[v].value) {
        forall p | WalkBetween(g, p, s, v) ensures d[v].value <= WalkCost(g, p) {
          var q := ShortenWalk(g, p);
        }
      }
    }
    if ExactDistances(g, s, d) { ExactOnlyWithoutNegativeCycle(g, s, d); }
  }

  /** In the tree of a finished run the chain to `v` is a simple path whose cost is `d[v]`. */
  lemma TreePathIsShortest(g: Digraph, s: nat, d: seq<Dist>, pred: seq<Option<nat>>, p: seq<nat>, v: nat)
    requires RunInv(g, s, d, pred) && ExactDistances(g, s, d)
    requires v < g.n && d[v].Finite? && Chain(pred, p, s, v)
    ensures WalkBetween(g, p, s, v) && Distinct(p) && |p| <= g.n
    ensures WalkCost(g, p) == d[v].value
  {
    ExactOnlyWithoutNegativeCycle(g, s, d);
    ChainCost(g, d, pred, p, s, v);
    assert ShortestDistance(g, s, v, d[v].value);
    forall i, j | 0 <= i < j < |p| ensures p[i] != p[j] {
      ChainDistinct(pred, p, s, v, i, j);
    }
    if |p| > g.n { PigeonHole(p, g.n); }
  }
}
