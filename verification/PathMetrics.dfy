/** The metrics of a path through the graph, as a function of the path alone. */
module PathMetrics {
  import opened Prelude
  import opened Products
  import opened Types
  import opened Cost
  import opened Graph

  /** Every index of the path is a node that can do the task. */
  ghost predicate Qualified(net: Network, path: seq<nat>, task: TaskType) {
    forall i :: 0 <= i < |path| ==> net.CapabilityAt(path[i], task).Some?
  }

  function CapabilitiesAlong(net: Network, path: seq<nat>, task: TaskType): (caps: seq<Capability>)
    requires Qualified(net, path, task)
    ensures |caps| == |path|
  {
    seq(|path|, i requires 0 <= i < |path| => net.CapabilityAt(path[i], task).value)
  }

  /** A missing link counts with the default latency. */
  function TransfersAlong(net: Network, path: seq<nat>): seq<Duration> {
    if |path| <= 1 then []
    else seq(|path| - 1, i requires 0 <= i < |path| - 1 => net.TransferOrDefault(path[i], path[i + 1]))
  }

  function MetricsOf(net: Network, path: seq<nat>, task: TaskType): RouteMetrics
    requires Qualified(net, path, task)
  {
    ComputeRouteMetrics(CapabilitiesAlong(net, path, task), TransfersAlong(net, path))
  }

  // ------------------------------------------------ the price of entering

  /** Every agent after the first can do the task. */
  ghost predicate Enterable(net: Network, path: seq<nat>, task: TaskType) {
    forall i :: 0 < i < |path| ==> net.CapabilityAt(path[i], task).Some?
  }

  /** What a figure counts in units of its reference: at most 2, and 2 for a reference of zero. */
  ghost function Counted(x: real, ref: real): real {
    if ref == 0.0 || (ref > 0.0 && x > 2.0 * ref) || (ref < 0.0 && x < 2.0 * ref) then 2.0 else x / ref
  }

  lemma ShareIsCounted(x: real, ref: real)
    ensures Share(x, ref) == Counted(x, ref)
  {
    ShareCounts(x, ref);
    if ref != 0.0 && Counted(x, ref) == x / ref && Share(x, ref) != 2.0 { QuotientIs(x, ref, Share(x, ref)); }
    if Share(x, ref) == 2.0 && ref != 0.0 && x == Times(ref, 2.0) { QuotientIs(x, ref, 2.0); }
  }

  /** The quality gaps of the agents entered after the first. */
  ghost function EnteredGaps(net: Network, path: seq<nat>, task: TaskType): real
    requires Enterable(net, path, task)
  {
    if |path| <= 1 then 0.0
    else
      var cap := net.CapabilityAt(path[|path| - 1], task).value;
      EnteredGaps(net, path[..|path| - 1], task) + (1.0 - ClampUnit(cap.estimatedQuality))
  }

  /** For every agent entered after the first, its own latency plus that of the link used, in units of `ref`. */
  ghost function EnteredLatency(net: Network, path: seq<nat>, task: TaskType, ref: real): real
    requires Enterable(net, path, task)
  {
    if |path| <= 1 then 0.0
    else
      var last, link := path[|path| - 1], net.TransferOrDefault(path[|path| - 2], path[|path| - 1]);
      EnteredLatency(net, path[..|path| - 1], task, ref)
      + Counted(net.CapabilityAt(last, task).value.estimatedLatency + link, ref)
  }

  /** The prices of the agents entered after the first, in units of `ref`. */
  ghost function EnteredPrices(net: Network, path: seq<nat>, task: TaskType, ref: real): real
    requires Enterable(net, path, task)
  {
    if |path| <= 1 then 0.0
    else
      var last := path[|path| - 1];
      EnteredPrices(net, path[..|path| - 1], task, ref) + Counted(net.CapabilityAt(last, task).value.costPerTask, ref)
  }

  /** The weighted sum of the three. */
  ghost function EnteredCost(net: Network, path: seq<nat>, task: TaskType, w: CostWeights, model: CostModel): real
    requires Enterable(net, path, task)
  {
    Times(w.quality, EnteredGaps(net, path, task)) + Times(w.latency, EnteredLatency(net, path, task, model.latencyRef))
    + Times(w.cost, EnteredPrices(net, path, task, model.costRef))
  }

  lemma EnteredNothing(net: Network, path: seq<nat>, task: TaskType, w: CostWeights, model: CostModel)
    requires |path| <= 1
    ensures Enterable(net, path, task) && EnteredCost(net, path, task, w, model) == 0.0
  {
    TimesZero(w.quality);
    TimesZero(w.latency);
    TimesZero(w.cost);
  }

  /** What the last agent of a path adds to the three sums. */
  lemma EnteredUnfold(net: Network, path: seq<nat>, task: TaskType, latencyRef: real, costRef: real)
    requires |path| >= 2 && Enterable(net, path, task)
    ensures Enterable(net, path[..|path| - 1], task)
    ensures var front, last := path[..|path| - 1], path[|path| - 1];
            var cap, link := net.CapabilityAt(last, task).value, net.TransferOrDefault(path[|path| - 2], last);
            && EnteredGaps(net, path, task) == EnteredGaps(net, front, task) + (1.0 - ClampUnit(cap.estimatedQuality))
            && EnteredLatency(net, path, task, latencyRef) ==
               EnteredLatency(net, front, task, latencyRef) + Counted(cap.estimatedLatency + link, latencyRef)
            && EnteredPrices(net, path, task, costRef) ==
               EnteredPrices(net, front, task, costRef) + Counted(cap.costPerTask, costRef)
  {
    hide Counted, ClampUnit, Network.CapabilityAt, Network.TransferOrDefault;
  }

  lemma EdgeCostIs(model: CostModel, cap: Capability, link: Duration, w: CostWeights)
    ensures ScalarEdgeCost(model, cap, link, w) ==
            Times(w.quality, 1.0 - ClampUnit(cap.estimatedQuality))
            + Times(w.latency, Counted(cap.estimatedLatency + link, model.latencyRef))
            + Times(w.cost, Counted(cap.costPerTask, model.costRef))
  {
    ShareIsCounted(cap.estimatedLatency + link, model.latencyRef);
    ShareIsCounted(cap.costPerTask, model.costRef);
    hide Times, Share, Counted, ClampUnit;
  }

  /** The scalar cost of a route: its quality gap, and its latency and cost in units of their references. */
  lemma RouteCostIs(model: CostModel, m: RouteMetrics, w: CostWeights)
    ensures ScalarRouteCost(model, m, w) ==
            Times(w.quality, 1.0 - ClampUnit(m.quality)) + Times(w.latency, Counted(m.latency, model.latencyRef))
            + Times(w.cost, Counted(m.cost, model.costRef))
  {
    ShareIsCounted(m.latency, model.latencyRef);
    ShareIsCounted(m.cost, model.costRef);
    hide Times, Share, Counted, ClampUnit;
  }

  /** A link that is not recorded counts 5 ms. */
  lemma UnlinkedHop(net: Network, from: nat, to: nat)
    ensures net.TransferLatency(from, to).None? ==> net.TransferOrDefault(from, to) == 0.005
    ensures net.TransferLatency(from, to).Some? ==>
              net.TransferOrDefault(from, to) == net.TransferLatency(from, to).value
  {}

  /** Entering one more agent adds exactly its edge cost. */
  lemma EnteredOneMore(net: Network, path: seq<nat>, task: TaskType, w: CostWeights, model: CostModel)
    requires |path| >= 2 && Enterable(net, path, task)
    ensures Enterable(net, path[..|path| - 1], task)
    ensures var last, link := path[|path| - 1], net.TransferOrDefault(path[|path| - 2], path[|path| - 1]);
            EnteredCost(net, path, task, w, model) ==
            EnteredCost(net, path[..|path| - 1], task, w, model)
            + ScalarEdgeCost(model, net.CapabilityAt(last, task).value, link, w)
  {
    hide Times, Counted, ClampUnit, Network.CapabilityAt, Network.TransferOrDefault, ScalarEdgeCost, EnteredGaps,
         EnteredLatency, EnteredPrices;
    var front, last := path[..|path| - 1], path[|path| - 1];
    EnteredUnfold(net, path, task, model.latencyRef, model.costRef);
    var cap, link := net.CapabilityAt(last, task).value, net.TransferOrDefault(path[|path| - 2], last);
    EdgeCostIs(model, cap, link, w);
    WeighedSums(w, EnteredGaps(net, front, task), 1.0 - ClampUnit(cap.estimatedQuality),
                EnteredLatency(net, front, task, model.latencyRef),
                Counted(cap.estimatedLatency + link, model.latencyRef),
                EnteredPrices(net, front, task, model.costRef), Counted(cap.costPerTask, model.costRef));
  }

  /** Weighing three sums term by term. */
  lemma WeighedSums(w: CostWeights, q: real, dq: real, l: real, dl: real, c: real, dc: real)
    ensures Times(w.quality, q + dq) + Times(w.latency, l + dl) + Times(w.cost, c + dc) ==
            (Times(w.quality, q) + Times(w.latency, l) + Times(w.cost, c))
            + (Times(w.quality, dq) + Times(w.latency, dl) + Times(w.cost, dc))
  {
    hide Times;
    TimesAdds(w.quality, q, dq);
    TimesAdds(w.latency, l, dl);
    TimesAdds(w.cost, c, dc);
  }

  // ----------------------------- the price of entering against the metrics

  lemma {:induction false} QualityProductSnoc(caps: seq<Capability>, c: Capability)
    ensures QualityProduct(caps + [c]) == Times(QualityProduct(caps), ClampUnit(c.estimatedQuality))
  {
    hide Times, ClampUnit;
    if caps == [] {
      assert [c][1..] == [] && [] + [c] == [c];
      TimesOne(ClampUnit(c.estimatedQuality));
    } else {
      QualityProductSnoc(caps[1..], c);
      assert (caps + [c])[1..] == caps[1..] + [c];
      TimesAssociates(ClampUnit(caps[0].estimatedQuality), QualityProduct(caps[1..]), ClampUnit(c.estimatedQuality));
    }
  }

  lemma {:induction false} LatencySumSnoc(caps: seq<Capability>, c: Capability)
    ensures LatencySum(caps + [c]) == LatencySum(caps) + c.estimatedLatency
  {
    if caps == [] {
      assert [c][1..] == [] && [] + [c] == [c];
    } else {
      LatencySumSnoc(caps[1..], c);
      assert (caps + [c])[1..] == caps[1..] + [c];
    }
  }

  lemma {:induction false} CostSumSnoc(caps: seq<Capability>, c: Capability)
    ensures CostSum(caps + [c]) == CostSum(caps) + c.costPerTask
  {
    if caps == [] {
      assert [c][1..] == [] && [] + [c] == [c];
    } else {
      CostSumSnoc(caps[1..], c);
      assert (caps + [c])[1..] == caps[1..] + [c];
    }
  }

  lemma {:induction false} TransferSumSnoc(transfers: seq<Duration>, t: Duration)
    ensures TransferSum(transfers + [t]) == TransferSum(transfers) + t
  {
    if transfers == [] {
      assert [t][1..] == [] && [] + [t] == [t];
    } else {
      TransferSumSnoc(transfers[1..], t);
      assert (transfers + [t])[1..] == transfers[1..] + [t];
    }
  }

  /** One more agent multiplies the quality and adds its latency, the latency of the link to it, and its price. */
  lemma MetricsSnoc(net: Network, path: seq<nat>, task: TaskType)
    requires |path| >= 2 && Qualified(net, path, task)
    ensures Qualified(net, path[..|path| - 1], task)
    ensures var last, front := path[|path| - 1], path[..|path| - 1];
            var m, before := MetricsOf(net, path, task), MetricsOf(net, front, task);
            var cap := net.CapabilityAt(last, task).value;
            && m.quality == Times(before.quality, ClampUnit(cap.estimatedQuality))
            && m.latency == before.latency + cap.estimatedLatency + net.TransferOrDefault(path[|path| - 2], last)
            && m.cost == before.cost + cap.costPerTask
  {
    var front, last := path[..|path| - 1], path[|path| - 1];
    assert path == front + [last];
    ExtendCapabilities(net, front, task, last);
    ExtendTransfers(net, front, last);
    QualityProductSnoc(CapabilitiesAlong(net, front, task), net.CapabilityAt(last, task).value);
    LatencySumSnoc(CapabilitiesAlong(net, front, task), net.CapabilityAt(last, task).value);
    CostSumSnoc(CapabilitiesAlong(net, front, task), net.CapabilityAt(last, task).value);
    TransferSumSnoc(TransfersAlong(net, front), net.TransferOrDefault(path[|path| - 2], last));
    hide CapabilitiesAlong, TransfersAlong, LatencySum, CostSum, TransferSum, QualityProduct, Network.CapabilityAt,
         Network.TransferOrDefault, Qualified, Times, ClampUnit;
  }

  lemma MetricsOne(net: Network, path: seq<nat>, task: TaskType)
    requires |path| == 1 && Qualified(net, path, task)
    ensures MetricsOf(net, path, task) == Solo(net.CapabilityAt(path[0], task).value)
  {
    assert CapabilitiesAlong(net, path, task) == [net.CapabilityAt(path[0], task).value];
  }

  /** No entered agent's latency and link exceed twice the reference. */
  ghost predicate LatencyUncapped(net: Network, path: seq<nat>, task: TaskType, ref: real)
    requires Enterable(net, path, task)
  {
    ref > 0.0 && forall i :: 0 < i < |path| ==>
      net.CapabilityAt(path[i], task).value.estimatedLatency + net.TransferOrDefault(path[i - 1], path[i]) <= 2.0 * ref
  }

  ghost predicate PriceUncapped(net: Network, path: seq<nat>, task: TaskType, ref: real)
    requires Enterable(net, path, task)
  {
    ref > 0.0 && forall i :: 0 < i < |path| ==> net.CapabilityAt(path[i], task).value.costPerTask <= 2.0 * ref
  }

  lemma CountedTimes(x: real, ref: real)
    requires ref > 0.0 && x <= 2.0 * ref
    ensures Times(ref, Counted(x, ref)) == x
  {
    QuotientTimes(x, ref);
  }

  lemma LatencyUncappedFront(net: Network, path: seq<nat>, task: TaskType, ref: real)
    requires |path| >= 2 && Enterable(net, path, task) && LatencyUncapped(net, path, task, ref)
    ensures Enterable(net, path[..|path| - 1], task) && LatencyUncapped(net, path[..|path| - 1], task, ref)
    ensures ref > 0.0 && LastLatency(net, path, task) <= 2.0 * ref
  {
    hide Network.CapabilityAt, Network.TransferOrDefault;
  }

  lemma PriceUncappedFront(net: Network, path: seq<nat>, task: TaskType, ref: real)
    requires |path| >= 2 && Enterable(net, path, task) && PriceUncapped(net, path, task, ref)
    ensures Enterable(net, path[..|path| - 1], task) && PriceUncapped(net, path[..|path| - 1], task, ref)
    ensures ref > 0.0 && LastPrice(net, path, task) <= 2.0 * ref
  {
    hide Network.CapabilityAt, Network.TransferOrDefault;
  }

  /** The last agent's own latency plus that of the link to it. */
  ghost function LastLatency(net: Network, path: seq<nat>, task: TaskType): real
    requires |path| >= 2 && Enterable(net, path, task)
  {
    net.CapabilityAt(path[|path| - 1], task).value.estimatedLatency
    + net.TransferOrDefault(path[|path| - 2], path[|path| - 1])
  }

  ghost function LastPrice(net: Network, path: seq<nat>, task: TaskType): real
    requires |path| >= 2 && Enterable(net, path, task)
  {
    net.CapabilityAt(path[|path| - 1], task).value.costPerTask
  }

  /** Latency and price of the agents after the first, as the metrics have them. */
  ghost function Beyond(net: Network, path: seq<nat>, task: TaskType): (r: (real, real))
    requires path != [] && Qualified(net, path, task)
  {
    var first, m := net.CapabilityAt(path[0], task).value, MetricsOf(net, path, task);
    (m.latency - first.estimatedLatency, m.cost - first.costPerTask)
  }

  lemma BeyondOne(net: Network, path: seq<nat>, task: TaskType)
    requires |path| == 1 && Qualified(net, path, task)
    ensures Beyond(net, path, task) == (0.0, 0.0)
  {
    hide MetricsOf, ClampUnit, Network.CapabilityAt;
    MetricsOne(net, path, task);
    SoloMetrics(net.CapabilityAt(path[0], task).value);
  }

  lemma BeyondMore(net: Network, path: seq<nat>, task: TaskType)
    requires |path| >= 2 && Qualified(net, path, task)
    ensures Qualified(net, path[..|path| - 1], task) && Enterable(net, path, task)
    ensures var before := Beyond(net, path[..|path| - 1], task);
            Beyond(net, path, task) == (before.0 + LastLatency(net, path, task), before.1 + LastPrice(net, path, task))
  {
    hide MetricsOf, Network.CapabilityAt, Network.TransferOrDefault;
    MetricsSnoc(net, path, task);
  }

  lemma EnteredMore(net: Network, path: seq<nat>, task: TaskType, ref: real)
    requires |path| >= 2 && Enterable(net, path, task)
    ensures Enterable(net, path[..|path| - 1], task)
    ensures EnteredLatency(net, path, task, ref) ==
            EnteredLatency(net, path[..|path| - 1], task, ref) + Counted(LastLatency(net, path, task), ref)
    ensures EnteredPrices(net, path, task, ref) ==
            EnteredPrices(net, path[..|path| - 1], task, ref) + Counted(LastPrice(net, path, task), ref)
  {
    hide Counted, Network.CapabilityAt, Network.TransferOrDefault;
  }

  lemma EnteredNone(net: Network, path: seq<nat>, task: TaskType, ref: real)
    requires |path| == 1 && Enterable(net, path, task)
    ensures EnteredLatency(net, path, task, ref) == 0.0 && EnteredPrices(net, path, task, ref) == 0.0
  {}

  lemma CountMore(ref: real, counted: real, measured: real, x: real)
    requires ref > 0.0 && x <= 2.0 * ref && Times(ref, counted) == measured
    ensures Times(ref, counted + Counted(x, ref)) == measured + x
  {
    hide Times, Counted;
    CountedTimes(x, ref);
    TimesAdds(ref, counted, Counted(x, ref));
  }

  /** Uncapped, the latencies entered are the measured latency of the path less that of its first agent. */
  lemma {:induction false} EnteredLatencyMeaning(net: Network, path: seq<nat>, task: TaskType, ref: real)
    requires path != [] && Qualified(net, path, task)
    requires Enterable(net, path, task) && LatencyUncapped(net, path, task, ref)
    ensures Times(ref, EnteredLatency(net, path, task, ref)) == Beyond(net, path, task).0
    decreases |path|
  {
    hide Times, Beyond, Counted, EnteredLatency, LastLatency, LatencyUncapped, Qualified, Enterable;
    if |path| == 1 {
      EnteredNone(net, path, task, ref);
      TimesZero(ref);
      BeyondOne(net, path, task);
    } else {
      var front := path[..|path| - 1];
      LatencyUncappedFront(net, path, task, ref);
      BeyondMore(net, path, task);
      EnteredMore(net, path, task, ref);
      EnteredLatencyMeaning(net, front, task, ref);
      CountMore(ref, EnteredLatency(net, front, task, ref), Beyond(net, front, task).0, LastLatency(net, path, task));
    }
  }

  /** Uncapped, the prices entered are the cost of the path less that of its first agent. */
  lemma {:induction false} EnteredPricesMeaning(net: Network, path: seq<nat>, task: TaskType, ref: real)
    requires path != [] && Qualified(net, path, task)
    requires Enterable(net, path, task) && PriceUncapped(net, path, task, ref)
    ensures Times(ref, EnteredPrices(net, path, task, ref)) == Beyond(net, path, task).1
    decreases |path|
  {
    hide Times, Beyond, Counted, EnteredPrices, LastPrice, PriceUncapped, Qualified, Enterable;
    if |path| == 1 {
      EnteredNone(net, path, task, ref);
      TimesZero(ref);
      BeyondOne(net, path, task);
    } else {
      var front := path[..|path| - 1];
      PriceUncappedFront(net, path, task, ref);
      BeyondMore(net, path, task);
      EnteredMore(net, path, task, ref);
      EnteredPricesMeaning(net, front, task, ref);
      CountMore(ref, EnteredPrices(net, front, task, ref), Beyond(net, front, task).1, LastPrice(net, path, task));
    }
  }

  /** What the three pure weight vectors report, measured on the path itself. */
  lemma PureCosts(net: Network, path: seq<nat>, task: TaskType, w: CostWeights, model: CostModel)
    requires path != [] && Qualified(net, path, task) && Enterable(net, path, task)
    ensures w == CostWeights(1.0, 0.0, 0.0) ==> EnteredCost(net, path, task, w, model) == EnteredGaps(net, path, task)
    ensures w == CostWeights(0.0, 1.0, 0.0) && LatencyUncapped(net, path, task, model.latencyRef) ==>
              Times(model.latencyRef, EnteredCost(net, path, task, w, model)) ==
              MetricsOf(net, path, task).latency - net.CapabilityAt(path[0], task).value.estimatedLatency
    ensures w == CostWeights(0.0, 0.0, 1.0) && PriceUncapped(net, path, task, model.costRef) ==>
              Times(model.costRef, EnteredCost(net, path, task, w, model)) ==
              MetricsOf(net, path, task).cost - net.CapabilityAt(path[0], task).value.costPerTask
  {
    hide Times, MetricsOf, LatencyUncapped, PriceUncapped, EnteredGaps, EnteredLatency, EnteredPrices, Counted,
         Network.CapabilityAt, Qualified, Enterable;
    var g, l, c := EnteredGaps(net, path, task), EnteredLatency(net, path, task, model.latencyRef),
                   EnteredPrices(net, path, task, model.costRef);
    TimesOne(g);
    TimesOne(l);
    TimesOne(c);
    TimesZero(g);
    TimesZero(l);
    TimesZero(c);
    if LatencyUncapped(net, path, task, model.latencyRef) { EnteredLatencyMeaning(net, path, task, model.latencyRef); }
    if PriceUncapped(net, path, task, model.costRef) { EnteredPricesMeaning(net, path, task, model.costRef); }
  }

  // -------------------------------------------------- walking along a path

  /** The first obstacle met along a path, as the pipeline pattern reports it. */
  ghost predicate FailsWith(net: Network, path: seq<nat>, task: TaskType, error: RoutingError) {
    if path == [] then error == NoFeasibleRoute
    else exists i ::
      && 0 <= i < |path| && Qualified(net, path[..i], task) && net.CapabilityAt(path[i], task).None?
      && error == (if path[i] < |net.nodes| then NoFeasibleRoute else EmptyGraph)
  }

  ghost predicate IdsAlong(net: Network, path: seq<nat>, ids: seq<AgentId>) {
    |ids| == |path| && forall i :: 0 <= i < |path| ==> path[i] < |net.nodes| && ids[i] == net.nodes[path[i]].id
  }

  lemma NothingAlong(net: Network, path: seq<nat>, task: TaskType)
    requires path == []
    ensures Qualified(net, path, task) && IdsAlong(net, path, [])
    ensures CapabilitiesAlong(net, path, task) == [] && TransfersAlong(net, path) == []
  {}

  /** An index that is no node, or a node that cannot do the task, is the first obstacle after a qualified prefix. */
  lemma Blocked(net: Network, path: seq<nat>, task: TaskType, i: nat)
    requires i < |path| && Qualified(net, path[..i], task) && net.CapabilityAt(path[i], task).None?
    ensures !Qualified(net, path, task)
    ensures FailsWith(net, path, task, if path[i] < |net.nodes| then NoFeasibleRoute else EmptyGraph)
  {}

  lemma ExtendCapabilities(net: Network, path: seq<nat>, task: TaskType, next: nat)
    requires Qualified(net, path, task) && net.CapabilityAt(next, task).Some?
    ensures Qualified(net, path + [next], task)
    ensures CapabilitiesAlong(net, path + [next], task) ==
            CapabilitiesAlong(net, path, task) + [net.CapabilityAt(next, task).value]
  {}

  lemma ExtendTransfers(net: Network, path: seq<nat>, next: nat)
    ensures TransfersAlong(net, path + [next]) ==
            TransfersAlong(net, path) + (if path == [] then [] else [net.TransferOrDefault(path[|path| - 1], next)])
  {
    hide Network.TransferOrDefault;
    if path != [] {
      var before, after := TransfersAlong(net, path), TransfersAlong(net, path + [next]);
      assert after[..|path| - 1] == before;
      assert after == after[..|path| - 1] + [after[|path| - 1]];
    }
  }

  /** Prefixes of a path grow one capability and, after the first node, one transfer at a time. */
  lemma ExtendAlong(net: Network, path: seq<nat>, task: TaskType, i: nat)
    requires i < |path| && Qualified(net, path[..i], task) && net.CapabilityAt(path[i], task).Some?
    ensures Qualified(net, path[..i + 1], task)
    ensures CapabilitiesAlong(net, path[..i + 1], task) ==
            CapabilitiesAlong(net, path[..i], task) + [net.CapabilityAt(path[i], task).value]
    ensures TransfersAlong(net, path[..i + 1]) ==
            TransfersAlong(net, path[..i]) + (if i > 0 then [net.TransferOrDefault(path[i - 1], path[i])] else [])
  {
    hide CapabilitiesAlong, TransfersAlong, Qualified;
    assert path[..i + 1] == path[..i] + [path[i]];
    ExtendCapabilities(net, path[..i], task, path[i]);
    ExtendTransfers(net, path[..i], path[i]);
  }

  lemma ExtendIds(net: Network, path: seq<nat>, ids: seq<AgentId>, i: nat)
    requires i < |path| && IdsAlong(net, path[..i], ids) && path[i] < |net.nodes|
    ensures IdsAlong(net, path[..i + 1], ids + [net.nodes[path[i]].id])
  {}

  /**
   * The loop shared by `compute_path_metrics` and `pipeline`: collect ids, capabilities and transfers, then
   * total them.
   */
  method WalkPath(net: Network, path: seq<nat>, task: TaskType)
    returns (r: Result<(seq<AgentId>, RouteMetrics), RoutingError>)
    ensures r.Ok? <==> path != [] && Qualified(net, path, task)
    ensures r.Ok? ==> r.value.1 == MetricsOf(net, path, task)
    ensures r.Ok? ==> IdsAlong(net, path, r.value.0)
    ensures r.Err? ==> FailsWith(net, path, task, r.error)
  {
    if path == [] { return Err(NoFeasibleRoute); }
    assert path[..0] == [];
    NothingAlong(net, path[..0], task);
    hide CapabilitiesAlong, TransfersAlong, IdsAlong, Qualified, FailsWith, FindCapability, ComputeRouteMetrics,
         Network.TransferOrDefault;
    var capabilities: seq<Capability>, transfers: seq<Duration>, ids: seq<AgentId> := [], [], [];
    for i := 0 to |path|
      invariant Qualified(net, path[..i], task)
      invariant capabilities == CapabilitiesAlong(net, path[..i], task)
      invariant transfers == TransfersAlong(net, path[..i])
      invariant IdsAlong(net, path[..i], ids)
    {
      var node := net.Node(path[i]);
      if node.None? {
        Blocked(net, path, task, i);
        return Err(EmptyGraph);
      }
      var cap := FindCapability(node.value.capabilities, task);
      if cap.None? {
        Blocked(net, path, task, i);
        return Err(NoFeasibleRoute);
      }
      ExtendAlong(net, path, task, i);
      ExtendIds(net, path, ids, i);
      ids := ids + [node.value.id];
      capabilities := capabilities + [cap.value];
      if i > 0 {
        transfers := transfers + [net.TransferOrDefault(path[i - 1], path[i])];
      }
    }
    assert path[..|path|] == path;
    assert MetricsOf(net, path, task) == ComputeRouteMetrics(capabilities, transfers);
    r := Ok((ids, ComputeRouteMetrics(capabilities, transfers)));
  }
}
