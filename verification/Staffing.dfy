/** Who serves: every route names agents that are switched on, trusted enough and listing the task. */
module Staffing {
  import opened Prelude
  import opened Types
  import opened Cost
  import opened Graph
  import opened Sequences
  import opened Patterns

  ghost predicate Lists(node: AgentNode, task: TaskType) {
    exists c :: c in node.capabilities && c.taskType == task
  }

  ghost predicate OnDuty(net: Network, task: TaskType, minTrust: real, i: nat) {
    && i < |net.nodes| && net.nodes[i].available && net.nodes[i].trustScore >= minTrust
    && Lists(net.nodes[i], task)
  }

  ghost predicate Serves(net: Network, task: TaskType, minTrust: real, id: AgentId) {
    exists i: nat :: OnDuty(net, task, minTrust, i) && net.nodes[i].id == id
  }

  /** There is an agent, and everyone named is on duty. */
  ghost predicate Staffed(net: Network, task: TaskType, minTrust: real, agents: seq<AgentId>) {
    agents != [] && forall id :: id in agents ==> Serves(net, task, minTrust, id)
  }

  lemma CapableServes(net: Network, task: TaskType, minTrust: real, i: nat)
    requires net.IsCapable(i, task, minTrust)
    ensures Serves(net, task, minTrust, net.nodes[i].id)
  {
    net.CapableMeaning(i, task, minTrust);
    assert OnDuty(net, task, minTrust, i);
  }

  lemma ExtractedServes(net: Network, task: TaskType, minTrust: real, a: AgentInfo)
    requires a in ExtractAgents(net, task, minTrust)
    ensures Serves(net, task, minTrust, a.id)
  {
    InfosAreDistinct(net, task, minTrust);
    hide ExtractAgents, Serves;
    CapableServes(net, task, minTrust, a.index);
  }

  ghost predicate Among(chosen: seq<AgentInfo>, agents: seq<AgentInfo>) {
    chosen != [] && forall a :: a in chosen ==> a in agents
  }

  lemma ChosenAreStaff(net: Network, task: TaskType, minTrust: real, chosen: seq<AgentInfo>)
    requires Among(chosen, ExtractAgents(net, task, minTrust))
    ensures Staffed(net, task, minTrust, Ids(chosen))
  {
    hide ExtractAgents, Serves;
    var ids := Ids(chosen);
    forall id | id in ids ensures Serves(net, task, minTrust, id) {
      var k :| 0 <= k < |ids| && ids[k] == id;
      assert chosen[k] in chosen;
      ExtractedServes(net, task, minTrust, chosen[k]);
    }
  }

  lemma TakenAmong(sorted: seq<AgentInfo>, agents: seq<AgentInfo>, n: nat)
    requires multiset(sorted) == multiset(agents) && sorted != [] && n >= 1
    ensures Among(Take(sorted, n), agents)
  {
    forall a | a in Take(sorted, n) ensures a in agents {
      assert a in sorted;
      assert a in multiset(sorted);
    }
  }

  lemma CascadeStaffed(net: Network, task: TaskType, qos: QoS, threshold: real)
    ensures var r := CascadeRoute(net, task, qos, threshold);
            r.Ok? ==> Staffed(net, task, qos.minTrust, r.value.agents)
  {
    var agents := ExtractAgents(net, task, qos.minTrust);
    SortPermutes(agents, CheaperFirst);
    hide ExtractAgents, StableSort, CascadeMetrics, Staffed, SatisfiesConstraints, Ids;
    if CascadeRoute(net, task, qos, threshold).Ok? {
      TakenAmong(SortedByCost(agents), agents, 4);
      ChosenAreStaff(net, task, qos.minTrust, CascadeChain(net, task, qos.minTrust));
    }
  }

  lemma MergeStaffed(net: Network, task: TaskType, qos: QoS, size: nat)
    ensures var r := ParallelMergeRoute(net, task, qos, size);
            r.Ok? ==> Staffed(net, task, qos.minTrust, r.value.agents)
  {
    var agents := ExtractAgents(net, task, qos.minTrust);
    SortPermutes(agents, BetterFirst);
    hide ExtractAgents, StableSort, RedundantMetrics, Staffed, SatisfiesConstraints, Ids;
    if ParallelMergeRoute(net, task, qos, size).Ok? {
      var n := if size <= |agents| then size else |agents|;
      TakenAmong(SortedByQuality(agents), agents, n);
      ChosenAreStaff(net, task, qos.minTrust, Take(SortedByQuality(agents), n));
    }
  }

  lemma EnsembleStaffed(net: Network, task: TaskType, qos: QoS, size: nat)
    ensures var r := EnsembleRoute(net, task, qos, size);
            r.Ok? ==> Staffed(net, task, qos.minTrust, r.value.agents)
  {
    var agents := ExtractAgents(net, task, qos.minTrust);
    SortPermutes(agents, BetterFirst);
    SortPermutes(SortedByQuality(agents), BetterThenTrusted);
    hide ExtractAgents, StableSort, RedundantMetrics, Staffed, SatisfiesConstraints, Ids;
    if EnsembleRoute(net, task, qos, size).Ok? {
      var n := if size <= |agents| then size else |agents|;
      TakenAmong(EnsembleOrder(agents), agents, n);
      ChosenAreStaff(net, task, qos.minTrust, Take(EnsembleOrder(agents), n));
    }
  }

  lemma DraftRefineStaffed(net: Network, task: TaskType, qos: QoS)
    ensures var r := DraftRefineRoute(net, task, qos); r.Ok? ==> Staffed(net, task, qos.minTrust, r.value.agents)
  {
    hide Serves, DraftRefineRoute, Network.IsCapable, Network.CapabilityAt;
    if DraftRefineRoute(net, task, qos).Ok? {
      var i, j := DraftRefineRouteSpec(net, task, qos);
      assert DraftRefinePair(net, task, qos.minTrust, i, j);
      CapableServes(net, task, qos.minTrust, i);
      CapableServes(net, task, qos.minTrust, j);
    }
  }

  lemma SoloStaffed(net: Network, task: TaskType, qos: QoS)
    ensures var r := FirstSolo(SortedByCost(ExtractAgents(net, task, qos.minTrust)), qos);
            r.Ok? ==> Staffed(net, task, qos.minTrust, r.value.agents)
  {
    var agents := ExtractAgents(net, task, qos.minTrust);
    SortPermutes(agents, CheaperFirst);
    FirstSoloSpec(SortedByCost(agents), qos);
    hide ExtractAgents, StableSort, FirstSolo, Solo, SatisfiesConstraints, Serves;
    if FirstSolo(SortedByCost(agents), qos).Ok? {
      var sorted := SortedByCost(agents);
      var k :| 0 <= k < |sorted| && FirstSolo(sorted, qos).value.agents == [sorted[k].id];
      assert sorted[k] in sorted;
      ExtractedServes(net, task, qos.minTrust, sorted[k]);
    }
  }

  /** Whatever the automatic choice picks is staffed. */
  lemma AutoSelectStaffed(net: Network, task: TaskType, qos: QoS)
    ensures var r := AutoSelect(net, task, qos); r.Ok? ==> Staffed(net, task, qos.minTrust, r.value.agents)
  {
    hide CascadeRoute, DraftRefineRoute, EnsembleRoute, ParallelMergeRoute, FirstSolo, SortedByCost, ExtractAgents,
         MedianCost, Staffed;
    CascadeStaffed(net, task, qos, 0.7);
    DraftRefineStaffed(net, task, qos);
    EnsembleStaffed(net, task, qos, 3);
    MergeStaffed(net, task, qos, 3);
    SoloStaffed(net, task, qos);
  }
}
