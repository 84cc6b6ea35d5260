/** The agent graph: an indexed adjacency list that grows in place. */
module Graph {
  import opened Prelude
  import opened Types
  import opened Cost

  datatype AgentNode = AgentNode(id: AgentId, capabilities: seq<Capability>, available: bool, trustScore: real)

  datatype Edge = Edge(from: nat, to: nat, transferLatency: Duration)

  function FindEdge(edges: seq<Edge>, to: nat): (r: Option<Duration>)
    ensures r.Some? ==> exists k :: 0 <= k < |edges| && edges[k].to == to && edges[k].transferLatency == r.value
    ensures r.None? <==> forall k :: 0 <= k < |edges| ==> edges[k].to != to
  {
    if edges == [] then None
    else if edges[0].to == to then Some(edges[0].transferLatency)
    else FindEdge(edges[1..], to)
  }

  ghost predicate DistinctTargets(edges: seq<Edge>) {
    forall i, j :: 0 <= i < j < |edges| ==> edges[i].to != edges[j].to
  }

  lemma {:induction false} FindEdgeAt(edges: seq<Edge>, k: nat)
    requires DistinctTargets(edges) && k < |edges|
    ensures FindEdge(edges, edges[k].to) == Some(edges[k].transferLatency)
  {
    if k > 0 { FindEdgeAt(edges[1..], k - 1); }
  }

  lemma {:induction false} FindEdgeAppended(edges: seq<Edge>, e: Edge, to: nat)
    ensures FindEdge(edges + [e], to) ==
            (if FindEdge(edges, to).Some? then FindEdge(edges, to)
             else if e.to == to then Some(e.transferLatency) else None)
  {
    if edges != [] {
      FindEdgeAppended(edges[1..], e, to);
      assert (edges + [e])[1..] == edges[1..] + [e];
    }
  }

  /** A snapshot of the graph, on which the read-only algorithms are defined. */
  datatype Network = Network(nodes: seq<AgentNode>, adjacency: seq<seq<Edge>>) {

    ghost predicate Valid() {
      && |adjacency| == |nodes|
      && (forall i :: 0 <= i < |adjacency| ==> DistinctTargets(adjacency[i]))
      && (forall i, k :: 0 <= i < |adjacency| && 0 <= k < |adjacency[i]| ==>
                           adjacency[i][k].from == i && adjacency[i][k].to < |nodes|)
    }

    function Node(i: nat): Option<AgentNode> {
      if i < |nodes| then Some(nodes[i]) else None
    }

    function EdgesFrom(i: nat): seq<Edge> {
      if i < |adjacency| then adjacency[i] else []
    }

    function TransferLatency(from: nat, to: nat): Option<Duration> {
      FindEdge(EdgesFrom(from), to)
    }

    function TransferOrDefault(from: nat, to: nat): Duration {
      match TransferLatency(from, to)
      case Some(l) => l
      case None => DEFAULT_TRANSFER_LATENCY
    }

    function CapabilityAt(i: nat, task: TaskType): Option<Capability> {
      if i < |nodes| then FindCapability(nodes[i].capabilities, task) else None
    }

    predicate IsCapable(i: nat, task: TaskType, minTrust: real) {
      && i < |nodes| && nodes[i].available && nodes[i].trustScore >= minTrust
      && CapabilityAt(i, task).Some?
    }

    /** Who is capable: switched on, trusted enough, and listing a capability for the task. */
    lemma CapableMeaning(i: nat, task: TaskType, minTrust: real)
      ensures IsCapable(i, task, minTrust) <==>
              && i < |nodes| && nodes[i].available && nodes[i].trustScore >= minTrust
              && exists c :: c in nodes[i].capabilities && c.taskType == task
    {}

    function CapableBelow(n: nat, task: TaskType, minTrust: real): (r: seq<nat>)
      ensures forall i :: i in r <==> 0 <= i < n && IsCapable(i, task, minTrust)
      ensures forall a, b :: 0 <= a < b < |r| ==> r[a] < r[b]
    {
      if n == 0 then []
      else
        var front := CapableBelow(n - 1, task, minTrust);
        assert forall a :: 0 <= a < |front| ==> front[a] in front;
        if IsCapable(n - 1, task, minTrust) then front + [n - 1] else front
    }

    /** The capability matching step: indices of available, trusted agents that can do the task, ascending. */
    function CapableAgents(task: TaskType, minTrust: real): (r: seq<nat>)
      ensures forall i :: i in r <==> IsCapable(i, task, minTrust)
      ensures Distinct(r)
    {
      CapableBelow(|nodes|, task, minTrust)
    }
  }

  /** The mutable graph. Nodes are never removed, only switched off. */
  class AgentGraph {
    var nodes: seq<AgentNode>
    var adjacency: seq<seq<Edge>>
    var idToIndex: map<AgentId, nat>

    function Snapshot(): Network
      reads this
    {
      Network(nodes, adjacency)
    }

    /** The id index is exactly the inverse of the node list. */
    ghost predicate Valid()
      reads this
    {
      && Snapshot().Valid()
      && (forall id :: id in idToIndex ==> idToIndex[id] < |nodes| && nodes[idToIndex[id]].id == id)
      && (forall i :: 0 <= i < |nodes| ==> nodes[i].id in idToIndex && idToIndex[nodes[i].id] == i)
    }

    constructor ()
      ensures Valid() && nodes == [] && adjacency == []
    {
      nodes, adjacency, idToIndex := [], [], map[];
    }

    /** Re-adding a known agent updates it in place and keeps its index and its edges. */
    method AddAgent(id: AgentId, capabilities: seq<Capability>, trustScore: real) returns (idx: nat)
      requires Valid()
      modifies this
      ensures Valid()
      ensures id in idToIndex && idToIndex[id] == idx
      ensures idx < |nodes| && nodes[idx] == AgentNode(id, capabilities, true, trustScore)
      ensures if id in old(idToIndex)
              then idx == old(idToIndex)[id] && |nodes| == |old(nodes)| && adjacency == old(adjacency)
              else idx == |old(nodes)| && |nodes| == idx + 1 && adjacency == old(adjacency) + [[]]
      ensures forall i :: 0 <= i < |old(nodes)| && i != idx ==> nodes[i] == old(nodes)[i]
      ensures idToIndex == old(idToIndex)[id := idx]
    {
      if id in idToIndex {
        idx := idToIndex[id];
        nodes := nodes[idx := nodes[idx].(capabilities := capabilities)];
        nodes := nodes[idx := nodes[idx].(trustScore := trustScore)];
        nodes := nodes[idx := nodes[idx].(available := true)];
        return;
      }
      idx := |nodes|;
      nodes := nodes + [AgentNode(id, capabilities, true, trustScore)];
      adjacency := adjacency + [[]];
      idToIndex := idToIndex[id := idx];
    }

    /** A first edge between two known agents is recorded; a later one never changes its latency. */
    method AddEdge(from: AgentId, to: AgentId, transferLatency: Duration)
      requires Valid()
      modifies this`adjacency
      ensures Valid()
      ensures !(from in idToIndex && to in idToIndex) ==> adjacency == old(adjacency)
      ensures |adjacency| == |old(adjacency)|
      ensures from in idToIndex && to in idToIndex ==>
                forall i: nat, j: nat :: i < |nodes| ==>
                  Snapshot().TransferLatency(i, j) ==
                  (if old(Snapshot()).TransferLatency(i, j).None? && i == idToIndex[from] && j == idToIndex[to]
                   then Some(transferLatency) else old(Snapshot()).TransferLatency(i, j))
    {
      if from in idToIndex && to in idToIndex {
        var f, t := idToIndex[from], idToIndex[to];
        Connect(f, t, transferLatency);
      }
    }

    /** Links both directions of two known agents; a direction that is already linked keeps its latency. */
    method AddBidiEdge(a: AgentId, b: AgentId, transferLatency: Duration)
      requires Valid()
      modifies this`adjacency
      ensures Valid() && |adjacency| == |old(adjacency)|
      ensures !(a in idToIndex && b in idToIndex) ==> adjacency == old(adjacency)
      ensures a in idToIndex && b in idToIndex ==>
                forall i: nat, j: nat :: i < |nodes| ==>
                  Snapshot().TransferLatency(i, j) ==
                  (if old(Snapshot()).TransferLatency(i, j).None? &&
                      ((i == idToIndex[a] && j == idToIndex[b]) || (i == idToIndex[b] && j == idToIndex[a]))
                   then Some(transferLatency) else old(Snapshot()).TransferLatency(i, j))
    {
      AddEdge(a, b, transferLatency);
      AddEdge(b, a, transferLatency);
    }

    /** The shared step of `add_edge` and `fully_connect`: push an edge unless one is already there. */
    method Connect(f: nat, t: nat, latency: Duration)
      requires Valid() && f < |nodes| && t < |nodes|
      modifies this`adjacency
      ensures Valid() && |adjacency| == |old(adjacency)|
      ensures forall i: nat, j: nat :: i < |nodes| ==>
                Snapshot().TransferLatency(i, j) ==
                (if old(Snapshot()).TransferLatency(i, j).None? && i == f && j == t
                 then Some(latency) else old(Snapshot()).TransferLatency(i, j))
    {
      if FindEdge(adjacency[f], t).None? {
        ghost var before := adjacency[f];
        var e := Edge(f, t, latency);
        adjacency := adjacency[f := adjacency[f] + [e]];
        forall j: nat ensures FindEdge(adjacency[f], j) ==
          (if FindEdge(before, j).Some? then FindEdge(before, j) else if t == j then Some(latency) else None)
        {
          FindEdgeAppended(before, e, j);
        }
      }
    }

    /**
     * After `fully_connect` every ordered pair of different agents is linked, and links that existed keep
     * their latency.
     */
    method FullyConnect(latency: Duration)
      requires Valid()
      modifies this`adjacency
      ensures Valid() && |adjacency| == |old(adjacency)|
      ensures forall i: nat, j: nat :: i < |nodes| ==>
                Snapshot().TransferLatency(i, j) ==
                (if old(Snapshot()).TransferLatency(i, j).None? && j < |nodes| && i != j
                 then Some(latency) else old(Snapshot()).TransferLatency(i, j))
    {
      var n := |nodes|;
      for i := 0 to n
        invariant Valid() && |adjacency| == |old(adjacency)| == n
        invariant forall a: nat, b: nat :: a < n ==>
          Snapshot().TransferLatency(a, b) ==
          (if old(Snapshot()).TransferLatency(a, b).None? && b < n && a != b && a < i
           then Some(latency) else old(Snapshot()).TransferLatency(a, b))
      {
        for j := 0 to n
          invariant Valid() && |adjacency| == |old(adjacency)| == n
          invariant forall a: nat, b: nat :: a < n ==>
            Snapshot().TransferLatency(a, b) ==
            (if old(Snapshot()).TransferLatency(a, b).None? && b < n && a != b && (a < i || (a == i && b < j))
             then Some(latency) else old(Snapshot()).TransferLatency(a, b))
        {
          if i != j {
            Connect(i, j, latency);
          }
        }
      }
    }

    method SetAvailability(id: AgentId, available: bool)
      requires Valid()
      modifies this`nodes
      ensures Valid() && |nodes| == |old(nodes)|
      ensures forall i :: 0 <= i < |nodes| ==>
                nodes[i] == (if old(nodes)[i].id == id then old(nodes)[i].(available := available) else old(nodes)[i])
    {
      if id in idToIndex {
        var idx := idToIndex[id];
        nodes := nodes[idx := nodes[idx].(available := available)];
      }
    }
  }
}
