/** The vocabulary of capabilities, quality-of-service bounds and routes. */
module Types {
  import opened Prelude

  /** Stands for a UUID: identifiers are only ever compared. */
  type AgentId = nat

  /** A time span in seconds. */
  type Duration = d: real | 0.0 <= d witness 0.0

  datatype TaskType = CodeGeneration | Analysis | CreativeWriting | DataProcessing

  datatype Capability = Capability(
    taskType: TaskType, estimatedQuality: real, estimatedLatency: Duration, costPerTask: real)

  datatype QoS = QoS(minQuality: real, maxLatency: Duration, maxCost: real, minTrust: real)

  datatype RouteMetrics = RouteMetrics(quality: real, latency: Duration, cost: real)

  datatype RoutingPattern = DraftRefine | ParallelMerge | Cascade | Ensemble | Pipeline

  datatype RoutingError = NoFeasibleRoute | EmptyGraph

  /** A computed route without its random id, creation time and time to live. */
  datatype Route = Route(pattern: RoutingPattern, agents: seq<AgentId>, metrics: RouteMetrics)

  function ComplexityWeight(t: TaskType): real {
    match t
    case CodeGeneration => 1.5
    case Analysis => 1.2
    case CreativeWriting => 1.0
    case DataProcessing => 0.8
  }

  /** `find` over the capabilities an agent lists. */
  function FindCapability(caps: seq<Capability>, task: TaskType): (r: Option<Capability>)
    ensures r.None? <==> forall c :: c in caps ==> c.taskType != task
    ensures r.Some? ==> r.value in caps && r.value.taskType == task
  {
    if caps == [] then None
    else if caps[0].taskType == task then Some(caps[0])
    else FindCapability(caps[1..], task)
  }

  /** What is found is the first capability listed for the task. */
  lemma {:induction false} FindsFirst(caps: seq<Capability>, task: TaskType) returns (i: nat)
    requires FindCapability(caps, task).Some?
    ensures i < |caps| && FindCapability(caps, task).value == caps[i] && caps[i].taskType == task
    ensures forall j :: 0 <= j < i ==> caps[j].taskType != task
  {
    if caps[0].taskType == task {
      i := 0;
    } else {
      var k := FindsFirst(caps[1..], task);
      i := k + 1;
    }
  }
}
