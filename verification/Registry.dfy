/** The capability registry: two indices over the same facts. */
module Registry {
  import opened Prelude
  import opened Types
  import opened Sequences

  datatype Entry = Entry(agentId: AgentId, capability: Capability, trustScore: real)

  type ByTask = map<TaskType, seq<Entry>>
  type ByAgent = map<AgentId, seq<Capability>>

  function AgentOf(e: Entry): AgentId {
    e.agentId
  }

  function TaskOf(c: Capability): TaskType {
    c.taskType
  }

  function NotAgent(id: AgentId): Entry -> bool {
    (e: Entry) => e.agentId != id
  }

  function NotTask(task: TaskType): Capability -> bool {
    (c: Capability) => c.taskType != task
  }

  predicate MeetsConstraints(e: Entry, qos: QoS) {
    && e.capability.estimatedQuality >= qos.minQuality
    && e.capability.estimatedLatency <= qos.maxLatency
    && e.capability.costPerTask <= qos.maxCost
    && e.trustScore >= qos.minTrust
  }

  function Meeting(qos: QoS): Entry -> bool {
    (e: Entry) => MeetsConstraints(e, qos)
  }

  predicate MoreTrusted(a: Entry, b: Entry) {
    a.trustScore >= b.trustScore
  }

  // ----------------------------------------------------------- agreement

  ghost predicate TasksTidy(byTask: ByTask) {
    forall t :: t in byTask ==>
                  KeysDistinct(byTask[t], AgentOf) && forall e :: e in byTask[t] ==> e.capability.taskType == t
  }

  ghost predicate AgentsTidy(byAgent: ByAgent) {
    forall a :: a in byAgent ==> byAgent[a] != [] && KeysDistinct(byAgent[a], TaskOf)
  }

  ghost predicate InTasks(byTask: ByTask, a: AgentId, c: Capability) {
    c.taskType in byTask && exists e :: e in byTask[c.taskType] && e.agentId == a && e.capability == c
  }

  ghost predicate InAgents(byAgent: ByAgent, a: AgentId, c: Capability) {
    a in byAgent && c in byAgent[a]
  }

  /** Both indices hold the same facts, at most one per agent and task type, and no agent has an empty list. */
  ghost predicate Agree(byTask: ByTask, byAgent: ByAgent) {
    && TasksTidy(byTask) && AgentsTidy(byAgent)
    && forall a, c :: InTasks(byTask, a, c) <==> InAgents(byAgent, a, c)
  }

  /** All entries of the primary index. */
  ghost function EntriesOf(byTask: ByTask): set<Entry> {
    set t, e | t in byTask && e in byTask[t] :: e
  }

  ghost function FactsOf(byAgent: ByAgent): set<(AgentId, Capability)> {
    set a, c | a in byAgent && c in byAgent[a] :: (a, c)
  }

  function FactOf(e: Entry): (AgentId, Capability) {
    (e.agentId, e.capability)
  }

  lemma {:induction false} FilterKeysDistinct<T(!new), K>(s: seq<T>, keep: T -> bool, key: T -> K)
    requires KeysDistinct(s, key)
    ensures KeysDistinct(Filter(s, keep), key)
  {
    if s != [] {
      assert forall i :: 0 <= i < |s[1..]| ==> s[1..][i] == s[i + 1];
      FilterKeysDistinct(s[1..], keep, key);
      var rest := Filter(s[1..], keep);
      forall k | 0 <= k < |rest| ensures key(rest[k]) != key(s[0]) {
        assert rest[k] in rest;
        var j :| 0 <= j < |s[1..]| && s[1..][j] == rest[k];
      }
    }
  }

  // ------------------------------------------------------- the operations

  function WithoutIn(byTask: ByTask, task: TaskType, id: AgentId): ByTask {
    if task in byTask then byTask[task := Filter(byTask[task], NotAgent(id))] else byTask
  }

  function Pushed(byTask: ByTask, task: TaskType, e: Entry): ByTask {
    byTask[task := (if task in byTask then byTask[task] else []) + [e]]
  }

  lemma AppendDistinct<T(!new), K>(s: seq<T>, x: T, key: T -> K)
    requires KeysDistinct(s, key) && forall y :: y in s ==> key(y) != key(x)
    ensures KeysDistinct(s + [x], key)
  {}

  lemma EntryAt(byTask: ByTask, e: Entry)
    requires TasksTidy(byTask)
    ensures e in EntriesOf(byTask) <==> e.capability.taskType in byTask && e in byTask[e.capability.taskType]
  {}

  /** The facts of the primary index after removing one (agent, task type) pair. */
  lemma WithoutInFacts(byTask: ByTask, task: TaskType, id: AgentId)
    requires TasksTidy(byTask)
    ensures TasksTidy(WithoutIn(byTask, task, id))
    ensures forall e :: e in EntriesOf(WithoutIn(byTask, task, id)) <==>
                          e in EntriesOf(byTask) && !(e.agentId == id && e.capability.taskType == task)
  {
    if task in byTask {
      FilterKeysDistinct(byTask[task], NotAgent(id), AgentOf);
    }
    var after := WithoutIn(byTask, task, id);
    forall e
      ensures e in EntriesOf(after) <==> e in EntriesOf(byTask) && !(e.agentId == id && e.capability.taskType == task)
    {
      EntryAt(byTask, e);
      EntryAt(after, e);
    }
  }

  lemma PushedFacts(byTask: ByTask, e: Entry)
    requires TasksTidy(byTask)
    requires forall x :: x in EntriesOf(byTask) ==>
                           !(x.agentId == e.agentId && x.capability.taskType == e.capability.taskType)
    ensures TasksTidy(Pushed(byTask, e.capability.taskType, e))
    ensures forall x :: x in EntriesOf(Pushed(byTask, e.capability.taskType, e)) <==> x == e || x in EntriesOf(byTask)
  {
    var t := e.capability.taskType;
    var listed := if t in byTask then byTask[t] else [];
    forall y | y in listed ensures AgentOf(y) != AgentOf(e) {
      assert y in EntriesOf(byTask);
    }
    AppendDistinct(listed, e, AgentOf);
    var after := Pushed(byTask, t, e);
    forall x ensures x in EntriesOf(after) <==> x == e || x in EntriesOf(byTask) {
      EntryAt(byTask, x);
      EntryAt(after, x);
      assert e in after[t];
    }
  }

  lemma TasksFacts(byTask: ByTask, a: AgentId, c: Capability)
    requires TasksTidy(byTask)
    ensures InTasks(byTask, a, c) <==> exists e :: e in EntriesOf(byTask) && FactOf(e) == (a, c)
  {
    if InTasks(byTask, a, c) {
      var e :| e in byTask[c.taskType] && e.agentId == a && e.capability == c;
      assert e in EntriesOf(byTask);
    }
  }

  function CapsOf(byAgent: ByAgent, id: AgentId): seq<Capability> {
    if id in byAgent then byAgent[id] else []
  }

  function Recorded(byAgent: ByAgent, id: AgentId, c: Capability): ByAgent {
    byAgent[id := Filter(CapsOf(byAgent, id), NotTask(c.taskType)) + [c]]
  }

  lemma RecordedFacts(byAgent: ByAgent, id: AgentId, c: Capability)
    requires AgentsTidy(byAgent)
    ensures AgentsTidy(Recorded(byAgent, id, c))
    ensures forall a, x :: InAgents(Recorded(byAgent, id, c), a, x) <==>
              (a == id && x == c) || (InAgents(byAgent, a, x) && !(a == id && x.taskType == c.taskType))
  {
    var caps := CapsOf(byAgent, id);
    FilterKeysDistinct(caps, NotTask(c.taskType), TaskOf);
    AppendDistinct(Filter(caps, NotTask(c.taskType)), c, TaskOf);
  }

  /** What one registration does to the entries. */
  ghost predicate Registered(before: set<Entry>, after: set<Entry>, e: Entry) {
    forall x :: x in after <==>
      x == e || (x in before && !(x.agentId == e.agentId && x.capability.taskType == e.capability.taskType))
  }

  lemma RegisterAgrees(byTask: ByTask, byAgent: ByAgent, e: Entry)
    requires Agree(byTask, byAgent)
    ensures var t := e.capability.taskType;
            var byTask' := Pushed(WithoutIn(byTask, t, e.agentId), t, e);
            && Agree(byTask', Recorded(byAgent, e.agentId, e.capability))
            && Registered(EntriesOf(byTask), EntriesOf(byTask'), e)
  {
    var t := e.capability.taskType;
    var mid := WithoutIn(byTask, t, e.agentId);
    WithoutInFacts(byTask, t, e.agentId);
    PushedFacts(mid, e);
    RecordedFacts(byAgent, e.agentId, e.capability);
    var byTask', byAgent' := Pushed(mid, t, e), Recorded(byAgent, e.agentId, e.capability);
    hide EntriesOf, Pushed, WithoutIn, Recorded, TasksTidy, AgentsTidy, InAgents, InTasks;
    forall a, c ensures InTasks(byTask', a, c) <==> InAgents(byAgent', a, c) {
      assert InTasks(byTask, a, c) <==> InAgents(byAgent, a, c);
      TasksFacts(byTask, a, c);
      TasksFacts(byTask', a, c);
      assert e in EntriesOf(byTask');
    }
  }

  /** Removing an agent everywhere. */
  function WithoutAgent(byTask: ByTask, id: AgentId): ByTask {
    map t | t in byTask :: Filter(byTask[t], NotAgent(id))
  }

  lemma WithoutAgentFacts(byTask: ByTask, id: AgentId)
    requires TasksTidy(byTask)
    ensures TasksTidy(WithoutAgent(byTask, id))
    ensures forall e :: e in EntriesOf(WithoutAgent(byTask, id)) <==> e in EntriesOf(byTask) && e.agentId != id
  {
    var after := WithoutAgent(byTask, id);
    forall t | t in byTask ensures KeysDistinct(after[t], AgentOf) {
      FilterKeysDistinct(byTask[t], NotAgent(id), AgentOf);
    }
    forall e ensures e in EntriesOf(after) <==> e in EntriesOf(byTask) && e.agentId != id {
      EntryAt(byTask, e);
      EntryAt(after, e);
    }
  }

  lemma UnregisterAgrees(byTask: ByTask, byAgent: ByAgent, id: AgentId)
    requires Agree(byTask, byAgent)
    ensures Agree(WithoutAgent(byTask, id), byAgent - {id})
  {
    WithoutAgentFacts(byTask, id);
    var byTask', byAgent' := WithoutAgent(byTask, id), byAgent - {id};
    assert AgentsTidy(byAgent');
    forall a, c ensures InTasks(byTask', a, c) <==> InAgents(byAgent', a, c) {
      assert InTasks(byTask, a, c) <==> InAgents(byAgent, a, c);
      TasksFacts(byTask, a, c);
      TasksFacts(byTask', a, c);
    }
  }

  function Forgotten(byAgent: ByAgent, id: AgentId, task: TaskType): ByAgent {
    if id !in byAgent then byAgent
    else
      var caps := Filter(byAgent[id], NotTask(task));
      if caps == [] then byAgent - {id} else byAgent[id := caps]
  }

  lemma ForgottenFacts(byAgent: ByAgent, id: AgentId, task: TaskType)
    requires AgentsTidy(byAgent)
    ensures AgentsTidy(Forgotten(byAgent, id, task))
    ensures forall a, x :: InAgents(Forgotten(byAgent, id, task), a, x) <==>
              InAgents(byAgent, a, x) && !(a == id && x.taskType == task)
  {
    if id in byAgent {
      FilterKeysDistinct(byAgent[id], NotTask(task), TaskOf);
      EmptyIffNoMember(Filter(byAgent[id], NotTask(task)));
    }
  }

  lemma UnregisterCapabilityAgrees(byTask: ByTask, byAgent: ByAgent, id: AgentId, task: TaskType)
    requires Agree(byTask, byAgent)
    ensures Agree(WithoutIn(byTask, task, id), Forgotten(byAgent, id, task))
  {
    WithoutInFacts(byTask, task, id);
    ForgottenFacts(byAgent, id, task);
    var byTask', byAgent' := WithoutIn(byTask, task, id), Forgotten(byAgent, id, task);
    hide EntriesOf, WithoutIn, Forgotten, TasksTidy, AgentsTidy, InAgents, InTasks;
    forall a, c ensures InTasks(byTask', a, c) <==> InAgents(byAgent', a, c) {
      assert InTasks(byTask, a, c) <==> InAgents(byAgent, a, c);
      TasksFacts(byTask, a, c);
      TasksFacts(byTask', a, c);
    }
  }

  function Retrusted(entries: seq<Entry>, id: AgentId, trust: real): (r: seq<Entry>)
    ensures |r| == |entries|
    ensures forall i :: 0 <= i < |entries| ==>
              r[i] == if entries[i].agentId == id then entries[i].(trustScore := trust) else entries[i]
  {
    seq(|entries|, i requires 0 <= i < |entries| =>
      if entries[i].agentId == id then entries[i].(trustScore := trust) else entries[i])
  }

  function WithTrust(byTask: ByTask, id: AgentId, task: TaskType, trust: real): ByTask {
    if task in byTask then byTask[task := Retrusted(byTask[task], id, trust)] else byTask
  }

  function Reweighed(e: Entry, id: AgentId, task: TaskType, trust: real): Entry {
    if e.agentId == id && e.capability.taskType == task then e.(trustScore := trust) else e
  }

  lemma ReweighedStays(byTask: ByTask, id: AgentId, task: TaskType, trust: real, x: Entry)
    requires TasksTidy(byTask) && x in EntriesOf(byTask)
    ensures Reweighed(x, id, task, trust) in EntriesOf(WithTrust(byTask, id, task, trust))
  {
    var t, after := x.capability.taskType, WithTrust(byTask, id, task, trust);
    EntryAt(byTask, x);
    var k :| 0 <= k < |byTask[t]| && byTask[t][k] == x;
    assert after[t][k] == Reweighed(x, id, task, trust);
    assert after[t][k] in after[t];
  }

  lemma ReweighedFrom(byTask: ByTask, id: AgentId, task: TaskType, trust: real, e: Entry)
    requires TasksTidy(byTask) && e in EntriesOf(WithTrust(byTask, id, task, trust))
    ensures exists x :: x in EntriesOf(byTask) && e == Reweighed(x, id, task, trust)
  {
    var after := WithTrust(byTask, id, task, trust);
    var t :| t in after && e in after[t];
    var k :| 0 <= k < |after[t]| && after[t][k] == e;
    var x := byTask[t][k];
    assert x in byTask[t] && x.capability.taskType == t;
    EntryAt(byTask, x);
    assert e == Reweighed(x, id, task, trust);
  }

  /** A trust update rewrites the score of one (agent, task type) pair and touches no other entry. */
  lemma WithTrustEntries(byTask: ByTask, id: AgentId, task: TaskType, trust: real)
    requires TasksTidy(byTask)
    ensures forall e :: e in EntriesOf(WithTrust(byTask, id, task, trust)) <==>
                        exists x :: x in EntriesOf(byTask) && e == Reweighed(x, id, task, trust)
  {
    hide EntriesOf, WithTrust, TasksTidy, Reweighed;
    forall x | x in EntriesOf(byTask)
      ensures Reweighed(x, id, task, trust) in EntriesOf(WithTrust(byTask, id, task, trust))
    {
      ReweighedStays(byTask, id, task, trust, x);
    }
    forall e | e in EntriesOf(WithTrust(byTask, id, task, trust))
      ensures exists x :: x in EntriesOf(byTask) && e == Reweighed(x, id, task, trust)
    {
      ReweighedFrom(byTask, id, task, trust, e);
    }
  }

  lemma WithTrustTidy(byTask: ByTask, id: AgentId, task: TaskType, trust: real)
    requires TasksTidy(byTask)
    ensures TasksTidy(WithTrust(byTask, id, task, trust))
  {
    var after := WithTrust(byTask, id, task, trust);
    if task in byTask {
      forall e: Entry | e in after[task] ensures e.capability.taskType == task {
        var k :| 0 <= k < |after[task]| && after[task][k] == e;
        assert byTask[task][k] in byTask[task];
      }
    }
  }

  lemma WithTrustAgrees(byTask: ByTask, byAgent: ByAgent, id: AgentId, task: TaskType, trust: real)
    requires Agree(byTask, byAgent)
    ensures Agree(WithTrust(byTask, id, task, trust), byAgent)
  {
    var after := WithTrust(byTask, id, task, trust);
    WithTrustTidy(byTask, id, task, trust);
    WithTrustEntries(byTask, id, task, trust);
    hide TasksTidy, AgentsTidy, InTasks, InAgents, EntriesOf, WithTrust;
    forall a, c ensures InTasks(after, a, c) <==> InTasks(byTask, a, c) {
      TasksFacts(byTask, a, c);
      TasksFacts(after, a, c);
      forall x | x in EntriesOf(byTask) ensures Reweighed(x, id, task, trust) in EntriesOf(after) {}
    }
  }

  // ------------------------------------------------------------- counting

  lemma KeysMakeDistinct<T(!new), K>(s: seq<T>, key: T -> K)
    requires KeysDistinct(s, key)
    ensures |set x | x in s| == |s|
  {
    DistinctCardinality(s);
  }

  /** The total length of the per-agent lists. */
  ghost function TotalListed(byAgent: ByAgent): nat
    decreases |byAgent|
  {
    if byAgent == map[] then 0
    else
      var a :| a in byAgent;
      assert |byAgent - {a}| < |byAgent| by { ShrinkMap(byAgent, a); }
      |byAgent[a]| + TotalListed(byAgent - {a})
  }

  lemma ShrinkMap(m: ByAgent, a: AgentId)
    requires a in m
    ensures |m - {a}| < |m|
  {}

  lemma {:induction false} TotalIsFacts(byAgent: ByAgent)
    requires AgentsTidy(byAgent)
    ensures TotalListed(byAgent) == |FactsOf(byAgent)|
    decreases |byAgent|
  {
    if byAgent == map[] {
      assert FactsOf(byAgent) == {};
    } else {
      var a :| a in byAgent && TotalListed(byAgent) == |byAgent[a]| + TotalListed(byAgent - {a});
      ShrinkMap(byAgent, a);
      TotalIsFacts(byAgent - {a});
      var own := set c | c in byAgent[a] :: (a, c);
      PairsWith(a, byAgent[a]);
      assert FactsOf(byAgent) == FactsOf(byAgent - {a}) + own;
      assert FactsOf(byAgent - {a}) !! own;
    }
  }

  lemma {:induction false} PairsWith(a: AgentId, caps: seq<Capability>)
    requires KeysDistinct(caps, TaskOf)
    ensures |set c | c in caps :: (a, c)| == |caps|
  {
    if caps == [] {
      assert (set c | c in caps :: (a, c)) == {};
    } else {
      var front, last := caps[..|caps| - 1], caps[|caps| - 1];
      PairsWith(a, front);
      assert caps == front + [last];
      assert (set c | c in caps :: (a, c)) == (set c | c in front :: (a, c)) + {(a, last)};
    }
  }

  /** Forgetting the trust score loses no entry, because an agent has one entry per task type. */
  lemma {:induction false} FactsCount(entries: set<Entry>, facts: set<(AgentId, Capability)>)
    requires forall x, y :: x in entries && y in entries && FactOf(x) == FactOf(y) ==> x == y
    requires forall f :: f in facts <==> exists e :: e in entries && FactOf(e) == f
    ensures |entries| == |facts|
    decreases entries
  {
    if entries == {} {
      assert facts == {};
    } else {
      var e :| e in entries;
      FactsCount(entries - {e}, facts - {FactOf(e)});
    }
  }

  /** The two indices count the same. */
  lemma CountsAgree(byTask: ByTask, byAgent: ByAgent)
    requires Agree(byTask, byAgent)
    ensures |EntriesOf(byTask)| == TotalListed(byAgent)
  {
    TotalIsFacts(byAgent);
    forall x, y | x in EntriesOf(byTask) && y in EntriesOf(byTask) && FactOf(x) == FactOf(y) ensures x == y {
      OneEntryPerFact(byTask, x, y);
    }
    forall f ensures f in FactsOf(byAgent) <==> exists e :: e in EntriesOf(byTask) && FactOf(e) == f {
      assert InTasks(byTask, f.0, f.1) <==> InAgents(byAgent, f.0, f.1);
      TasksFacts(byTask, f.0, f.1);
    }
    FactsCount(EntriesOf(byTask), FactsOf(byAgent));
  }

  lemma OneEntryPerFact(byTask: ByTask, x: Entry, y: Entry)
    requires TasksTidy(byTask) && x in EntriesOf(byTask) && y in EntriesOf(byTask) && FactOf(x) == FactOf(y)
    ensures x == y
  {}

  ghost function AgentsOf(byTask: ByTask): set<AgentId> {
    set e | e in EntriesOf(byTask) :: e.agentId
  }

  lemma AgentsAreKeys(byTask: ByTask, byAgent: ByAgent)
    requires Agree(byTask, byAgent)
    ensures AgentsOf(byTask) == byAgent.Keys
  {
    forall a ensures a in AgentsOf(byTask) <==> a in byAgent {
      if a in AgentsOf(byTask) {
        var e :| e in EntriesOf(byTask) && e.agentId == a;
        TasksFacts(byTask, a, e.capability);
        assert InTasks(byTask, a, e.capability);
      }
      if a in byAgent {
        var c := byAgent[a][0];
        assert InAgents(byAgent, a, c);
        TasksFacts(byTask, a, c);
      }
    }
  }

  // -------------------------------------------------------------- lookups

  function CapableEntries(byTask: ByTask, task: TaskType, qos: QoS): seq<Entry> {
    StableSort(Filter(if task in byTask then byTask[task] else [], Meeting(qos)), MoreTrusted)
  }

  /** The lookup returns exactly the entries of the task type that meet the bounds, most trusted first. */
  lemma CapableEntriesAreExact(byTask: ByTask, task: TaskType, qos: QoS)
    requires TasksTidy(byTask)
    ensures SortedBy(CapableEntries(byTask, task, qos), MoreTrusted)
    ensures var found := CapableEntries(byTask, task, qos);
            forall i, j :: 0 <= i < j < |found| ==> found[i].trustScore >= found[j].trustScore
    ensures forall e :: e in CapableEntries(byTask, task, qos) <==>
              e in EntriesOf(byTask) && e.capability.taskType == task && MeetsConstraints(e, qos)
  {
    var kept := Filter(if task in byTask then byTask[task] else [], Meeting(qos));
    assert TotalPreorder(MoreTrusted);
    SortSorts(kept, MoreTrusted);
    SortPermutes(kept, MoreTrusted);
    forall e: Entry
      ensures e in EntriesOf(byTask) && e.capability.taskType == task <==> task in byTask && e in byTask[task]
    {
      EntryAt(byTask, e);
    }
  }

  ghost function EntriesUnder(byTask: ByTask, tasks: set<TaskType>): set<Entry> {
    set t, e | t in tasks && t in byTask && e in byTask[t] :: e
  }

  lemma OneMoreTask(byTask: ByTask, tasks: set<TaskType>, t: TaskType)
    requires TasksTidy(byTask) && t in byTask && t !in tasks
    ensures |EntriesUnder(byTask, tasks + {t})| == |EntriesUnder(byTask, tasks)| + |byTask[t]|
  {
    var own := set e | e in byTask[t];
    KeysMakeDistinct(byTask[t], AgentOf);
    assert EntriesUnder(byTask, tasks + {t}) == EntriesUnder(byTask, tasks) + own;
    assert EntriesUnder(byTask, tasks) !! own;
  }

  class CapabilityRegistry {
    var byTaskType: ByTask
    var byAgent: ByAgent

    ghost predicate Valid()
      reads this
    {
      Agree(byTaskType, byAgent)
    }

    ghost function Entries(): set<Entry>
      reads this
    {
      EntriesOf(byTaskType)
    }

    constructor ()
      ensures Valid() && Entries() == {}
    {
      byTaskType, byAgent := map[], map[];
    }

    method Register(agentId: AgentId, capability: Capability, trustScore: real)
      requires Valid()
      modifies this
      ensures Valid()
      ensures Registered(old(Entries()), Entries(), Entry(agentId, capability, trustScore))
      ensures var e, t := Entry(agentId, capability, trustScore), capability.taskType;
              && byTaskType == Pushed(WithoutIn(old(byTaskType), t, agentId), t, e)
              && byAgent == Recorded(old(byAgent), agentId, capability)
    {
      ghost var e := Entry(agentId, capability, trustScore);
      RegisterAgrees(byTaskType, byAgent, e);
      var task := capability.taskType;
      if task in byTaskType {
        byTaskType := byTaskType[task := Filter(byTaskType[task], NotAgent(agentId))];
      }
      var entries := if task in byTaskType then byTaskType[task] else [];
      byTaskType := byTaskType[task := entries + [Entry(agentId, capability, trustScore)]];
      var caps := if agentId in byAgent then byAgent[agentId] else [];
      caps := Filter(caps, NotTask(task));
      byAgent := byAgent[agentId := caps + [capability]];
    }

    method Unregister(agentId: AgentId)
      requires Valid()
      modifies this
      ensures Valid()
      ensures forall e :: e in Entries() <==> e in old(Entries()) && e.agentId != agentId
      ensures byTaskType == WithoutAgent(old(byTaskType), agentId) && byAgent == old(byAgent) - {agentId}
    {
      UnregisterAgrees(byTaskType, byAgent, agentId);
      WithoutAgentFacts(byTaskType, agentId);
      byTaskType := map t | t in byTaskType :: Filter(byTaskType[t], NotAgent(agentId));
      byAgent := byAgent - {agentId};
    }

    method UnregisterCapability(agentId: AgentId, task: TaskType)
      requires Valid()
      modifies this
      ensures Valid()
      ensures forall e :: e in Entries() <==>
          e in old(Entries()) && !(e.agentId == agentId && e.capability.taskType == task)
      ensures byTaskType == WithoutIn(old(byTaskType), task, agentId)
          && byAgent == Forgotten(old(byAgent), agentId, task)
    {
      UnregisterCapabilityAgrees(byTaskType, byAgent, agentId, task);
      WithoutInFacts(byTaskType, task, agentId);
      if task in byTaskType {
        byTaskType := byTaskType[task := Filter(byTaskType[task], NotAgent(agentId))];
      }
      if agentId in byAgent {
        var caps := Filter(byAgent[agentId], NotTask(task));
        byAgent := byAgent[agentId := caps];
        if |caps| == 0 {
          byAgent := byAgent - {agentId};
        }
      }
    }

    method UpdateTrust(agentId: AgentId, task: TaskType, newTrust: real)
      requires Valid()
      modifies this`byTaskType
      ensures Valid()
      ensures byTaskType == WithTrust(old(byTaskType), agentId, task, ClampUnit(newTrust))
      ensures forall e :: e in Entries() <==>
                          exists x :: x in old(Entries()) && e == Reweighed(x, agentId, task, ClampUnit(newTrust))
    {
      WithTrustEntries(byTaskType, agentId, task, ClampUnit(newTrust));
      WithTrustAgrees(byTaskType, byAgent, agentId, task, ClampUnit(newTrust));
      if task in byTaskType {
        var entries := byTaskType[task];
        for i := 0 to |entries|
          invariant |entries| == |byTaskType[task]|
          invariant forall k :: 0 <= k < |entries| ==>
            entries[k] == if k < i && byTaskType[task][k].agentId == agentId
                          then byTaskType[task][k].(trustScore := ClampUnit(newTrust)) else byTaskType[task][k]
        {
          if entries[i].agentId == agentId {
            entries := entries[i := entries[i].(trustScore := ClampUnit(newTrust))];
          }
        }
        assert entries == Retrusted(byTaskType[task], agentId, ClampUnit(newTrust));
        byTaskType := byTaskType[task := entries];
      }
    }

    function FindCapable(task: TaskType, qos: QoS): seq<Entry>
      reads this
    {
      CapableEntries(byTaskType, task, qos)
    }

    /** The number of entries, summed list by list; it equals the total of the per-agent lists. */
    method Len() returns (n: nat)
      requires Valid()
      ensures n == |Entries()| == TotalListed(byAgent)
    {
      n := 0;
      var left := byTaskType.Keys;
      while left != {}
        invariant left <= byTaskType.Keys
        invariant n == |EntriesUnder(byTaskType, byTaskType.Keys - left)|
        decreases left
      {
        var t :| t in left;
        OneMoreTask(byTaskType, byTaskType.Keys - left, t);
        n := n + |byTaskType[t]|;
        assert byTaskType.Keys - (left - {t}) == (byTaskType.Keys - left) + {t};
        left := left - {t};
      }
      assert byTaskType.Keys - left == byTaskType.Keys;
      assert EntriesUnder(byTaskType, byTaskType.Keys) == Entries();
      CountsAgree(byTaskType, byAgent);
    }

    /** The number of agents that have an entry. */
    method AgentCount() returns (n: nat)
      requires Valid()
      ensures n == |AgentsOf(byTaskType)|
    {
      AgentsAreKeys(byTaskType, byAgent);
      n := |byAgent|;
    }
  }
}
