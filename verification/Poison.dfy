/** Poison-task detection over a sliding window. */
module Poison {
  import opened Prelude
  import opened Clock
  import opened Types
  import opened Sequences

  type TaskId = nat

  datatype Config = Config(window: nat, agentThreshold: nat)

  datatype Status = Healthy | Suspected | Poisoned

  datatype Record = Record(agent: AgentId, time: Time)

  /** A window chrono cannot hold falls back to 60 s. */
  function Window(c: Config): nat {
    SpanOr(c.window, 60_000_000_000)
  }

  /** The configured window, or 60 s. */
  lemma WindowMeaning(c: Config)
    ensures c.window <= 9_223_372_036_854_775_807_000_000 ==> Window(c) == c.window
    ensures c.window > 9_223_372_036_854_775_807_000_000 ==> Window(c) == 60 * 1_000_000_000
  {
    SpanIsConfigured(c.window, 60_000_000_000);
  }

  function Within(cutoff: Time): Record -> bool {
    (r: Record) => r.time >= cutoff
  }

  function AgentsIn(records: seq<Record>): set<AgentId> {
    set r | r in records :: r.agent
  }

  // ---------------------------------------------------------- the history

  /** Everything that ever happened, in order. */
  datatype Event =
    | Failure(task: TaskId, agent: AgentId, now: Time)
    | Force(task: TaskId)
    | Clear(task: TaskId)

  /** The agents that failed the task at or after `cutoff`, since it was last cleared; nothing is ever pruned here. */
  ghost function WindowAgents(trace: seq<Event>, task: TaskId, cutoff: Time): set<AgentId> {
    if trace == [] then {}
    else
      var front, last := trace[..|trace| - 1], trace[|trace| - 1];
      if last.task != task || last.Force? then WindowAgents(front, task, cutoff)
      else if last.Clear? then {}
      else WindowAgents(front, task, cutoff) + (if last.now >= cutoff then {last.agent} else {})
  }

  /** Whether the task is poisoned, computed from the whole history. */
  ghost predicate PoisonedBy(c: Config, trace: seq<Event>, task: TaskId) {
    trace != [] &&
    var front, last := trace[..|trace| - 1], trace[|trace| - 1];
    if last.task != task then PoisonedBy(c, front, task)
    else match last
         case Force(_) => true
         case Clear(_) => false
         case Failure(_, _, now) =>
           PoisonedBy(c, front, task) || |WindowAgents(trace, task, now - Window(c))| >= c.agentThreshold
  }

  ghost function Verdict(c: Config, trace: seq<Event>, task: TaskId, now: Time): Status {
    if PoisonedBy(c, trace, task) then Poisoned
    else if |WindowAgents(trace, task, now - Window(c))| >= 2 then Suspected
    else Healthy
  }

  ghost predicate ClearedAfter(trace: seq<Event>, task: TaskId, i: int) {
    exists k :: 0 <= k && i < k < |trace| && trace[k] == Clear(task)
  }

  ghost predicate FailedIn(trace: seq<Event>, task: TaskId, cutoff: Time, agent: AgentId, i: nat) {
    && i < |trace| && trace[i].Failure? && trace[i].task == task && trace[i].agent == agent && trace[i].now >= cutoff
    && !ClearedAfter(trace, task, i)
  }

  lemma ClearedStep(front: seq<Event>, last: Event, task: TaskId, i: nat)
    requires i < |front|
    ensures ClearedAfter(front + [last], task, i) <==> ClearedAfter(front, task, i) || last == Clear(task)
  {
    var trace := front + [last];
    if ClearedAfter(front, task, i) {
      var k :| 0 <= k && i < k < |front| && front[k] == Clear(task);
      assert trace[k] == Clear(task);
    }
    if last == Clear(task) { assert trace[|front|] == Clear(task); }
    if ClearedAfter(trace, task, i) {
      var k :| 0 <= k && i < k < |trace| && trace[k] == Clear(task);
      assert k < |front| ==> front[k] == Clear(task);
    }
  }

  /** In plain words: an agent counts when some failure of its falls in the window and was not cleared since. */
  lemma {:induction false} WindowAgentsMeaning(trace: seq<Event>, task: TaskId, cutoff: Time, agent: AgentId)
    ensures agent in WindowAgents(trace, task, cutoff) <==> exists i :: FailedIn(trace, task, cutoff, agent, i)
  {
    if trace != [] {
      var front, last := trace[..|trace| - 1], trace[|trace| - 1];
      assert trace == front + [last];
      WindowAgentsMeaning(front, task, cutoff, agent);
      forall i: nat | i < |front|
        ensures FailedIn(trace, task, cutoff, agent, i) <==>
            FailedIn(front, task, cutoff, agent, i) && last != Clear(task)
      {
        ClearedStep(front, last, task, i);
      }
      if exists i :: FailedIn(front, task, cutoff, agent, i) {
        var i :| FailedIn(front, task, cutoff, agent, i);
        assert last != Clear(task) ==> FailedIn(trace, task, cutoff, agent, i);
      }
      assert FailedIn(trace, task, cutoff, agent, |front|) <==>
        last.Failure? && last.task == task && last.agent == agent && last.now >= cutoff;
    }
  }

  /** An agent failed the task within the window that ends now, and was not cleared since. */
  ghost predicate FailedLately(c: Config, trace: seq<Event>, task: TaskId, now: Time, agent: AgentId) {
    var cutoff := now - Window(c);
    exists i :: FailedIn(trace, task, cutoff, agent, i)
  }

  ghost predicate TwoFailedLately(c: Config, trace: seq<Event>, task: TaskId, now: Time) {
    exists a, b :: a != b && FailedLately(c, trace, task, now, a) && FailedLately(c, trace, task, now, b)
  }

  lemma {:induction false} TwoMembers(s: set<AgentId>)
    ensures |s| >= 2 <==> exists a, b :: a in s && b in s && a != b
  {
    if |s| >= 2 {
      var a :| a in s;
      assert |s - {a}| >= 1;
      var b :| b in s - {a};
    }
    if a, b :| a in s && b in s && a != b {
      SubsetCardinality({a, b}, s);
    }
  }

  /** In plain words: suspected, while not poisoned, when two different agents failed the task lately. */
  lemma VerdictMeaning(c: Config, trace: seq<Event>, task: TaskId, now: Time)
    ensures var v := Verdict(c, trace, task, now);
            && (v == Poisoned <==> PoisonedBy(c, trace, task))
            && (v == Suspected <==> !PoisonedBy(c, trace, task) && TwoFailedLately(c, trace, task, now))
  {
    var lately := WindowAgents(trace, task, now - Window(c));
    TwoMembers(lately);
    hide WindowAgents, PoisonedBy, FailedIn, Window;
    forall a ensures a in lately <==> FailedLately(c, trace, task, now, a) {
      WindowAgentsMeaning(trace, task, now - Window(c), a);
    }
  }

  /** Event `i` poisons the task, by force or by filling its window, and it was not cleared since. */
  ghost predicate PoisonsAt(c: Config, trace: seq<Event>, task: TaskId, i: nat) {
    && i < |trace| && !ClearedAfter(trace, task, i) && trace[i].task == task && !trace[i].Clear?
    && (trace[i].Failure? ==> |WindowAgents(trace[..i + 1], task, trace[i].now - Window(c))| >= c.agentThreshold)
  }

  /** In plain words: a task is poisoned when some uncleared event poisoned it. */
  lemma {:induction false} PoisonedMeaning(c: Config, trace: seq<Event>, task: TaskId)
    ensures PoisonedBy(c, trace, task) <==> exists i :: PoisonsAt(c, trace, task, i)
  {
    hide WindowAgents, Window;
    if trace != [] {
      var front, last := trace[..|trace| - 1], trace[|trace| - 1];
      assert trace == front + [last];
      PoisonedMeaning(c, front, task);
      forall i: nat | i < |front|
        ensures PoisonsAt(c, trace, task, i) <==> PoisonsAt(c, front, task, i) && last != Clear(task)
      {
        ClearedStep(front, last, task, i);
        assert trace[..i + 1] == front[..i + 1];
      }
      if exists i :: PoisonsAt(c, front, task, i) {
        var i :| PoisonsAt(c, front, task, i);
        assert last != Clear(task) ==> PoisonsAt(c, trace, task, i);
      }
      assert trace[..|front| + 1] == trace;
      assert PoisonsAt(c, trace, task, |front|) <==>
        last.task == task && !last.Clear? &&
        (last.Failure? ==> |WindowAgents(trace, task, last.now - Window(c))| >= c.agentThreshold);
    }
  }

  /** Only a clear un-poisons a task. */
  lemma {:induction false} OnlyClearUnpoisons(c: Config, trace: seq<Event>, later: seq<Event>, task: TaskId)
    requires PoisonedBy(c, trace, task) && Clear(task) !in later
    ensures PoisonedBy(c, trace + later, task)
  {
    if later == [] {
      assert trace + later == trace;
    } else {
      var front := later[..|later| - 1];
      OnlyClearUnpoisons(c, trace, front, task);
      assert (trace + later)[..|trace + later| - 1] == trace + front;
      assert later[|later| - 1] in later;
    }
  }

  lemma {:induction false} LaterCutoffFewer(trace: seq<Event>, task: TaskId, a: Time, b: Time)
    requires a <= b
    ensures WindowAgents(trace, task, b) <= WindowAgents(trace, task, a)
  {
    if trace != [] { LaterCutoffFewer(trace[..|trace| - 1], task, a, b); }
  }

  // ------------------------------------------------------------- pruning

  /** From `from` on, the records answer every cutoff as the full history does. */
  ghost predicate Tracks(records: seq<Record>, trace: seq<Event>, task: TaskId, from: Time) {
    forall cutoff :: cutoff >= from ==> AgentsIn(Filter(records, Within(cutoff))) == WindowAgents(trace, task, cutoff)
  }

  function Pruned(records: seq<Record>, r: Record, cutoff: Time): seq<Record> {
    Filter(records + [r], Within(cutoff))
  }

  lemma LastEvent(trace: seq<Event>, e: Event)
    ensures (trace + [e])[..|trace + [e]| - 1] == trace && (trace + [e])[|trace + [e]| - 1] == e
  {}

  /** Recording a failure and pruning to the current window keeps the tracking from the new cutoff on. */
  lemma RecordTracks(records: seq<Record>, trace: seq<Event>, task: TaskId, agent: AgentId, now: Time, from: Time,
                     cut: Time)
    requires Tracks(records, trace, task, from) && from <= cut
    ensures Tracks(Pruned(records, Record(agent, now), cut), trace + [Failure(task, agent, now)], task, cut)
  {}

  /** The distinct agents in the pruned list are those of the whole window. */
  lemma PrunedCount(records: seq<Record>, trace: seq<Event>, task: TaskId, cut: Time)
    requires Tracks(records, trace, task, cut) && forall r :: r in records ==> r.time >= cut
    ensures AgentsIn(records) == WindowAgents(trace, task, cut)
  {}

  /** An event of another task changes nothing for this one. */
  lemma OtherTask(c: Config, trace: seq<Event>, e: Event, task: TaskId)
    requires e.task != task
    ensures forall cutoff :: WindowAgents(trace + [e], task, cutoff) == WindowAgents(trace, task, cutoff)
    ensures PoisonedBy(c, trace + [e], task) <==> PoisonedBy(c, trace, task)
  {}

  lemma FewerLater(c: Config, trace: seq<Event>, task: TaskId, a: Time, b: Time)
    requires a <= b
    ensures |WindowAgents(trace, task, b)| <= |WindowAgents(trace, task, a)|
  {
    LaterCutoffFewer(trace, task, a, b);
    SubsetCardinality(WindowAgents(trace, task, b), WindowAgents(trace, task, a));
  }

  // ------------------------------------------------------------- detector

  /**
   * What is known of an unpoisoned task: its list tracks the history, and while it has one the current window
   * is below the threshold.
   */
  ghost predicate Sound(c: Config, failures: map<TaskId, seq<Record>>, trace: seq<Event>, clock: Time, task: TaskId) {
    && Tracks(RecordsOf(failures, task), trace, task, clock - Window(c))
    && (task in failures ==> |WindowAgents(trace, task, clock - Window(c))| < c.agentThreshold)
  }

  function RecordsOf(failures: map<TaskId, seq<Record>>, task: TaskId): seq<Record> {
    if task in failures then failures[task] else []
  }

  ghost predicate Invariant(c: Config, failures: map<TaskId, seq<Record>>, poisoned: set<TaskId>, trace: seq<Event>,
                            clock: Time)
  {
    && (forall task :: task in poisoned <==> PoisonedBy(c, trace, task))
    && (forall task :: task !in poisoned ==> Sound(c, failures, trace, clock, task))
  }

  /** Time passing and other tasks' events keep what is known of a task. */
  lemma SoundElsewhere(c: Config, failures: map<TaskId, seq<Record>>, failures': map<TaskId, seq<Record>>,
                       trace: seq<Event>, e: Event, clock: Time, now: Time, task: TaskId)
    requires Sound(c, failures, trace, clock, task) && clock <= now && e.task != task
    requires RecordsOf(failures', task) == RecordsOf(failures, task) && (task in failures' <==> task in failures)
    ensures Sound(c, failures', trace + [e], now, task)
  {
    hide WindowAgents, PoisonedBy, Window, Filter, AgentsIn, Within;
    OtherTask(c, trace, e, task);
    FewerLater(c, trace, task, clock - Window(c), now - Window(c));
  }

  lemma FailureStep(c: Config, trace: seq<Event>, task: TaskId, agent: AgentId, now: Time)
    ensures var e := Failure(task, agent, now);
            PoisonedBy(c, trace + [e], task) <==>
            PoisonedBy(c, trace, task) || |WindowAgents(trace + [e], task, now - Window(c))| >= c.agentThreshold
  {}

  lemma RecordKeeps(c: Config, failures: map<TaskId, seq<Record>>, poisoned: set<TaskId>, trace: seq<Event>,
                    clock: Time, task: TaskId, agent: AgentId, now: Time)
    requires Invariant(c, failures, poisoned, trace, clock) && clock <= now && task !in poisoned
    ensures var records := Pruned(RecordsOf(failures, task), Record(agent, now), now - Window(c));
            var trace' := trace + [Failure(task, agent, now)];
            var n := |AgentsIn(records)|;
            && Invariant(c, failures[task := records], if n >= c.agentThreshold then poisoned + {task} else poisoned,
                         trace', now)
            && AgentsIn(records) == WindowAgents(trace', task, now - Window(c))
  {
    var cut, e := now - Window(c), Failure(task, agent, now);
    var records := Pruned(RecordsOf(failures, task), Record(agent, now), cut);
    var trace', failures' := trace + [e], failures[task := records];
    hide PoisonedBy, WindowAgents, Tracks, Window, AgentsIn;
    assert Sound(c, failures, trace, clock, task);
    RecordTracks(RecordsOf(failures, task), trace, task, agent, now, clock - Window(c), cut);
    PrunedCount(records, trace', task, cut);
    FailureStep(c, trace, task, agent, now);
    hide Sound, Pruned;
    forall t | t != task ensures PoisonedBy(c, trace', t) <==> PoisonedBy(c, trace, t) {
      OtherTask(c, trace, e, t);
    }
    forall t | t != task && t !in poisoned ensures Sound(c, failures', trace', now, t) {
      SoundElsewhere(c, failures, failures', trace, e, clock, now, t);
    }
    if |AgentsIn(records)| < c.agentThreshold {
      assert Sound(c, failures', trace', now, task) by { SoundNow(c, failures', trace', now, task); }
    }
  }

  lemma SoundNow(c: Config, failures: map<TaskId, seq<Record>>, trace: seq<Event>, now: Time, task: TaskId)
    requires task in failures && Tracks(failures[task], trace, task, now - Window(c))
    requires |WindowAgents(trace, task, now - Window(c))| < c.agentThreshold
    ensures Sound(c, failures, trace, now, task)
  {}

  /** A failure of a poisoned task is not recorded and need not be. */
  lemma IgnoredFailure(c: Config, failures: map<TaskId, seq<Record>>, poisoned: set<TaskId>, trace: seq<Event>,
                       clock: Time, e: Event)
    requires Invariant(c, failures, poisoned, trace, clock) && e.Failure? && e.task in poisoned && clock <= e.now
    ensures Invariant(c, failures, poisoned, trace + [e], e.now)
  {
    LastEvent(trace, e);
    assert PoisonedBy(c, trace + [e], e.task);
    hide PoisonedBy, Sound;
    forall t | t != e.task ensures PoisonedBy(c, trace + [e], t) <==> PoisonedBy(c, trace, t) {
      OtherTask(c, trace, e, t);
    }
    forall t | t !in poisoned ensures Sound(c, failures, trace + [e], e.now, t) {
      SoundElsewhere(c, failures, failures, trace, e, clock, e.now, t);
    }
  }

  lemma ForceKeeps(c: Config, failures: map<TaskId, seq<Record>>, poisoned: set<TaskId>, trace: seq<Event>,
                   clock: Time, task: TaskId)
    requires Invariant(c, failures, poisoned, trace, clock)
    ensures Invariant(c, failures, poisoned + {task}, trace + [Force(task)], clock)
  {}

  lemma ClearKeeps(c: Config, failures: map<TaskId, seq<Record>>, poisoned: set<TaskId>, trace: seq<Event>,
                   clock: Time, task: TaskId)
    requires Invariant(c, failures, poisoned, trace, clock)
    ensures Invariant(c, failures - {task}, poisoned - {task}, trace + [Clear(task)], clock)
  {}

  /** Reading the status of an unpoisoned task: its window is below the threshold whenever it has records. */
  lemma StatusOfUnpoisoned(c: Config, failures: map<TaskId, seq<Record>>, trace: seq<Event>, clock: Time,
                           task: TaskId, now: Time)
    requires Sound(c, failures, trace, clock, task) && clock <= now
    ensures AgentsIn(Filter(RecordsOf(failures, task), Within(now - Window(c)))) ==
            WindowAgents(trace, task, now - Window(c))
    ensures task in failures ==> |WindowAgents(trace, task, now - Window(c))| < c.agentThreshold
    ensures task !in failures ==> WindowAgents(trace, task, now - Window(c)) == {}
  {
    hide WindowAgents, PoisonedBy, Window, Within;
    FewerLater(c, trace, task, clock - Window(c), now - Window(c));
    assert Filter<Record>([], Within(now - Window(c))) == [];
  }

  class PoisonDetector {
    const config: Config
    var failures: map<TaskId, seq<Record>>
    var poisoned: set<TaskId>
    /** Everything that happened, and the latest clock reading. */
    ghost var trace: seq<Event>
    ghost var clock: Time

    ghost predicate Valid()
      reads this
    {
      Invariant(config, failures, poisoned, trace, clock)
    }

    constructor (config: Config, ghost start: Time)
      ensures Valid() && this.config == config && trace == [] && clock == start
    {
      this.config := config;
      failures, poisoned, trace, clock := map[], {}, [], start;
    }

    /** The verdict returned from the pruned list is the one of the full history. */
    method RecordFailure(task: TaskId, agent: AgentId, now: Time) returns (status: Status)
      requires Valid() && clock <= now
      modifies this
      ensures Valid() && clock == now && trace == old(trace) + [Failure(task, agent, now)]
      ensures status == Verdict(config, trace, task, now)
    {
      hide Sound, WindowAgents, PoisonedBy;
      ghost var e := Failure(task, agent, now);
      if task in poisoned {
        IgnoredFailure(config, failures, poisoned, trace, clock, e);
        trace, clock := trace + [e], now;
        return Poisoned;
      }
      RecordKeeps(config, failures, poisoned, trace, clock, task, agent, now);
      var records := if task in failures then failures[task] else [];
      records := records + [Record(agent, now)];
      var cutoff := now - Window(config);
      records := Filter(records, Within(cutoff));
      var n := |AgentsIn(records)|;
      failures := failures[task := records];
      trace, clock := trace + [e], now;
      if n >= config.agentThreshold {
        poisoned := poisoned + {task};
        status := Poisoned;
      } else if n >= 2 {
        status := Suspected;
      } else {
        status := Healthy;
      }
    }

    /** A query at any later time agrees with the full history, and says poisoned exactly when `IsPoisoned` does. */
    method StatusOf(task: TaskId, now: Time) returns (status: Status)
      requires Valid() && clock <= now
      ensures status == Verdict(config, trace, task, now)
      ensures status == Poisoned <==> task in poisoned
    {
      hide Sound, WindowAgents, PoisonedBy;
      if task in poisoned { return Poisoned; }
      StatusOfUnpoisoned(config, failures, trace, clock, task, now);
      if task !in failures { return Healthy; }
      var distinct := |AgentsIn(Filter(failures[task], Within(now - Window(config))))|;
      status := if distinct >= config.agentThreshold then Poisoned else if distinct >= 2 then Suspected else Healthy;
    }

    method IsPoisoned(task: TaskId) returns (b: bool)
      requires Valid()
      ensures b <==> PoisonedBy(config, trace, task)
    {
      b := task in poisoned;
    }

    method ForcePoison(task: TaskId)
      requires Valid()
      modifies this
      ensures Valid() && clock == old(clock) && trace == old(trace) + [Force(task)]
    {
      ForceKeeps(config, failures, poisoned, trace, clock, task);
      poisoned := poisoned + {task};
      trace := trace + [Force(task)];
    }

    method ClearTask(task: TaskId)
      requires Valid()
      modifies this
      ensures Valid() && clock == old(clock) && trace == old(trace) + [Clear(task)]
    {
      ClearKeeps(config, failures, poisoned, trace, clock, task);
      poisoned := poisoned - {task};
      failures := failures - {task};
      trace := trace + [Clear(task)];
    }
  }
}
