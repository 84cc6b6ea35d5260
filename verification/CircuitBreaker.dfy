/** The three-state circuit breaker, per remote agent. */
module CircuitBreaking {
  import opened Clock
  import opened Types

  datatype CircuitState = Closed | Open | HalfOpen

  datatype Config = Config(threshold: nat, cooldown: nat)

  /** A cooldown chrono cannot hold falls back to 30 s. */
  function Cooldown(c: Config): nat {
    SpanOr(c.cooldown, 30_000_000_000)
  }

  /** The configured cooldown, or 30 s. */
  lemma CooldownMeaning(c: Config)
    ensures c.cooldown <= 9_223_372_036_854_775_807_000_000 ==> Cooldown(c) == c.cooldown
    ensures c.cooldown > 9_223_372_036_854_775_807_000_000 ==> Cooldown(c) == 30 * 1_000_000_000
  {
    SpanIsConfigured(c.cooldown, 30_000_000_000);
  }

  datatype Breaker = Breaker(
    state: CircuitState, consecutiveFailures: nat, lastStateChange: Time, totalFailures: nat, totalSuccesses: nat)

  function NewBreaker(now: Time): Breaker {
    Breaker(Closed, 0, now, 0, 0)
  }

  datatype Event = Allow(now: Time) | Success(now: Time) | Failure(now: Time) | Reset(now: Time)

  // ----------------------------------------------------- one breaker's life

  function Step(c: Config, b: Breaker, e: Event): Breaker {
    match e
    case Allow(now) =>
      if b.state == Open && now - b.lastStateChange >= Cooldown(c)
      then b.(state := HalfOpen, lastStateChange := now)
      else b
    case Success(now) =>
      var counted := b.(totalSuccesses := b.totalSuccesses + 1);
      (match b.state
       case HalfOpen => counted.(state := Closed, consecutiveFailures := 0, lastStateChange := now)
       case Closed => counted.(consecutiveFailures := 0)
       case Open => counted)
    case Failure(now) =>
      var counted := b.(consecutiveFailures := b.consecutiveFailures + 1, totalFailures := b.totalFailures + 1);
      (match b.state
       case Closed =>
         if counted.consecutiveFailures >= c.threshold then counted.(state := Open, lastStateChange := now) else counted
       case HalfOpen => counted.(state := Open, lastStateChange := now)
       case Open => counted)
    case Reset(now) => b.(state := Closed, consecutiveFailures := 0, lastStateChange := now)
  }

  /** A request is let through unless the circuit is open within its cooldown. */
  predicate Grants(c: Config, b: Breaker, now: Time) {
    b.state != Open || now - b.lastStateChange >= Cooldown(c)
  }

  function Run(c: Config, events: seq<Event>): Breaker {
    if events == [] then NewBreaker(0) else Step(c, Run(c, events[..|events| - 1]), events[|events| - 1])
  }

  lemma RunNext(c: Config, events: seq<Event>, i: nat)
    requires i < |events|
    ensures Run(c, events[..i + 1]) == Step(c, Run(c, events[..i]), events[i])
  {
    assert events[..i + 1][..i] == events[..i];
  }

  /** A threshold of zero trips on the first failure, just like a threshold of one. */
  function Trip(c: Config): nat {
    if c.threshold >= 1 then c.threshold else 1
  }

  lemma TripMeaning(c: Config)
    ensures c.threshold == 0 ==> Trip(c) == 1
    ensures c.threshold > 0 ==> Trip(c) == c.threshold
  {}

  /** In every run the circuit is closed exactly while the consecutive failures stay below the threshold. */
  lemma {:induction false} ClosedBelowThreshold(c: Config, events: seq<Event>)
    ensures Run(c, events).state == Closed <==> Run(c, events).consecutiveFailures < Trip(c)
  {
    if events != [] { ClosedBelowThreshold(c, events[..|events| - 1]); }
  }

  function CountFailures(events: seq<Event>): nat {
    if events == [] then 0
    else CountFailures(events[..|events| - 1]) + (if events[|events| - 1].Failure? then 1 else 0)
  }

  function CountSuccesses(events: seq<Event>): nat {
    if events == [] then 0
    else CountSuccesses(events[..|events| - 1]) + (if events[|events| - 1].Success? then 1 else 0)
  }

  lemma {:induction false} TotalsCount(c: Config, events: seq<Event>)
    ensures Run(c, events).totalFailures == CountFailures(events)
    ensures Run(c, events).totalSuccesses == CountSuccesses(events)
  {
    if events != [] { TotalsCount(c, events[..|events| - 1]); }
  }

  /** Event `i` clears the count: a reset, or a success while the circuit is not open. */
  ghost predicate HealsAt(c: Config, events: seq<Event>, i: nat)
    requires i < |events|
  {
    events[i].Reset? || (events[i].Success? && Run(c, events[..i]).state != Open)
  }

  /** The counter is the number of failures since the last event that clears it. */
  lemma {:induction false} CounterMeaning(c: Config, events: seq<Event>, h: nat)
    requires h <= |events| && (h == 0 || HealsAt(c, events, h - 1))
    requires forall i :: h <= i < |events| ==> !HealsAt(c, events, i)
    ensures Run(c, events).consecutiveFailures == CountFailures(events[h..])
    decreases |events|
  {
    if h < |events| {
      var front, last := events[..|events| - 1], events[|events| - 1];
      forall i | 0 <= i < |front| ensures HealsAt(c, front, i) <==> HealsAt(c, events, i) {
        assert front[..i] == events[..i];
      }
      CounterMeaning(c, front, h);
      assert events[h..][..|events[h..]| - 1] == front[h..];
      assert !HealsAt(c, events, |events| - 1);
    } else if h > 0 {
      assert HealsAt(c, events, |events| - 1);
    }
  }

  /** Where the failures since the last healing event begin. */
  ghost function LastHeal(c: Config, events: seq<Event>): (h: nat)
    ensures h <= |events|
  {
    if events == [] then 0
    else if HealsAt(c, events, |events| - 1) then |events|
    else LastHeal(c, events[..|events| - 1])
  }

  lemma {:induction false} LastHealIs(c: Config, events: seq<Event>)
    ensures var h := LastHeal(c, events);
            && (h == 0 || HealsAt(c, events, h - 1))
            && forall i :: h <= i < |events| ==> !HealsAt(c, events, i)
  {
    if events != [] && !HealsAt(c, events, |events| - 1) {
      var front := events[..|events| - 1];
      LastHealIs(c, front);
      forall i | 0 <= i < |front| ensures HealsAt(c, front, i) <==> HealsAt(c, events, i) {
        assert front[..i] == events[..i];
      }
    }
  }

  /** The failures since the last healing event, counted on the events themselves. */
  ghost function RecentFailures(c: Config, events: seq<Event>): nat {
    CountFailures(events[LastHeal(c, events)..])
  }

  lemma CounterIsRecent(c: Config, events: seq<Event>)
    ensures Run(c, events).consecutiveFailures == RecentFailures(c, events)
  {
    LastHealIs(c, events);
    CounterMeaning(c, events, LastHeal(c, events));
  }

  lemma StepOpensIff(c: Config, b: Breaker, e: Event)
    requires b.state == Closed <==> b.consecutiveFailures < Trip(c)
    ensures b.state != Open && Step(c, b, e).state == Open <==>
            e.Failure? && (b.state == HalfOpen || (b.state == Closed && b.consecutiveFailures + 1 == Trip(c)))
  {}

  /**
   * What opens a circuit: a failure, either while the circuit is half-open, or while it is closed and this is the
   * failure that reaches the threshold, counted since the last healing event.
   */
  lemma OpensIff(c: Config, events: seq<Event>, i: nat)
    requires i < |events|
    ensures OpensAt(c, events, i) <==>
            && events[i].Failure?
            && (|| Run(c, events[..i]).state == HalfOpen
                || (Run(c, events[..i]).state == Closed && RecentFailures(c, events[..i]) + 1 == Trip(c)))
  {
    hide Run, Step, RecentFailures;
    ClosedBelowThreshold(c, events[..i]);
    CounterIsRecent(c, events[..i]);
    RunNext(c, events, i);
    StepOpensIff(c, Run(c, events[..i]), events[i]);
  }

  /** What closes a circuit that is not closed: a reset, or a success while it is half-open. */
  lemma ClosesIff(c: Config, events: seq<Event>, i: nat)
    requires i < |events| && Run(c, events[..i]).state != Closed
    ensures Run(c, events[..i + 1]).state == Closed <==>
            events[i].Reset? || (events[i].Success? && Run(c, events[..i]).state == HalfOpen)
  {
    hide Run;
    RunNext(c, events, i);
  }

  /** What half-opens a circuit: a request that is granted while it is open. */
  lemma HalfOpensIff(c: Config, events: seq<Event>, i: nat)
    requires i < |events| && Run(c, events[..i]).state != HalfOpen
    ensures Run(c, events[..i + 1]).state == HalfOpen <==>
            events[i].Allow? && Run(c, events[..i]).state == Open && Grants(c, Run(c, events[..i]), events[i].now)
  {
    hide Run;
    RunNext(c, events, i);
  }

  // --------------------------------------------------- the cooldown window

  ghost predicate ClockForward(events: seq<Event>) {
    forall i, j :: 0 <= i <= j < |events| ==> events[i].now <= events[j].now
  }

  /** Event `i` opens the circuit. */
  ghost predicate OpensAt(c: Config, events: seq<Event>, i: nat) {
    i < |events| && Run(c, events[..i]).state != Open && Run(c, events[..i + 1]).state == Open
  }

  ghost predicate NoResetBetween(events: seq<Event>, i: nat, j: nat) {
    forall k :: i < k < j && k < |events| ==> !events[k].Reset?
  }

  /** Event `i` opened the circuit, nobody reset it before `j`, and its cooldown still runs at time `now`. */
  ghost predicate Blocks(c: Config, events: seq<Event>, i: nat, j: nat, now: Time) {
    i < j && OpensAt(c, events, i) && NoResetBetween(events, i, j) && now - events[i].now < Cooldown(c)
  }

  lemma OpenStep(c: Config, b: Breaker, e: Event)
    requires b.state == Open && !e.Reset? && e.now - b.lastStateChange < Cooldown(c)
    ensures Step(c, b, e).state == Open && Step(c, b, e).lastStateChange == b.lastStateChange
  {}

  lemma OpeningStep(c: Config, b: Breaker, e: Event)
    requires b.state != Open && Step(c, b, e).state == Open
    ensures Step(c, b, e).lastStateChange == e.now
  {}

  /** While a blocking opening is in force the circuit stays open since that moment. */
  lemma {:induction false} StaysOpen(c: Config, events: seq<Event>, i: nat, j: nat, now: Time)
    requires i < j <= |events| && Blocks(c, events, i, j, now)
    requires forall k :: i < k < j ==> events[k].now <= now
    ensures Run(c, events[..j]).state == Open && Run(c, events[..j]).lastStateChange == events[i].now
    decreases j
  {
    hide Run, Step, Cooldown;
    RunNext(c, events, j - 1);
    if j == i + 1 {
      OpeningStep(c, Run(c, events[..i]), events[i]);
    } else {
      StaysOpen(c, events, i, j - 1, now);
      OpenStep(c, Run(c, events[..j - 1]), events[j - 1]);
    }
  }

  /** An open circuit remembers the event that opened it. */
  lemma {:induction false} OpenHasCause(c: Config, events: seq<Event>, j: nat) returns (i: nat)
    requires j <= |events| && Run(c, events[..j]).state == Open
    ensures i < j && OpensAt(c, events, i) && NoResetBetween(events, i, j)
    ensures Run(c, events[..j]).lastStateChange == events[i].now
    decreases j
  {
    assert events[..0] == [];
    RunNext(c, events, j - 1);
    if Run(c, events[..j - 1]).state == Open {
      i := OpenHasCause(c, events, j - 1);
    } else {
      i := j - 1;
    }
  }

  /**
   * On a forward clock a request is refused exactly when some earlier opening still blocks it: never within
   * the cooldown, always after it.
   */
  lemma RefusedExactlyWithinCooldown(c: Config, events: seq<Event>, j: nat)
    requires ClockForward(events) && j < |events| && events[j].Allow?
    ensures !Grants(c, Run(c, events[..j]), events[j].now) <==> exists i :: Blocks(c, events, i, j, events[j].now)
  {
    var now := events[j].now;
    if !Grants(c, Run(c, events[..j]), now) {
      var i := OpenHasCause(c, events, j);
      assert Blocks(c, events, i, j, now);
    }
    if i :| Blocks(c, events, i, j, now) {
      StaysOpen(c, events, i, j, now);
    }
  }

  // ------------------------------------------------------- probing again

  lemma AllowStep(c: Config, b: Breaker, now: Time)
    ensures Step(c, b, Allow(now)).state == HalfOpen <==>
            b.state == HalfOpen || (b.state == Open && Grants(c, b, now))
  {}

  lemma OnlyAllowHalfOpens(c: Config, b: Breaker, e: Event)
    requires b.state == Open && Step(c, b, e).state == HalfOpen
    ensures e.Allow? && Grants(c, b, e.now)
  {}

  /** Event `i` half-opens the circuit, and only requests follow before `j`. */
  ghost predicate ProbedSince(c: Config, events: seq<Event>, i: nat, j: nat) {
    && i < j <= |events| && Run(c, events[..i]).state == Open && Run(c, events[..i + 1]).state == HalfOpen
    && forall k :: i < k < j ==> events[k].Allow?
  }

  /** The requests granted from event `i` up to, but not including, event `j`. */
  ghost function GrantedBetween(c: Config, events: seq<Event>, i: nat, j: nat): nat
    requires i <= j <= |events|
  {
    if i == j then 0
    else GrantedBetween(c, events, i, j - 1)
         + (if events[j - 1].Allow? && Grants(c, Run(c, events[..j - 1]), events[j - 1].now) then 1 else 0)
  }

  /**
   * Until an outcome or a reset is recorded the half-open circuit stays half-open and grants every request.
   * So exactly one request is granted if and only if only one was made.
   */
  lemma {:induction false} HalfOpenGrantsAll(c: Config, events: seq<Event>, i: nat, j: nat)
    requires ProbedSince(c, events, i, j)
    ensures Run(c, events[..j]).state == HalfOpen
    ensures GrantedBetween(c, events, i, j) == j - i
    decreases j
  {
    hide Run, Step, Grants;
    RunNext(c, events, j - 1);
    if j == i + 1 {
      OnlyAllowHalfOpens(c, Run(c, events[..i]), events[i]);
    } else {
      HalfOpenGrantsAll(c, events, i, j - 1);
      AllowStep(c, Run(c, events[..j - 1]), events[j - 1].now);
      HalfOpenGrants(c, Run(c, events[..j - 1]), events[j - 1].now);
    }
  }

  /**
   * A failed probe restarts the cooldown: on a forward clock every request within the cooldown of the failure,
   * with no reset between, is refused.
   */
  lemma FailedProbeRestarts(c: Config, events: seq<Event>, i: nat, j: nat, k: nat)
    requires ClockForward(events) && ProbedSince(c, events, i, j) && j < k < |events|
    requires events[j].Failure? && events[k].Allow? && NoResetBetween(events, j, k)
    requires events[k].now - events[j].now < Cooldown(c)
    ensures !Grants(c, Run(c, events[..k]), events[k].now)
  {
    hide Run, Cooldown;
    HalfOpenGrantsAll(c, events, i, j);
    OpensIff(c, events, j);
    assert Blocks(c, events, j, k, events[k].now);
    RefusedExactlyWithinCooldown(c, events, k);
  }

  /** A successful probe closes the circuit and clears the count. */
  lemma SuccessfulProbeCloses(c: Config, events: seq<Event>, i: nat, j: nat)
    requires ProbedSince(c, events, i, j) && j < |events| && events[j].Success?
    ensures Run(c, events[..j + 1]).state == Closed && Run(c, events[..j + 1]).consecutiveFailures == 0
  {
    hide Run;
    HalfOpenGrantsAll(c, events, i, j);
    RunNext(c, events, j);
  }

  lemma HalfOpenGrants(c: Config, b: Breaker, now: Time)
    requires b.state == HalfOpen
    ensures Grants(c, b, now)
  {}

  function Failures(n: nat): seq<Event> {
    seq(n, _ => Failure(0))
  }

  lemma {:induction false} FailingRun(c: Config, n: nat)
    requires n <= Trip(c)
    ensures Run(c, Failures(n)).consecutiveFailures == n
    ensures Run(c, Failures(n)).state == if n < Trip(c) then Closed else Open
    ensures n == Trip(c) ==> Run(c, Failures(n)).lastStateChange == 0
  {
    if n > 0 {
      FailingRun(c, n - 1);
      assert Failures(n)[..n - 1] == Failures(n - 1);
    }
  }

  /** Every configuration has such a run, on a forward clock: trip the circuit, wait out the cooldown, ask twice. */
  lemma TwoProbesGranted(c: Config) returns (events: seq<Event>, i: nat)
    ensures ClockForward(events) && |events| == i + 2 && ProbedSince(c, events, i, i + 2)
    ensures GrantedBetween(c, events, i, i + 2) == 2
  {
    i := Trip(c);
    var ask := Allow(Cooldown(c));
    events := Failures(i) + [ask, ask];
    FailingRun(c, i);
    assert events[..i] == Failures(i) && events[..i + 1][..i] == Failures(i);
    assert events[i] == events[i + 1] == ask;
    assert ClockForward(events);
    hide Failures, ClockForward;
    RunNext(c, events, i);
    AllowStep(c, Run(c, events[..i]), Cooldown(c));
    HalfOpenGrantsAll(c, events, i, i + 2);
  }

  // --------------------------------------------------------------- manager

  /** The stored breaker and the run agree on all that matters; the change time matters only while open. */
  ghost predicate Matches(b: Breaker, r: Breaker) {
    && b.state == r.state && b.consecutiveFailures == r.consecutiveFailures
    && b.totalFailures == r.totalFailures && b.totalSuccesses == r.totalSuccesses
    && (b.state == Open ==> b.lastStateChange == r.lastStateChange)
  }

  lemma MatchesStep(c: Config, b: Breaker, history: seq<Event>, e: Event)
    requires Matches(b, Run(c, history))
    ensures Matches(Step(c, b, e), Run(c, history + [e]))
    ensures e.Allow? ==> (Grants(c, b, e.now) <==> Grants(c, Run(c, history), e.now))
  {}

  ghost function HistoryOf(histories: map<AgentId, seq<Event>>, agent: AgentId): seq<Event> {
    if agent in histories then histories[agent] else []
  }

  class CircuitBreaker {
    const config: Config
    var breakers: map<AgentId, Breaker>
    /** Every call ever made, per agent. */
    ghost var histories: map<AgentId, seq<Event>>

    ghost predicate Valid()
      reads this
    {
      forall agent ::
        Matches(if agent in breakers then breakers[agent] else NewBreaker(0), Run(config, HistoryOf(histories, agent)))
    }

    /** The call is recorded for this agent, and no other agent's history changes. */
    twostate predicate Recorded(agent: AgentId, e: Event)
      reads this
    {
      histories == old(histories)[agent := HistoryOf(old(histories), agent) + [e]]
    }

    constructor (config: Config)
      ensures Valid() && this.config == config && histories == map[]
    {
      this.config := config;
      breakers, histories := map[], map[];
    }

    method AllowRequest(agent: AgentId, now: Time) returns (granted: bool)
      requires Valid()
      modifies this
      ensures Valid() && Recorded(agent, Allow(now))
      ensures granted <==> Grants(config, Run(config, HistoryOf(old(histories), agent)), now)
      ensures agent in breakers && breakers.Keys == old(breakers).Keys + {agent}
    {
      hide Run;
      var b := if agent in breakers then breakers[agent] else NewBreaker(now);
      MatchesStep(config, b, HistoryOf(histories, agent), Allow(now));
      match b.state {
        case Closed => granted := true;
        case HalfOpen => granted := true;
        case Open =>
          if now - b.lastStateChange >= Cooldown(config) {
            b := b.(state := HalfOpen, lastStateChange := now);
            granted := true;
          } else {
            granted := false;
          }
      }
      breakers := breakers[agent := b];
      histories := histories[agent := HistoryOf(histories, agent) + [Allow(now)]];
    }

    function State(agent: AgentId): CircuitState
      reads this
    {
      if agent in breakers then breakers[agent].state else Closed
    }

    method RecordSuccess(agent: AgentId, now: Time)
      requires Valid()
      modifies this
      ensures Valid() && Recorded(agent, Success(now))
      ensures State(agent) == Run(config, HistoryOf(histories, agent)).state
      ensures breakers.Keys == old(breakers).Keys + {agent}
    {
      hide Run;
      var b := if agent in breakers then breakers[agent] else NewBreaker(now);
      MatchesStep(config, b, HistoryOf(histories, agent), Success(now));
      b := b.(totalSuccesses := b.totalSuccesses + 1);
      match b.state {
        case HalfOpen => b := b.(state := Closed, consecutiveFailures := 0, lastStateChange := now);
        case Closed => b := b.(consecutiveFailures := 0);
        case Open =>
      }
      breakers := breakers[agent := b];
      histories := histories[agent := HistoryOf(histories, agent) + [Success(now)]];
    }

    method RecordFailure(agent: AgentId, now: Time)
      requires Valid()
      modifies this
      ensures Valid() && Recorded(agent, Failure(now))
      ensures State(agent) == Run(config, HistoryOf(histories, agent)).state
      ensures breakers.Keys == old(breakers).Keys + {agent}
    {
      hide Run;
      var b := if agent in breakers then breakers[agent] else NewBreaker(now);
      MatchesStep(config, b, HistoryOf(histories, agent), Failure(now));
      b := b.(consecutiveFailures := b.consecutiveFailures + 1, totalFailures := b.totalFailures + 1);
      match b.state {
        case Closed =>
          if b.consecutiveFailures >= config.threshold {
            b := b.(state := Open, lastStateChange := now);
          }
        case HalfOpen => b := b.(state := Open, lastStateChange := now);
        case Open =>
      }
      breakers := breakers[agent := b];
      histories := histories[agent := HistoryOf(histories, agent) + [Failure(now)]];
    }

    /** Resetting an agent nobody has called about creates nothing. */
    method ResetBreaker(agent: AgentId, now: Time)
      requires Valid()
      modifies this
      ensures Valid() && Recorded(agent, Reset(now))
      ensures State(agent) == Closed && breakers.Keys == old(breakers).Keys
    {
      hide Run;
      MatchesStep(config, if agent in breakers then breakers[agent] else NewBreaker(0), HistoryOf(histories, agent),
                  Reset(now));
      if agent in breakers {
        breakers := breakers[agent := breakers[agent].(state := Closed, consecutiveFailures := 0,
                                                       lastStateChange := now)];
      }
      histories := histories[agent := HistoryOf(histories, agent) + [Reset(now)]];
    }

    /** All agents whose circuit is open now. */
    function OpenCircuits(): set<AgentId>
      reads this
    {
      set a | a in breakers && breakers[a].state == Open
    }

    lemma OpenCircuitsAreTheOpenRuns()
      requires Valid()
      ensures forall a :: a in OpenCircuits() <==> Run(config, HistoryOf(histories, a)).state == Open
    {
      hide Run;
    }
  }
}
