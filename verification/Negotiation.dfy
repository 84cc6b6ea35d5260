/** The retry loop of the handshake: probe, collect offers, contract, or relax and try again. */
module Negotiation {
  import opened Prelude
  import opened Types
  import opened Sequences
  import opened Registry
  import opened Handshake

  datatype Config = Config(relaxationFactor: real, maxRetries: nat)

  /** Seconds an offer stays valid. */
  const OFFER_TTL := 5.0

  /** Age in seconds of an agent's offer when it is checked, per attempt. */
  type OfferAges = (nat, AgentId) -> real

  function Unexpired(age: OfferAges, attempt: nat): Entry -> bool {
    (e: Entry) => age(attempt, e.agentId) <= OFFER_TTL
  }

  /** The bounds in force at an attempt, counted from 1. */
  function EffectiveQos(qos: QoS, factor: real, attempt: nat): QoS
    requires -1.0 <= factor && attempt >= 1
  {
    Relaxed(qos, factor, attempt - 1)
  }

  /** The entries whose offers reach the ranking at an attempt. */
  function Live(byTask: ByTask, task: TaskType, qos: QoS, factor: real, age: OfferAges, attempt: nat): seq<Entry>
    requires -1.0 <= factor && attempt >= 1
  {
    Filter(CapableEntries(byTask, task, EffectiveQos(qos, factor, attempt)), Unexpired(age, attempt))
  }

  datatype HandshakeOutcome = HandshakeOutcome(contract: Contract, selected: RankedOffer, attempts: nat,
                                               effectiveQos: QoS)

  /** The offer's own figures, read as bounds. */
  function FiguresOf(o: Offer): QoS {
    QoS(o.capability.estimatedQuality, o.capability.estimatedLatency, o.capability.costPerTask, o.trustScore)
  }

  /**
   * The agreed terms are the requester's bounds exactly when the offer is within them, and the offer's own
   * figures exactly when none of them is strictly inside its bound.
   */
  lemma AgreedIsEffective(from: AgentId, e: Entry, score: real, qos: QoS, id: nat)
    ensures var agreed := CreateContract(from, RankedOffer(OfferOf(e), score), qos, id).agreedQos;
            && (agreed == qos <==> MeetsConstraints(e, qos))
            && (agreed == FiguresOf(OfferOf(e)) <==> Looser(qos, FiguresOf(OfferOf(e))))
  {}

  /** Whatever the offer, the terms take the looser of bound and figure in every respect, and name both parties. */
  lemma AgreedIsLooser(from: AgentId, best: RankedOffer, qos: QoS, id: nat)
    ensures var c, f := CreateContract(from, best, qos, id), FiguresOf(best.offer);
            && Looser(qos, c.agreedQos) && Looser(f, c.agreedQos)
            && forall q :: Looser(qos, q) && Looser(f, q) ==> Looser(c.agreedQos, q)
    ensures var c := CreateContract(from, best, qos, id);
            c.from == from && c.to == best.offer.from && c.contractId == id
  {}

  /** An entry is live at an attempt when it is within the bounds then in force and its offer is at most 5 s old. */
  lemma LiveMeaning(byTask: ByTask, task: TaskType, qos: QoS, factor: real, age: OfferAges, attempt: nat, e: Entry)
    requires -1.0 <= factor && attempt >= 1 && TasksTidy(byTask)
    ensures e in Live(byTask, task, qos, factor, age, attempt) <==>
            && e in EntriesOf(byTask) && e.capability.taskType == task
            && MeetsConstraints(e, Relaxed(qos, factor, attempt - 1)) && age(attempt, e.agentId) <= 5.0
  {
    hide MeetsConstraints, CapableEntries, Relaxed;
    CapableEntriesAreExact(byTask, task, EffectiveQos(qos, factor, attempt));
  }

  /** The winner: an unexpired entry within the effective bounds that no other such entry outscores. */
  ghost predicate Winner(live: seq<Entry>, qos: QoS, best: RankedOffer) {
    && (exists e :: e in live && best.offer == OfferOf(e) && MeetsConstraints(e, qos))
    && best.score == Score(best.offer, qos.maxLatency, qos.maxCost)
    && forall e :: e in live ==> Score(OfferOf(e), qos.maxLatency, qos.maxCost) <= best.score
  }

  function OffersOf(entries: seq<Entry>): seq<Offer> {
    seq(|entries|, i requires 0 <= i < |entries| => OfferOf(entries[i]))
  }

  lemma RankingPicksBest(live: seq<Entry>, q: QoS)
    requires live != [] && forall e :: e in live ==> MeetsConstraints(e, q)
    ensures var ranked := RankOffers(OffersOf(live), q.maxLatency, q.maxCost);
            ranked != [] && Winner(live, q, ranked[0])
  {
    hide Score, RankOffers, MeetsConstraints;
    var offers := OffersOf(live);
    BestOffer(offers, q.maxLatency, q.maxCost);
    var best := RankOffers(offers, q.maxLatency, q.maxCost)[0];
    var i :| 0 <= i < |offers| && offers[i] == best.offer;
    assert live[i] in live;
    forall e | e in live ensures Score(OfferOf(e), q.maxLatency, q.maxCost) <= best.score {
      var k :| 0 <= k < |live| && live[k] == e;
      assert offers[k] in offers;
    }
  }

  lemma RankingFindsWinner(byTask: ByTask, task: TaskType, qos: QoS, factor: real, age: OfferAges, attempt: nat)
    requires -1.0 <= factor && attempt >= 1 && TasksTidy(byTask) && Live(byTask, task, qos, factor, age, attempt) != []
    ensures var live, q := Live(byTask, task, qos, factor, age, attempt), EffectiveQos(qos, factor, attempt);
            var ranked := RankOffers(OffersOf(live), q.maxLatency, q.maxCost);
            ranked != [] && Winner(live, q, ranked[0])
  {
    hide Score, RankOffers, MeetsConstraints, Relaxed, Winner;
    CapableEntriesAreExact(byTask, task, EffectiveQos(qos, factor, attempt));
    RankingPicksBest(Live(byTask, task, qos, factor, age, attempt), EffectiveQos(qos, factor, attempt));
  }

  /** What a successful negotiation reports. */
  ghost predicate Won(byTask: ByTask, task: TaskType, qos: QoS, config: Config, age: OfferAges, o: HandshakeOutcome)
    requires -1.0 <= config.relaxationFactor
  {
    && 1 <= o.attempts <= config.maxRetries + 1
    && Live(byTask, task, qos, config.relaxationFactor, age, o.attempts) != []
    && (forall a :: 1 <= a < o.attempts ==> Live(byTask, task, qos, config.relaxationFactor, age, a) == [])
    && o.effectiveQos == EffectiveQos(qos, config.relaxationFactor, o.attempts)
    && Winner(Live(byTask, task, qos, config.relaxationFactor, age, o.attempts), o.effectiveQos, o.selected)
    && o.contract.to == o.selected.offer.from && o.contract.agreedQos == o.effectiveQos
  }

  /** Some attempt has a live offer. */
  ghost predicate Succeeds(byTask: ByTask, task: TaskType, qos: QoS, config: Config, age: OfferAges)
    requires -1.0 <= config.relaxationFactor
  {
    exists a :: 1 <= a <= config.maxRetries + 1 && Live(byTask, task, qos, config.relaxationFactor, age, a) != []
  }

  class HandshakeCoordinator {
    const requester: AgentId
    const config: Config
    const machine: HandshakeStateMachine

    constructor (requester: AgentId, config: Config)
      ensures this.requester == requester && this.config == config
      ensures fresh(machine) && machine.Valid() && machine.state == Idle
    {
      this.requester, this.config := requester, config;
      machine := new HandshakeStateMachine();
    }

    /** The registry answers a probe with exactly its entries for the task within the bounds, by descending trust. */
    method ProcessProbe(task: TaskType, current: QoS, registry: CapabilityRegistry) returns (matching: seq<Entry>)
      requires registry.Valid()
      ensures forall e :: e in matching <==>
                          e in registry.Entries() && e.capability.taskType == task && MeetsConstraints(e, current)
      ensures forall i, j :: 0 <= i < j < |matching| ==> matching[i].trustScore >= matching[j].trustScore
      ensures matching == CapableEntries(registry.byTaskType, task, current)
    {
      hide MeetsConstraints, CapableEntries;
      matching := registry.FindCapable(task, current);
      CapableEntriesAreExact(registry.byTaskType, task, current);
    }

    /** The contracting phase of an attempt that has live offers. */
    method Conclude(task: TaskType, ghost qos: QoS, byTask: ByTask, age: OfferAges, attempt: nat, current: QoS,
                     live: seq<Entry>, id: nat)
      returns (o: HandshakeOutcome)
      requires -1.0 <= config.relaxationFactor && TasksTidy(byTask) && attempt >= 1
      requires current == EffectiveQos(qos, config.relaxationFactor, attempt)
      requires live == Live(byTask, task, qos, config.relaxationFactor, age, attempt) && live != []
      requires machine.Valid() && machine.state == ProbeSent
      modifies machine
      ensures machine.Valid() && machine.state == Contracted
      ensures machine.contractId == Some(id) && machine.selectedAgent == Some(o.contract.to)
      ensures o.attempts == attempt && o.effectiveQos == current && Winner(live, current, o.selected)
      ensures o.contract == CreateContract(requester, o.selected, current, id) && o.contract.agreedQos == current
    {
      hide Live, EffectiveQos, RankOffers, MeetsConstraints, CapableEntries, Score;
      var refused := machine.OnOffersReceived();
      var ranked := RankOffers(OffersOf(live), current.maxLatency, current.maxCost);
      RankingFindsWinner(byTask, task, qos, config.relaxationFactor, age, attempt);
      var best := ranked[0];
      var contract := CreateContract(requester, best, current, id);
      ghost var e :| e in live && best.offer == OfferOf(e) && MeetsConstraints(e, current);
      AgreedIsEffective(requester, e, best.score, current, id);
      assert best == RankedOffer(OfferOf(e), best.score);
      refused := machine.OnContractAccepted(id, best.offer.from);
      o := HandshakeOutcome(contract, best, attempt, current);
    }

    /** One attempt from the idle state: probe, collect the live offers and, if there are any, conclude. */
    method Attempt(task: TaskType, ghost qos: QoS, registry: CapabilityRegistry, age: OfferAges, attempt: nat,
                   current: QoS, id: nat)
      returns (o: Option<HandshakeOutcome>, matched: bool)
      requires -1.0 <= config.relaxationFactor && registry.Valid() && attempt >= 1
      requires current == EffectiveQos(qos, config.relaxationFactor, attempt)
      requires machine.Valid() && machine.state == Idle
      modifies machine
      ensures machine.Valid()
      ensures o.Some? <==> Live(registry.byTaskType, task, qos, config.relaxationFactor, age, attempt) != []
      ensures o.None? ==> machine.state == ProbeSent
      ensures o.None? ==> (matched <==> CapableEntries(registry.byTaskType, task, current) != [])
      ensures o.Some? ==>
                && machine.state == Contracted && machine.contractId == Some(id)
                && machine.selectedAgent == Some(o.value.contract.to)
                && o.value.attempts == attempt && o.value.effectiveQos == current
                && Winner(Live(registry.byTaskType, task, qos, config.relaxationFactor, age, attempt), current,
                          o.value.selected)
                && o.value.contract == CreateContract(requester, o.value.selected, current, id)
                && o.value.contract.agreedQos == current
    {
      hide Live, EffectiveQos, MeetsConstraints, CapableEntries, Winner, TasksTidy, Filter, Relax;
      assert TasksTidy(registry.byTaskType);
      var refused := machine.OnProbeSent();
      var matching := ProcessProbe(task, current, registry);
      var live := Filter(matching, Unexpired(age, attempt));
      LiveIs(registry.byTaskType, task, qos, config.relaxationFactor, age, attempt);
      if |live| == 0 { return None, |matching| > 0; }
      var concluded := Conclude(task, qos, registry.byTaskType, age, attempt, current, live, id);
      return Some(concluded), true;
    }

    /**
     * Negotiate against a registry. From a terminal state it refuses. Otherwise it succeeds exactly when some
     * attempt has an unexpired offer within its bounds; it stops at the first such attempt, takes a top-scoring
     * offer and agrees on the bounds then in force. If there is none it ends in the failed state.
     */
    method Negotiate(task: TaskType, qos: QoS, registry: CapabilityRegistry, age: OfferAges, id: nat)
      returns (r: Result<HandshakeOutcome, HandshakeError>)
      requires machine.Valid() && registry.Valid() && -1.0 <= config.relaxationFactor
      modifies machine
      ensures machine.Valid()
      ensures old(machine.state) == Contracted || old(machine.state) == Failed ==>
                r == Err(InvalidTransition(old(machine.state), Idle)) && machine.state == old(machine.state)
      ensures old(machine.state) != Contracted && old(machine.state) != Failed ==>
                (r.Ok? <==> Succeeds(registry.byTaskType, task, qos, config, age))
      ensures r.Ok? ==> Won(registry.byTaskType, task, qos, config, age, r.value)
      ensures r.Ok? ==> machine.state == Contracted && machine.contractId == Some(id)
                        && machine.selectedAgent == Some(r.value.contract.to) && r.value.contract.from == requester
      ensures old(machine.state) != Contracted && old(machine.state) != Failed && r.Err? ==>
                && machine.state == Failed
                && var final := EffectiveQos(qos, config.relaxationFactor, config.maxRetries + 1);
                   r.error == if CapableEntries(registry.byTaskType, task, final) == []
                              then NoCapableAgents(task) else NegotiationFailed
    {
      hide Live, EffectiveQos, MeetsConstraints, CapableEntries, Winner, Agree, Relax;
      ghost var byTask, f := registry.byTaskType, config.relaxationFactor;
      var current, attempt, maxAttempts := qos, 1, config.maxRetries + 1;
      assert EffectiveQos(qos, f, 1) == qos by { FirstAttempt(qos, f); }
      // Only the first attempt can find the machine in another state: every retry resets it.
      if machine.state != Idle {
        var refused := machine.ResetForRetry();
        if refused.Some? { return Err(refused.value); }
      }
      while true
        invariant 1 <= attempt <= maxAttempts && machine.Valid() && machine.state == Idle
        invariant current == EffectiveQos(qos, f, attempt)
        invariant forall a :: 1 <= a < attempt ==> Live(byTask, task, qos, f, age, a) == []
        decreases maxAttempts - attempt
      {
        var o, matched := Attempt(task, qos, registry, age, attempt, current, id);
        if o.Some? { return Ok(o.value); }
        if attempt == maxAttempts {
          var refused := machine.OnFailure();
          return Err(if matched then NegotiationFailed else NoCapableAgents(task));
        }
        var refused := machine.ResetForRetry();
        NextAttempt(qos, f, attempt);
        current := Relax(current, config.relaxationFactor);
        attempt := attempt + 1;
      }
    }
  }

  lemma FirstAttempt(qos: QoS, factor: real)
    requires -1.0 <= factor
    ensures EffectiveQos(qos, factor, 1) == qos
  {}

  lemma NextAttempt(qos: QoS, factor: real, attempt: nat)
    requires -1.0 <= factor && attempt >= 1
    ensures EffectiveQos(qos, factor, attempt + 1) == Relax(EffectiveQos(qos, factor, attempt), factor)
  {}

  lemma LiveIs(byTask: ByTask, task: TaskType, qos: QoS, factor: real, age: OfferAges, attempt: nat)
    requires -1.0 <= factor && attempt >= 1
    ensures Live(byTask, task, qos, factor, age, attempt) ==
            Filter(CapableEntries(byTask, task, EffectiveQos(qos, factor, attempt)), Unexpired(age, attempt))
  {}

  /** Some registered agent of the task type is within the bounds. */
  ghost predicate HasMatch(byTask: ByTask, task: TaskType, qos: QoS) {
    exists e :: e in EntriesOf(byTask) && e.capability.taskType == task && MeetsConstraints(e, qos)
  }

  lemma LiveWhenFresh(byTask: ByTask, task: TaskType, qos: QoS, factor: real, age: OfferAges, attempt: nat)
    requires -1.0 <= factor && attempt >= 1 && TasksTidy(byTask) && FreshOffers(age)
    ensures Live(byTask, task, qos, factor, age, attempt) != [] <==>
        HasMatch(byTask, task, EffectiveQos(qos, factor, attempt))
  {
    hide EffectiveQos, MeetsConstraints, CapableEntries;
    var q := EffectiveQos(qos, factor, attempt);
    CapableEntriesAreExact(byTask, task, q);
    var live := Live(byTask, task, qos, factor, age, attempt);
    EmptyIffNoMember(live);
  }

  lemma LooserKeepsMatch(byTask: ByTask, task: TaskType, a: QoS, b: QoS)
    requires Looser(a, b) && HasMatch(byTask, task, a)
    ensures HasMatch(byTask, task, b)
  {}

  ghost predicate FreshOffers(age: OfferAges) {
    forall a, id :: age(a, id) <= OFFER_TTL
  }

  /** With fresh offers and bounds that relaxation can only loosen, all that matters is the fully relaxed request. */
  lemma SuccessIffFullyRelaxedMatch(byTask: ByTask, task: TaskType, qos: QoS, config: Config, age: OfferAges)
    requires -1.0 <= config.relaxationFactor && TasksTidy(byTask) && FreshOffers(age)
    requires config.maxRetries == 0 || CanOnlyLoosen(qos, config.relaxationFactor)
    ensures Succeeds(byTask, task, qos, config, age) <==>
            HasMatch(byTask, task, Relaxed(qos, config.relaxationFactor, config.maxRetries))
  {
    hide Live, Relaxed, HasMatch, TasksTidy, CanOnlyLoosen;
    var f, n := config.relaxationFactor, config.maxRetries;
    LiveWhenFresh(byTask, task, qos, f, age, n + 1);
    if a :| 1 <= a <= n + 1 && Live(byTask, task, qos, f, age, a) != [] {
      LiveWhenFresh(byTask, task, qos, f, age, a);
      if a <= n {
        RelaxedLooser(qos, f, a - 1, n);
        LooserKeepsMatch(byTask, task, Relaxed(qos, f, a - 1), Relaxed(qos, f, n));
      }
    }
  }

  // ----------------------------------- exactly when the criterion is right

  /** An agent whose figures sit exactly on the bounds. */
  function OnTheBounds(task: TaskType, q: QoS): Entry {
    Entry(0, Capability(task, q.minQuality, q.maxLatency, q.maxCost), q.minTrust)
  }

  function OnlyEntry(e: Entry): ByTask {
    map[e.capability.taskType := [e]]
  }

  /** A registry with that one agent matches exactly the looser bounds. */
  lemma OnTheBoundsMatches(task: TaskType, q: QoS, r: QoS)
    ensures TasksTidy(OnlyEntry(OnTheBounds(task, q)))
    ensures HasMatch(OnlyEntry(OnTheBounds(task, q)), task, r) <==> Looser(q, r)
  {
    var e := OnTheBounds(task, q);
    var byTask := OnlyEntry(e);
    assert e in byTask[task] && e in EntriesOf(byTask);
    assert forall x :: x in EntriesOf(byTask) ==> x == e;
    assert MeetsConstraints(e, r) <==> Looser(q, r);
  }

  /** Whatever matches `a` matches `b`, in every registry and for every task type. */
  ghost predicate MatchesSurvive(a: QoS, b: QoS) {
    forall byTask: ByTask, task: TaskType :: TasksTidy(byTask) && HasMatch(byTask, task, a) ==>
        HasMatch(byTask, task, b)
  }

  lemma MatchesSurviveIffLooser(a: QoS, b: QoS)
    ensures MatchesSurvive(a, b) <==> Looser(a, b)
  {
    hide HasMatch, Looser, TasksTidy;
    if Looser(a, b) {
      forall byTask: ByTask, task: TaskType | TasksTidy(byTask) && HasMatch(byTask, task, a)
        ensures HasMatch(byTask, task, b)
      {
        LooserKeepsMatch(byTask, task, a, b);
      }
    }
    OnTheBoundsMatches(Analysis, a, a);
    OnTheBoundsMatches(Analysis, a, b);
    assert Looser(a, a) by { LooserItself(a); }
  }

  lemma LooserItself(a: QoS)
    ensures Looser(a, a)
  {}

  /** Relaxation, however often, never loses a match exactly when it can only loosen the bounds. */
  lemma RelaxationKeepsMatchesIff(qos: QoS, factor: real, n: nat)
    requires -1.0 <= factor && n > 0
    ensures MatchesSurvive(qos, Relaxed(qos, factor, n)) <==> CanOnlyLoosen(qos, factor)
  {
    hide MatchesSurvive, Looser, CanOnlyLoosen, Relaxed;
    MatchesSurviveIffLooser(qos, Relaxed(qos, factor, n));
    RelaxedLooserIff(qos, factor, n);
  }

  /** Negotiation succeeds exactly on the fully relaxed matches, in every registry and for every task type. */
  ghost predicate FullRelaxationDecides(qos: QoS, config: Config, age: OfferAges)
    requires -1.0 <= config.relaxationFactor
  {
    forall byTask: ByTask, task: TaskType :: TasksTidy(byTask) ==>
      (Succeeds(byTask, task, qos, config, age) <==>
       HasMatch(byTask, task, Relaxed(qos, config.relaxationFactor, config.maxRetries)))
  }

  /** With fresh offers the fully relaxed bounds decide exactly when there is no retry or relaxation can only loosen. */
  lemma FullRelaxationDecidesIff(qos: QoS, config: Config, age: OfferAges)
    requires -1.0 <= config.relaxationFactor && FreshOffers(age)
    ensures FullRelaxationDecides(qos, config, age) <==>
            config.maxRetries == 0 || CanOnlyLoosen(qos, config.relaxationFactor)
  {
    hide Succeeds, HasMatch, CanOnlyLoosen, TasksTidy, FreshOffers, Relaxed;
    if config.maxRetries == 0 || CanOnlyLoosen(qos, config.relaxationFactor) {
      forall byTask: ByTask, task: TaskType | TasksTidy(byTask)
        ensures Succeeds(byTask, task, qos, config, age) <==>
                HasMatch(byTask, task, Relaxed(qos, config.relaxationFactor, config.maxRetries))
      {
        SuccessIffFullyRelaxedMatch(byTask, task, qos, config, age);
      }
    } else {
      LostMatch(qos, config, age);
    }
  }

  /** Otherwise an agent exactly on the bounds is contracted at once although it fails the fully relaxed bounds. */
  lemma LostMatch(qos: QoS, config: Config, age: OfferAges)
    requires -1.0 <= config.relaxationFactor && FreshOffers(age)
    requires config.maxRetries > 0 && !CanOnlyLoosen(qos, config.relaxationFactor)
    ensures var byTask := OnlyEntry(OnTheBounds(Analysis, qos));
            && TasksTidy(byTask) && Succeeds(byTask, Analysis, qos, config, age)
            && !HasMatch(byTask, Analysis, Relaxed(qos, config.relaxationFactor, config.maxRetries))
  {
    hide HasMatch, CanOnlyLoosen, TasksTidy, Relaxed, Live, Looser;
    var byTask, f := OnlyEntry(OnTheBounds(Analysis, qos)), config.relaxationFactor;
    OnTheBoundsMatches(Analysis, qos, qos);
    LooserItself(qos);
    FirstAttempt(qos, f);
    LiveWhenFresh(byTask, Analysis, qos, f, age, 1);
    assert Live(byTask, Analysis, qos, f, age, 1) != [];
    OnTheBoundsMatches(Analysis, qos, Relaxed(qos, f, config.maxRetries));
    RelaxedLooserIff(qos, f, config.maxRetries);
  }

  /** A run that shows it: one retry, a negative trust floor, and a success that the fully relaxed bounds deny. */
  lemma NegativeBoundCanTighten(age: OfferAges) returns (byTask: ByTask, qos: QoS, config: Config)
    requires FreshOffers(age)
    ensures config == Config(0.1, 1) && qos == QoS(0.0, 1.0, 0.0, -1.0) && TasksTidy(byTask)
    ensures Succeeds(byTask, Analysis, qos, config, age) && !HasMatch(byTask, Analysis, Relaxed(qos, 0.1, 1))
  {
    hide Succeeds, HasMatch, TasksTidy, Relaxed, FreshOffers;
    qos, config := QoS(0.0, 1.0, 0.0, -1.0), Config(0.1, 1);
    byTask := OnlyEntry(OnTheBounds(Analysis, qos));
    LostMatch(qos, config, age);
  }
}
