/** The parts of a handshake: relaxation of bounds, the strict state machine, offer ranking and the contract. */
module Handshake {
  import opened Prelude
  import opened Products
  import opened Types
  import opened Sequences
  import opened Registry

  // ----------------------------------------------------------- relaxation

  function LowerFloor(x: real, factor: real): real {
    Max(Times(x, 1.0 - factor), 0.0)
  }

  function RaiseCeiling(x: real, factor: real): real {
    Times(x, 1.0 + factor)
  }

  /** Loosen every bound by a fraction. A factor below -1 makes the original's latency negative, and it panics. */
  function Relax(q: QoS, factor: real): QoS
    requires -1.0 <= factor
  {
    TimesNonNegative(q.maxLatency, 1.0 + factor);
    QoS(LowerFloor(q.minQuality, factor), RaiseCeiling(q.maxLatency, factor),
        RaiseCeiling(q.maxCost, factor), LowerFloor(q.minTrust, factor))
  }

  function Relaxed(q: QoS, factor: real, times: nat): QoS
    requires -1.0 <= factor
  {
    if times == 0 then q else Relax(Relaxed(q, factor, times - 1), factor)
  }

  lemma RelaxedNext(q: QoS, factor: real, n: nat)
    requires -1.0 <= factor && n > 0
    ensures Relaxed(q, factor, n) == Relax(Relaxed(q, factor, n - 1), factor)
  {}

  /** `b` admits everything `a` admits. */
  ghost predicate Looser(a: QoS, b: QoS) {
    && b.minQuality <= a.minQuality && a.maxLatency <= b.maxLatency
    && a.maxCost <= b.maxCost && b.minTrust <= a.minTrust
  }

  ghost predicate NonNegativeBounds(q: QoS) {
    0.0 <= q.minQuality && 0.0 <= q.maxCost && 0.0 <= q.minTrust
  }

  /**
   * Floors that relaxation does not raise: clamping at zero raises a negative one, a negative factor a
   * positive one.
   */
  predicate FloorLoosens(x: real, factor: real) {
    0.0 <= x && (factor < 0.0 ==> x == 0.0)
  }

  /** Ceilings that relaxation does not lower. */
  predicate CeilingLoosens(x: real, factor: real) {
    (factor > 0.0 ==> 0.0 <= x) && (factor < 0.0 ==> x <= 0.0)
  }

  /** The bounds that relaxation by `factor` can only loosen; for a positive factor, those without a negative bound. */
  predicate CanOnlyLoosen(q: QoS, factor: real) {
    && FloorLoosens(q.minQuality, factor) && FloorLoosens(q.minTrust, factor)
    && CeilingLoosens(q.maxLatency, factor) && CeilingLoosens(q.maxCost, factor)
  }

  lemma PositiveFactorLoosens(q: QoS, factor: real)
    requires 0.0 < factor
    ensures CanOnlyLoosen(q, factor) <==> NonNegativeBounds(q)
  {}

  /** `x` times `1 - factor` and `1 + factor`, with the sign of the difference to `x`. */
  lemma ScaledAround(x: real, factor: real)
    ensures Times(x, 1.0 - factor) == x - Times(x, factor) && Times(x, 1.0 + factor) == x + Times(x, factor)
    ensures (0.0 <= x && 0.0 <= factor) || (x <= 0.0 && factor <= 0.0) ==> 0.0 <= Times(x, factor)
    ensures (0.0 < x && factor < 0.0) || (x < 0.0 && 0.0 < factor) ==> Times(x, factor) < 0.0
    ensures x == 0.0 || factor == 0.0 ==> Times(x, factor) == 0.0
  {
    hide Times;
    TimesSubtracts(x, 1.0, factor);
    TimesAdds(x, 1.0, factor);
    TimesOne(x);
    TimesZero(x);
    TimesZero(factor);
    TimesNegates(x, factor);
    TimesCommutes(x, factor);
    TimesNegates(factor, -x);
    TimesCommutes(factor, -x);
    if 0.0 <= x && 0.0 <= factor { TimesNonNegative(x, factor); }
    if x <= 0.0 && factor <= 0.0 { TimesNonNegative(-factor, -x); }
    if x < 0.0 && 0.0 < factor { TimesStrictlyNegative(x, factor); }
    if 0.0 < x && factor < 0.0 { TimesStrictlyNegative(factor, x); }
  }

  lemma FloorIff(x: real, factor: real)
    ensures LowerFloor(x, factor) <= x <==> FloorLoosens(x, factor)
    ensures FloorLoosens(x, factor) ==> FloorLoosens(LowerFloor(x, factor), factor)
  {
    hide Times;
    ScaledAround(x, factor);
  }

  lemma CeilingIff(x: real, factor: real)
    requires -1.0 <= factor
    ensures x <= RaiseCeiling(x, factor) <==> CeilingLoosens(x, factor)
    ensures CeilingLoosens(x, factor) ==> CeilingLoosens(RaiseCeiling(x, factor), factor)
  {
    hide Times;
    ScaledAround(x, factor);
    if 0.0 <= x { TimesNonNegative(x, 1.0 + factor); }
    if x <= 0.0 { TimesNegative(x, 1.0 + factor); }
  }

  /** One relaxation admits everything admitted before exactly when it can only loosen every bound. */
  lemma RelaxLoosensIff(q: QoS, factor: real)
    requires -1.0 <= factor
    ensures Looser(q, Relax(q, factor)) <==> CanOnlyLoosen(q, factor)
    ensures CanOnlyLoosen(q, factor) ==> CanOnlyLoosen(Relax(q, factor), factor)
  {
    FloorIff(q.minQuality, factor);
    FloorIff(q.minTrust, factor);
    CeilingIff(q.maxCost, factor);
    CeilingIff(q.maxLatency, factor);
    hide LowerFloor, RaiseCeiling, FloorLoosens, CeilingLoosens;
  }

  /** More relaxations admit more. */
  lemma {:induction false} RelaxedLooser(q: QoS, factor: real, i: nat, j: nat)
    requires -1.0 <= factor && CanOnlyLoosen(q, factor) && i <= j
    ensures CanOnlyLoosen(Relaxed(q, factor, j), factor) && Looser(Relaxed(q, factor, i), Relaxed(q, factor, j))
    decreases j
  {
    hide Relax, CanOnlyLoosen;
    if i < j {
      RelaxedLooser(q, factor, i, j - 1);
      RelaxLoosensIff(Relaxed(q, factor, j - 1), factor);
    } else if j > 0 {
      RelaxedLooser(q, factor, j - 1, j - 1);
      RelaxLoosensIff(Relaxed(q, factor, j - 1), factor);
    }
  }

  /** A floor that was raised above `x` once never comes back down to it. */
  ghost predicate StuckAbove(x: real, y: real, factor: real) {
    x < y && 0.0 <= y && (factor < 0.0 || x < 0.0)
  }

  lemma FloorSticks(x: real, y: real, factor: real)
    requires StuckAbove(x, y, factor) || (y == x && !FloorLoosens(x, factor))
    ensures StuckAbove(x, LowerFloor(y, factor), factor)
  {
    hide Times;
    ScaledAround(y, factor);
  }

  /** A ceiling that was lowered below `x` once never comes back up to it. */
  ghost predicate StuckBelow(x: real, y: real, factor: real) {
    y < x && Times(y, factor) <= 0.0
  }

  lemma CeilingSticks(x: real, y: real, factor: real)
    requires -1.0 <= factor
    requires StuckBelow(x, y, factor) || (y == x && !CeilingLoosens(x, factor))
    ensures StuckBelow(x, RaiseCeiling(y, factor), factor)
  {
    hide Times;
    ScaledAround(y, factor);
    TimesAssociates(y, 1.0 + factor, factor);
    TimesCommutes(1.0 + factor, factor);
    TimesAssociates(y, factor, 1.0 + factor);
    TimesNegative(Times(y, factor), 1.0 + factor);
  }

  /** Some bound of `r` is stuck on the wrong side of the same bound of `q`. */
  ghost predicate Stuck(q: QoS, r: QoS, factor: real) {
    || StuckAbove(q.minQuality, r.minQuality, factor) || StuckAbove(q.minTrust, r.minTrust, factor)
    || StuckBelow(q.maxLatency, r.maxLatency, factor) || StuckBelow(q.maxCost, r.maxCost, factor)
  }

  lemma RelaxSticks(q: QoS, r: QoS, factor: real)
    requires -1.0 <= factor && (Stuck(q, r, factor) || (r == q && !CanOnlyLoosen(q, factor)))
    ensures Stuck(q, Relax(r, factor), factor)
  {
    hide LowerFloor, RaiseCeiling, FloorLoosens, CeilingLoosens, StuckAbove, StuckBelow;
    if StuckAbove(q.minQuality, r.minQuality, factor) || (r == q && !FloorLoosens(q.minQuality, factor)) {
      FloorSticks(q.minQuality, r.minQuality, factor);
    } else if StuckAbove(q.minTrust, r.minTrust, factor) || (r == q && !FloorLoosens(q.minTrust, factor)) {
      FloorSticks(q.minTrust, r.minTrust, factor);
    } else if StuckBelow(q.maxLatency, r.maxLatency, factor) || (r == q && !CeilingLoosens(q.maxLatency, factor)) {
      CeilingSticks(q.maxLatency, r.maxLatency, factor);
    } else {
      CeilingSticks(q.maxCost, r.maxCost, factor);
    }
  }

  lemma {:induction false} RelaxedSticks(q: QoS, factor: real, n: nat)
    requires -1.0 <= factor && !CanOnlyLoosen(q, factor) && n > 0
    ensures Stuck(q, Relaxed(q, factor, n), factor)
  {
    hide Relax, Stuck, CanOnlyLoosen, Relaxed;
    RelaxedNext(q, factor, n);
    if n > 1 {
      RelaxedSticks(q, factor, n - 1);
    } else {
      assert Relaxed(q, factor, 0) == q by { NotRelaxed(q, factor); }
    }
    RelaxSticks(q, Relaxed(q, factor, n - 1), factor);
  }

  lemma NotRelaxed(q: QoS, factor: real)
    requires -1.0 <= factor
    ensures Relaxed(q, factor, 0) == q
  {}

  /** The same condition decides for any positive number of relaxations. */
  lemma RelaxedLooserIff(q: QoS, factor: real, n: nat)
    requires -1.0 <= factor && n > 0
    ensures Looser(q, Relaxed(q, factor, n)) <==> CanOnlyLoosen(q, factor)
  {
    hide Relax, CanOnlyLoosen, Relaxed;
    if CanOnlyLoosen(q, factor) {
      RelaxedLooser(q, factor, 0, n);
      NotRelaxed(q, factor);
    } else {
      RelaxedSticks(q, factor, n);
    }
  }

  /** `r` is `q` with its floors scaled by `shrink` and its ceilings by `grow`. */
  ghost predicate ScaledBy(q: QoS, r: QoS, shrink: real, grow: real) {
    && r.minQuality == Times(q.minQuality, shrink) && r.minTrust == Times(q.minTrust, shrink)
    && r.maxLatency == Times(q.maxLatency, grow) && r.maxCost == Times(q.maxCost, grow)
  }

  lemma FloorScales(x: real, shrink: real, factor: real)
    requires 0.0 <= factor <= 1.0 && 0.0 <= x && 0.0 <= shrink
    ensures LowerFloor(Times(x, shrink), factor) == Times(x, Times(shrink, 1.0 - factor))
  {
    hide Times;
    TimesAssociates(x, shrink, 1.0 - factor);
    TimesNonNegative(shrink, 1.0 - factor);
    TimesNonNegative(x, Times(shrink, 1.0 - factor));
  }

  /** The closed form of repeated relaxation: floors shrink by (1-f)^n, ceilings grow by (1+f)^n. */
  lemma {:induction false} RelaxedClosedForm(q: QoS, factor: real, n: nat)
    requires 0.0 <= factor <= 1.0 && NonNegativeBounds(q)
    ensures ScaledBy(q, Relaxed(q, factor, n), Power(1.0 - factor, n), Power(1.0 + factor, n))
  {
    hide Times, LowerFloor;
    if n == 0 {
      TimesOne(q.minQuality);
      TimesOne(q.minTrust);
      TimesOne(q.maxLatency);
      TimesOne(q.maxCost);
    } else {
      RelaxedClosedForm(q, factor, n - 1);
      var shrink, grow := Power(1.0 - factor, n - 1), Power(1.0 + factor, n - 1);
      PowerNonNegative(1.0 - factor, n - 1);
      FloorScales(q.minQuality, shrink, factor);
      FloorScales(q.minTrust, shrink, factor);
      TimesAssociates(q.maxLatency, grow, 1.0 + factor);
      TimesAssociates(q.maxCost, grow, 1.0 + factor);
    }
  }

  // -------------------------------------------------------- state machine

  datatype HandshakeState = Idle | ProbeSent | OffersReceived | Contracted | Failed

  datatype HandshakeError =
    | NoCapableAgents(task: TaskType)
    | NegotiationFailed
    | InvalidTransition(from: HandshakeState, to: HandshakeState)

  datatype Event = Probe | Offers | Accept | Failure | Retry

  /** The permitted transitions; anything else is refused. */
  function Transition(s: HandshakeState, e: Event): Option<HandshakeState> {
    match (s, e)
    case (Idle, Probe) => Some(ProbeSent)
    case (ProbeSent, Offers) => Some(OffersReceived)
    case (OffersReceived, Accept) => Some(Contracted)
    case (Idle, Failure) => Some(Failed)
    case (ProbeSent, Failure) => Some(Failed)
    case (OffersReceived, Failure) => Some(Failed)
    case (ProbeSent, Retry) => Some(Idle)
    case (OffersReceived, Retry) => Some(Idle)
    case _ => None
  }

  function Target(e: Event): HandshakeState {
    match e
    case Probe => ProbeSent
    case Offers => OffersReceived
    case Accept => Contracted
    case Failure => Failed
    case Retry => Idle
  }

  /** A run of accepted events. */
  function Run(s: HandshakeState, events: seq<Event>): Option<HandshakeState> {
    if events == [] then Some(s)
    else match Run(s, events[..|events| - 1])
         case None => None
         case Some(t) => Transition(t, events[|events| - 1])
  }

  /** Each phase has one way in. */
  lemma OneWayIn(events: seq<Event>, t: HandshakeState, before: HandshakeState, e: Event) returns (front: seq<Event>)
    requires Run(Idle, events) == Some(t)
    requires (t, before, e) in
             {(Contracted, OffersReceived, Accept), (OffersReceived, ProbeSent, Offers), (ProbeSent, Idle, Probe)}
    ensures events == front + [e] && Run(Idle, front) == Some(before)
  {
    front := events[..|events| - 1];
  }

  /**
   * A contract is only ever reached by a probe, its offers and their acceptance, in this order and without
   * anything between.
   */
  lemma ContractNeedsAllPhases(events: seq<Event>) returns (earlier: seq<Event>)
    requires Run(Idle, events) == Some(Contracted)
    ensures events == earlier + [Probe, Offers, Accept] && Run(Idle, earlier) == Some(Idle)
  {
    hide Run;
    var two := OneWayIn(events, Contracted, OffersReceived, Accept);
    var one := OneWayIn(two, OffersReceived, ProbeSent, Offers);
    earlier := OneWayIn(one, ProbeSent, Idle, Probe);
    ThreeMore(earlier, Probe, Offers, Accept);
  }

  lemma ThreeMore(s: seq<Event>, a: Event, b: Event, c: Event)
    ensures s + [a] + [b] + [c] == s + [a, b, c]
  {}

  /** A terminal state accepts no further event. */
  lemma {:induction false} TerminalIsFinal(s: HandshakeState, events: seq<Event>)
    requires s == Contracted || s == Failed
    ensures Run(s, events).Some? <==> events == []
  {
    if events != [] { TerminalIsFinal(s, events[..|events| - 1]); }
  }

  /**
   * What is permitted: probing from idle, offers after a probe, acceptance after offers, failure before the end,
   * and a retry of a started, unfinished handshake. Whatever is permitted reaches its target.
   */
  lemma PermittedIff(s: HandshakeState, e: Event)
    ensures Transition(s, e).Some? <==>
            || (e == Probe && s == Idle) || (e == Offers && s == ProbeSent) || (e == Accept && s == OffersReceived)
            || (e == Failure && s != Contracted && s != Failed)
            || (e == Retry && s != Idle && s != Contracted && s != Failed)
    ensures Transition(s, e).Some? ==> Transition(s, e).value == Target(e)
  {}

  /** The effect of an event: the transition if it is permitted, an error and no change otherwise. */
  function Outcome(s: HandshakeState, e: Event): (HandshakeState, Option<HandshakeError>) {
    match Transition(s, e)
    case Some(t) => (t, None)
    case None => (s, Some(InvalidTransition(s, Target(e))))
  }

  class HandshakeStateMachine {
    var state: HandshakeState
    var contractId: Option<nat>
    var selectedAgent: Option<AgentId>

    /** The contract and the agent are known exactly in the contracted state. */
    ghost predicate Valid()
      reads this
    {
      (contractId.Some? <==> state == Contracted) && (selectedAgent.Some? <==> state == Contracted)
    }

    constructor ()
      ensures Valid() && state == Idle
    {
      state, contractId, selectedAgent := Idle, None, None;
    }

    method OnProbeSent() returns (error: Option<HandshakeError>)
      requires Valid()
      modifies this
      ensures Valid() && (state, error) == Outcome(old(state), Probe)
      ensures error.Some? ==> unchanged(this)
    {
      if state == Idle {
        state := ProbeSent;
        error := None;
      } else {
        error := Some(InvalidTransition(state, ProbeSent));
      }
    }

    method OnOffersReceived() returns (error: Option<HandshakeError>)
      requires Valid()
      modifies this
      ensures Valid() && (state, error) == Outcome(old(state), Offers)
      ensures error.Some? ==> unchanged(this)
    {
      if state == ProbeSent {
        state := OffersReceived;
        error := None;
      } else {
        error := Some(InvalidTransition(state, OffersReceived));
      }
    }

    method OnContractAccepted(id: nat, agent: AgentId) returns (error: Option<HandshakeError>)
      requires Valid()
      modifies this
      ensures Valid() && (state, error) == Outcome(old(state), Accept)
      ensures error.Some? ==> unchanged(this)
      ensures error.None? ==> contractId == Some(id) && selectedAgent == Some(agent)
    {
      if state == OffersReceived {
        state, contractId, selectedAgent := Contracted, Some(id), Some(agent);
        error := None;
      } else {
        error := Some(InvalidTransition(state, Contracted));
      }
    }

    method OnFailure() returns (error: Option<HandshakeError>)
      requires Valid()
      modifies this
      ensures Valid() && (state, error) == Outcome(old(state), Failure)
      ensures error.Some? ==> unchanged(this)
    {
      if state == Contracted || state == Failed {
        error := Some(InvalidTransition(state, Failed));
      } else {
        state := Failed;
        error := None;
      }
    }

    method ResetForRetry() returns (error: Option<HandshakeError>)
      requires Valid()
      modifies this
      ensures Valid() && (state, error) == Outcome(old(state), Retry)
      ensures error.Some? ==> unchanged(this)
    {
      if state == ProbeSent || state == OffersReceived {
        state, contractId, selectedAgent := Idle, None, None;
        error := None;
      } else {
        error := Some(InvalidTransition(state, Idle));
      }
    }
  }

  // --------------------------------------------------------------- offers

  datatype Offer = Offer(from: AgentId, capability: Capability, trustScore: real)

  datatype RankedOffer = RankedOffer(offer: Offer, score: real)

  /** `(1 - value / bound)` clamped; a bound of zero or less scores 1. */
  function InvertedShare(value: real, bound: real): real {
    if bound > 0.0 then ClampUnit(1.0 - value / bound) else 1.0
  }

  function Score(o: Offer, maxLatency: Duration, maxCost: real): real {
    0.35 * ClampUnit(o.capability.estimatedQuality) + 0.20 * InvertedShare(o.capability.estimatedLatency, maxLatency)
    + 0.15 * InvertedShare(o.capability.costPerTask, maxCost) + 0.30 * ClampUnit(o.trustScore)
  }

  predicate BetterScore(a: RankedOffer, b: RankedOffer) {
    a.score >= b.score
  }

  function OfferOf(e: Entry): Offer {
    Offer(e.agentId, e.capability, e.trustScore)
  }

  function ScoredOffers(offers: seq<Offer>, maxLatency: Duration, maxCost: real): seq<RankedOffer> {
    seq(|offers|, i requires 0 <= i < |offers| => RankedOffer(offers[i], Score(offers[i], maxLatency, maxCost)))
  }

  function RankOffers(offers: seq<Offer>, maxLatency: Duration, maxCost: real): seq<RankedOffer> {
    StableSort(ScoredOffers(offers, maxLatency, maxCost), BetterScore)
  }

  /** The first ranked offer is one of the offers and no other scores higher; scores lie in [0,1]. */
  lemma BestOffer(offers: seq<Offer>, maxLatency: Duration, maxCost: real)
    requires offers != []
    ensures var ranked := RankOffers(offers, maxLatency, maxCost);
            && |ranked| == |offers| && ranked[0].offer in offers
            && ranked[0].score == Score(ranked[0].offer, maxLatency, maxCost)
            && forall o :: o in offers ==> Score(o, maxLatency, maxCost) <= ranked[0].score
  {
    hide Score;
    var scored := ScoredOffers(offers, maxLatency, maxCost);
    var ranked := StableSort(scored, BetterScore);
    assert TotalPreorder(BetterScore);
    SortSorts(scored, BetterScore);
    SortPermutes(scored, BetterScore);
    assert ranked[0] in ranked && ranked[0] in scored;
    forall o | o in offers ensures Score(o, maxLatency, maxCost) <= ranked[0].score {
      var i :| 0 <= i < |offers| && offers[i] == o;
      assert scored[i] in scored && scored[i] in ranked;
      var k :| 0 <= k < |ranked| && ranked[k] == scored[i];
      assert k > 0 ==> BetterScore(ranked[0], ranked[k]);
    }
  }

  /** The room a value leaves below its bound, as a share of the bound; all of it for a bound that is not positive. */
  ghost predicate Headroom(value: real, bound: real, share: real) {
    if bound <= 0.0 || value <= 0.0 then share == 1.0
    else if value >= bound then share == 0.0
    else Times(bound, share) == bound - value
  }

  lemma InvertedShareIsHeadroom(value: real, bound: real)
    ensures Headroom(value, bound, InvertedShare(value, bound))
  {
    hide Times;
    if bound > 0.0 {
      var q := value / bound;
      QuotientTimes(value, bound);
      TimesOne(bound);
      TimesZero(bound);
      TimesSubtracts(bound, 1.0, q);
      if value <= 0.0 { QuotientMonotone(value, 0.0, bound); }
      QuotientIs(0.0, bound, 0.0);
      QuotientIs(bound, bound, 1.0);
      if value >= bound { QuotientMonotone(bound, value, bound); }
      if 0.0 <= value <= bound {
        QuotientMonotone(0.0, value, bound);
        QuotientMonotone(value, bound, bound);
      }
    }
  }

  /** The score in twentieths: 7 for quality, 4 for headroom in latency, 3 for headroom in cost, 6 for trust. */
  lemma ScoreMeaning(o: Offer, maxLatency: Duration, maxCost: real) returns (latency: real, cost: real)
    ensures Headroom(o.capability.estimatedLatency, maxLatency, latency)
    ensures Headroom(o.capability.costPerTask, maxCost, cost)
    ensures 20.0 * Score(o, maxLatency, maxCost) ==
            7.0 * ClampUnit(o.capability.estimatedQuality) + 4.0 * latency + 3.0 * cost + 6.0 * ClampUnit(o.trustScore)
  {
    latency := InvertedShare(o.capability.estimatedLatency, maxLatency);
    cost := InvertedShare(o.capability.costPerTask, maxCost);
    InvertedShareIsHeadroom(o.capability.estimatedLatency, maxLatency);
    InvertedShareIsHeadroom(o.capability.costPerTask, maxCost);
    hide InvertedShare, Headroom;
  }

  lemma InvertedShareMonotone(x: real, y: real, bound: real)
    requires x <= y
    ensures InvertedShare(y, bound) <= InvertedShare(x, bound)
  {
    if bound > 0.0 { QuotientMonotone(x, y, bound); }
  }

  /** An offer that is at least as good in every respect never scores lower. */
  lemma BetterOfferScoresNoLower(a: Offer, b: Offer, maxLatency: Duration, maxCost: real)
    requires a.capability.estimatedQuality >= b.capability.estimatedQuality && a.trustScore >= b.trustScore
    requires a.capability.estimatedLatency <= b.capability.estimatedLatency
        && a.capability.costPerTask <= b.capability.costPerTask
    ensures Score(a, maxLatency, maxCost) >= Score(b, maxLatency, maxCost)
  {
    InvertedShareMonotone(a.capability.estimatedLatency, b.capability.estimatedLatency, maxLatency);
    InvertedShareMonotone(a.capability.costPerTask, b.capability.costPerTask, maxCost);
    hide InvertedShare;
  }

  lemma ScoreInUnit(o: Offer, maxLatency: Duration, maxCost: real)
    ensures 0.0 <= Score(o, maxLatency, maxCost) <= 1.0
  {}

  // ------------------------------------------------------------- contract

  datatype Contract = Contract(from: AgentId, to: AgentId, agreedQos: QoS, contractId: nat)

  function CreateContract(from: AgentId, best: RankedOffer, qos: QoS, id: nat): Contract {
    var cap := best.offer.capability;
    Contract(from, best.offer.from,
             QoS(Min(cap.estimatedQuality, qos.minQuality), Max(cap.estimatedLatency, qos.maxLatency),
                 Max(cap.costPerTask, qos.maxCost), Min(best.offer.trustScore, qos.minTrust)),
             id)
  }
}
