/** What each event of a run leaves behind, field by field. */
module RouteOutcomes {
  import opened Basics
  import opened Domain
  import opened SpendPolicy
  import opened Routing
  import opened RoutingProofs
  import opened RoutingTheorems
  import Decimal

  /** The state after a run from an opened route. */
  function After(task: Task, registry: map<string, string>, start: Route, events: seq<Event>): System {
    Resume(task, registry, System(start, map[]), events)
  }

  /** Only the flows differ, and there are as many as before. */
  predicate OnlyFlows(r: Route, r': Route) {
    && r'.ledger == r.ledger && r'.order == r.order && r'.states == r.states && r'.settlements == r.settlements
    && |r'.flows| == |r.flows|
  }

  // ----- What an execution that pays was granted -----

  /** What a flow is about; no event changes it. */
  predicate SameGrant(f: Flow, g: Flow) {
    && f.id == g.id && f.providerId == g.providerId && f.requestId == g.requestId
    && f.quotedAtomic == g.quotedAtomic && f.previousCumulativeAtomic == g.previousCumulativeAtomic
    && f.nextCumulativeAtomic == g.nextCumulativeAtomic && f.rejection == g.rejection
    && f.paymentReference == g.paymentReference && f.createdAtUnixSeconds == g.createdAtUnixSeconds
  }

  /** The authorization repeats the quote, for the provider and request of the flow it was granted with. */
  predicate Granted(task: Task, registry: map<string, string>, f: Flow, quote: ProviderQuote, a: PaymentAuthorization) {
    && a.providerId == f.providerId && a.requestId == f.requestId
    && a.mint == quote.mint && a.amountAtomic == quote.priceAtomic && a.protocol == quote.protocol
    && a.authorizationId == f.id == task.id + ":" + f.providerId + ":" + f.requestId
    && f.paymentReference == Some(a.paymentReference) && f.quotedAtomic == quote.priceAtomic
    && f.providerId in registry && quote.providerId == registry[f.providerId] && quote.requestId == f.requestId
  }

  predicate GrantedTo(task: Task, registry: map<string, string>, flows: seq<Flow>, e: Execution) {
    e.Paying? ==> e.flow < |flows| && Granted(task, registry, flows[e.flow], e.quote, e.authorization)
  }

  ghost predicate AllGranted(task: Task, registry: map<string, string>, s: System) {
    forall id :: id in s.running ==> GrantedTo(task, registry, s.route.flows, s.running[id])
  }

  lemma GrantsStay(task: Task, registry: map<string, string>, s: System, e: Event)
    ensures var flows := Step(task, registry, s, e).route.flows;
      |s.route.flows| <= |flows| && forall i :: 0 <= i < |s.route.flows| ==> SameGrant(s.route.flows[i], flows[i])
  {
  }

  lemma NewGrant(task: Task, registry: map<string, string>, s: System, e: Event)
    requires e.Quoted? && AwaitsQuote(registry, s, e.id)
    ensures var s' := Step(task, registry, s, e);
      e.id in s'.running ==> GrantedTo(task, registry, s'.route.flows, s'.running[e.id])
  {
  }

  lemma GrantStep(task: Task, registry: map<string, string>, s: System, e: Event)
    requires AllGranted(task, registry, s)
    ensures AllGranted(task, registry, Step(task, registry, s, e))
  {
    var s' := Step(task, registry, s, e);
    GrantsStay(task, registry, s, e);
    forall id | id in s'.running ensures GrantedTo(task, registry, s'.route.flows, s'.running[id]) {
      if e.Quoted? && AwaitsQuote(registry, s, e.id) && id == e.id {
        NewGrant(task, registry, s, e);
      } else {
        OthersRun(task, registry, s, e, id);
      }
    }
  }

  lemma OthersRun(task: Task, registry: map<string, string>, s: System, e: Event, id: nat)
    requires !(e.Quoted? && AwaitsQuote(registry, s, e.id) && id == e.id)
    ensures var s' := Step(task, registry, s, e);
      id in s'.running ==> s'.running[id].Quoting? || (id in s.running && s'.running[id] == s.running[id])
  {
  }

  lemma {:induction false} GrantRun(task: Task, registry: map<string, string>, start: Route, events: seq<Event>)
    ensures AllGranted(task, registry, After(task, registry, start, events))
  {
    if events == [] {
    } else {
      var front := events[..|events| - 1];
      GrantRun(task, registry, start, front);
      GrantStep(task, registry, After(task, registry, start, front), events[|events| - 1]);
    }
  }

  // ----- Payments -----

  /**
    An execution that was charged has its flow still authorized. When its payment succeeds the flow is fulfilled with
    a receipt made of the quote, the authorization, the response's hash and the time, if the adapter announces the id
    it is registered under, and failed without a receipt otherwise. Nothing else changes but that it runs no more.
   */
  lemma PaymentSucceeds(
    task: Task, registry: map<string, string>, cs: seq<ChannelReservation>, start: Route, events: seq<Event>, id: nat,
    responseHash: string, now: int)
    requires Accepted(task, registry, cs, start)
    requires var s := After(task, registry, start, events); id in s.running && s.running[id].Paying?
    ensures var s := After(task, registry, start, events);
      var s' := After(task, registry, start, events + [PaymentSucceeded(id, responseHash, now)]);
      var Paying(quote, a, i) := s.running[id];
      && i < |s.route.flows| && s'.running == s.running - {id} && OnlyFlows(s.route, s'.route)
      && (forall j :: 0 <= j < |s.route.flows| && j != i ==> s'.route.flows[j] == s.route.flows[j])
      && var f, f' := s.route.flows[i], s'.route.flows[i];
         && Granted(task, registry, f, quote, a) && f.status == Authorized && f.receipt.None?
         && SameGrant(f, f') && f'.settlementSignature.None?
         && (registry[f.providerId] == f.providerId ==>
               && f'.status == Fulfilled
               && f'.receipt == Some(Receipt(
                    providerId := quote.providerId, requestId := quote.requestId, mint := quote.mint,
                    priceAtomic := quote.priceAtomic, protocol := quote.protocol,
                    authorizationId := a.authorizationId, paymentReference := a.paymentReference,
                    responseHash := responseHash, timestampUnixSeconds := now)))
         && (registry[f.providerId] != f.providerId ==> f'.status == Failed && f'.receipt.None?)
  {
    var e := PaymentSucceeded(id, responseHash, now);
    var s := After(task, registry, start, events);
    ReadyToPay(task, registry, cs, start, events, id);
    assert (events + [e])[..|events|] == events;
  }

  /** A failed payment marks the flow failed and leaves its charge. */
  lemma PaymentFails(
    task: Task, registry: map<string, string>, cs: seq<ChannelReservation>, start: Route, events: seq<Event>, id: nat)
    requires Accepted(task, registry, cs, start)
    requires var s := After(task, registry, start, events); id in s.running && s.running[id].Paying?
    ensures var s := After(task, registry, start, events);
      var s' := After(task, registry, start, events + [PaymentFailed(id)]);
      var i := s.running[id].flow;
      && i < |s.route.flows| && s'.running == s.running - {id} && OnlyFlows(s.route, s'.route)
      && (forall j :: 0 <= j < |s.route.flows| && j != i ==> s'.route.flows[j] == s.route.flows[j])
      && var f, f' := s.route.flows[i], s'.route.flows[i];
         && SameGrant(f, f') && f.status == Authorized
         && f'.status == Failed && f'.receipt.None? && f'.settlementSignature.None?
  {
    ReadyToPay(task, registry, cs, start, events, id);
    assert (events + [PaymentFailed(id)])[..|events|] == events;
  }

  lemma ReadyToPay(
    task: Task, registry: map<string, string>, cs: seq<ChannelReservation>, start: Route, events: seq<Event>, id: nat)
    requires Accepted(task, registry, cs, start)
    requires var s := After(task, registry, start, events); id in s.running && s.running[id].Paying?
    ensures var s := After(task, registry, start, events);
      var Paying(quote, a, i) := s.running[id];
      && i < |s.route.flows|
      && var f := s.route.flows[i];
         && Granted(task, registry, f, quote, a)
         && f.status == Authorized && f.receipt.None? && f.settlementSignature.None?
  {
    OpenInvariant(task, registry, cs);
    ResumeInvariant(task, registry, System(start, map[]), events);
    GrantRun(task, registry, start, events);
    var s := After(task, registry, start, events);
    assert ExecutionSound(registry, s.route, s.running[id]);
    assert GrantedTo(task, registry, s.route.flows, s.running[id]);
  }

  // ----- Quotes -----

  /** A quote of another adapter, for another request or without a positive price ends the execution, uncharged. */
  lemma WrongQuote(task: Task, registry: map<string, string>, s: System, id: nat, quote: ProviderQuote, now: int)
    requires AwaitsQuote(registry, s, id)
    requires var Quoting(p, requestId) := s.running[id];
      quote.providerId != registry[p] || quote.requestId != requestId || quote.priceAtomic <= 0
    ensures Step(task, registry, s, Quoted(id, quote, now)) == System(s.route, s.running - {id})
  {
  }

  predicate RightQuote(registry: map<string, string>, s: System, id: nat, quote: ProviderQuote)
    requires AwaitsQuote(registry, s, id)
  {
    var Quoting(p, requestId) := s.running[id];
    quote.providerId == registry[p] && quote.requestId == requestId && quote.priceAtomic > 0
  }

  /** The proposal the policy is asked about. */
  function Proposed(task: Task, r: Route, p: string, quote: ProviderQuote, now: int): SpendProposal
    requires p in r.states
  {
    SpendProposal(
      task := task, ledger := r.ledger, providerId := p, quotedAmountAtomic := quote.priceAtomic,
      currentProviderCumulativeAtomic := r.states[p].cumulativeAuthorizedAtomic,
      nextProviderCumulativeAtomic := r.states[p].cumulativeAuthorizedAtomic + quote.priceAtomic,
      channelCeilingAtomic := r.states[p].channelCeilingAtomic, nowUnixSeconds := now, mint := quote.mint,
      network := quote.network, protocol := quote.protocol)
  }

  lemma ChargeDecided(task: Task, r: Route, p: string, quote: ProviderQuote, now: int)
    requires p in r.states && quote.mint == task.budget.mint
    requires forall c :: !Violates(Proposed(task, r, p, quote, now), c)
    ensures Decide(task, r, p, quote, now) == Allowed(
      amountAtomic := quote.priceAtomic,
      projectedTaskSpendAtomic := r.ledger.spentAtomic + quote.priceAtomic,
      projectedProviderSpendAtomic := r.ledger.SpentBy(p) + quote.priceAtomic,
      nextProviderCumulativeAtomic := r.states[p].cumulativeAuthorizedAtomic + quote.priceAtomic)
  {
    RejectsFirstViolation(Proposed(task, r, p, quote, now), InvalidAmount);
  }

  /** The authorization a charge answers with, and the flow it records. */
  lemma ChargeOutcome(task: Task, r: Route, p: string, requestId: string, quote: ProviderQuote, now: int)
    requires p in r.states && quote.mint == task.budget.mint
    requires forall c :: !Violates(Proposed(task, r, p, quote, now), c)
    ensures var (r', answer) := Authorize(task, r, p, requestId, quote, now);
      var previous := r.states[p].cumulativeAuthorizedAtomic;
      var next := previous + quote.priceAtomic;
      var authorizationId := task.id + ":" + p + ":" + requestId;
      var reference := "canalis:" + task.id + ":" + p + ":" + Decimal.PrintInt(next);
      && answer == Ok(PaymentAuthorization(
           authorizationId := authorizationId, providerId := p, requestId := requestId, mint := quote.mint,
           amountAtomic := quote.priceAtomic, protocol := quote.protocol, paymentReference := reference))
      && r'.flows == r.flows + [Flow(
           id := authorizationId, providerId := p, requestId := requestId, status := Authorized,
           quotedAtomic := quote.priceAtomic, previousCumulativeAtomic := previous, nextCumulativeAtomic := next,
           rejection := None, paymentReference := Some(reference), receipt := None, settlementSignature := None,
           createdAtUnixSeconds := now)]
  {
    ChargeDecided(task, r, p, quote, now);
  }

  /** The balances and the ledger after a charge. */
  lemma ChargeBalances(task: Task, r: Route, p: string, requestId: string, quote: ProviderQuote, now: int)
    requires Balanced(task, r) && p in r.states && quote.mint == task.budget.mint
    requires forall c :: !Violates(Proposed(task, r, p, quote, now), c)
    ensures var r' := Authorize(task, r, p, requestId, quote, now).0;
      var next := r.states[p].cumulativeAuthorizedAtomic + quote.priceAtomic;
      && r'.states == r.states[p := ProviderState(
           channelCeilingAtomic := r.states[p].channelCeilingAtomic, cumulativeAuthorizedAtomic := next,
           spentAtomic := next)]
      && r'.ledger == TaskLedger(
           taskId := task.id, spentAtomic := r.ledger.spentAtomic + quote.priceAtomic,
           providerSpentAtomic := r.ledger.providerSpentAtomic[p := next])
      && r'.order == r.order && r'.settlements == r.settlements
  {
    assert ProviderBalanced(task, r, p);
    ChargeDecided(task, r, p, quote, now);
  }

  /** A quote that violates nothing is charged, and its execution goes on to pay with the authorization. */
  lemma QuoteCharged(task: Task, registry: map<string, string>, s: System, id: nat, quote: ProviderQuote, now: int)
    requires Invariant(task, registry, s) && AwaitsQuote(registry, s, id) && RightQuote(registry, s, id, quote)
    requires quote.mint == task.budget.mint
    requires forall c :: !Violates(Proposed(task, s.route, s.running[id].providerId, quote, now), c)
    ensures var Quoting(p, requestId) := s.running[id];
      var (r', answer) := Authorize(task, s.route, p, requestId, quote, now);
      answer.Ok? && Step(task, registry, s, Quoted(id, quote, now))
        == System(r', s.running[id := Paying(quote, answer.value, |s.route.flows|)])
  {
    ChargeDecided(task, s.route, s.running[id].providerId, quote, now);
  }

  /** What a rejection is recorded under: the mint first, then the first violated requirement of the policy. */
  ghost predicate Reason(task: Task, r: Route, p: string, quote: ProviderQuote, now: int, code: RejectionCode)
    requires p in r.states
  {
    if quote.mint != task.budget.mint then code == MintMismatch
    else
      var proposal := Proposed(task, r, p, quote, now);
      Violates(proposal, code) && forall c :: SpendPolicy.Place(c) < SpendPolicy.Place(code) ==> !Violates(proposal, c)
  }

  /** Any other quote is rejected with its reason: one rejected flow with the amounts asked for, and nothing charged. */
  lemma QuoteRejected(
    task: Task, registry: map<string, string>, s: System, id: nat, quote: ProviderQuote, now: int, code: RejectionCode)
    requires AwaitsQuote(registry, s, id) && RightQuote(registry, s, id, quote)
    requires Reason(task, s.route, s.running[id].providerId, quote, now, code)
    ensures var Quoting(p, requestId) := s.running[id];
      var s' := Step(task, registry, s, Quoted(id, quote, now));
      var previous := s.route.states[p].cumulativeAuthorizedAtomic;
      && Authorize(task, s.route, p, requestId, quote, now).1 == Err(code)
      && s'.running == s.running - {id}
      && s'.route == s.route.(flows := s.route.flows + [Flow(
           id := task.id + ":" + p + ":" + requestId + ":rejected:" + Decimal.Print(|s.route.flows|),
           providerId := p, requestId := requestId, status := Rejected, quotedAtomic := quote.priceAtomic,
           previousCumulativeAtomic := previous, nextCumulativeAtomic := previous + quote.priceAtomic,
           rejection := Some(code), paymentReference := None, receipt := None, settlementSignature := None,
           createdAtUnixSeconds := now)])
  {
    RejectsFirstViolation(Proposed(task, s.route, s.running[id].providerId, quote, now), code);
  }

  // ----- Launches -----

  /** The two checks before anything is awaited, the registry's first. */
  lemma LaunchOutcome(
    task: Task, registry: map<string, string>, s: System, id: nat, p: string, requestId: string, now: int)
    requires id !in s.running
    ensures var s' := Step(task, registry, s, Launch(id, p, requestId, now));
      if p in registry && p in s.route.states then
        s' == System(s.route, s.running[id := Quoting(p, requestId)])
      else
        && s'.running == s.running
        && s'.route == s.route.(flows := s.route.flows + [Flow(
             id := task.id + ":" + p + ":" + requestId + ":rejected:" + Decimal.Print(|s.route.flows|),
             providerId := p, requestId := requestId, status := Rejected, quotedAtomic := 0,
             previousCumulativeAtomic := 0, nextCumulativeAtomic := 0,
             rejection := Some(if p in registry then ProviderNotReserved else ProviderNotFound),
             paymentReference := None, receipt := None, settlementSignature := None, createdAtUnixSeconds := now)])
  {
  }

  /** An adapter that fails before it quotes ends its execution and leaves no trace in the route. */
  lemma QuoteFails(task: Task, registry: map<string, string>, cs: seq<ChannelReservation>, start: Route,
                   events: seq<Event>, id: nat)
    requires Accepted(task, registry, cs, start)
    requires var s := After(task, registry, start, events); id in s.running && s.running[id].Quoting?
    ensures var s := After(task, registry, start, events);
      After(task, registry, start, events + [QuoteFailed(id)]) == System(s.route, s.running - {id})
  {
    OpenInvariant(task, registry, cs);
    ResumeInvariant(task, registry, System(start, map[]), events);
    var s := After(task, registry, start, events);
    assert ExecutionSound(registry, s.route, s.running[id]);
    assert (events + [QuoteFailed(id)])[..|events|] == events;
  }

  /** An event of an execution that does not wait for it changes nothing. */
  lemma NothingHappens(task: Task, registry: map<string, string>, s: System, e: Event)
    requires match e
      case Launch(id, _, _, _) => id in s.running
      case QuoteFailed(id) => id !in s.running || s.running[id].Paying?
      case Quoted(id, _, _) => id !in s.running || s.running[id].Paying?
      case PaymentFailed(id) => id !in s.running || s.running[id].Quoting?
      case PaymentSucceeded(id, _, _) => id !in s.running || s.running[id].Quoting?
      case Settled(_) => false
    ensures Step(task, registry, s, e) == s
  {
  }

  // ----- Settlements -----

  /**
    In every run a settlement is recorded exactly when its provider is reserved and its amount lies between zero and
    the provider's charges, both included; it then tags the fulfilled flows it covers and nothing else.
   */
  lemma SettlementOutcome(
    task: Task, registry: map<string, string>, cs: seq<ChannelReservation>, start: Route, events: seq<Event>,
    record: Settlement)
    requires Accepted(task, registry, cs, start)
    ensures var s := After(task, registry, start, events);
      var s' := After(task, registry, start, events + [Settled(record)]);
      var p, amount := record.providerId, record.cumulativeAmountAtomic;
      && s'.running == s.running && s'.route.order == s.route.order && s'.route.states == s.route.states
      && s'.route.ledger == s.route.ledger && |s'.route.flows| == |s.route.flows|
      && if p in s.route.states && 0 <= amount && amount <= Charges(s.route.flows, p) then
           && s'.route.settlements == s.route.settlements + [record]
           && forall i :: 0 <= i < |s.route.flows| ==>
                var f := s.route.flows[i];
                s'.route.flows[i] ==
                  if f.providerId == p && f.status == Fulfilled && f.nextCumulativeAtomic <= amount
                  then f.(settlementSignature := Some(record.transactionSignature)) else f
         else s'.route.settlements == s.route.settlements && s'.route.flows == s.route.flows
  {
    ChargesFormAChain(task, registry, cs, start, events, record.providerId);
    assert (events + [Settled(record)])[..|events|] == events;
  }
}
