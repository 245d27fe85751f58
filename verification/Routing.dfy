/**
  The route orchestrator of packages/core/src/route.ts as a transition system.

  `execute` suspends only while it waits for a quote and for the paid response; the code between two
  suspension points runs without interruption. So one execution is: launch, quote arrives (and is
  authorized or rejected at once), payment succeeds or fails. Any number of executions interleave with
  each other and with recorded settlements, and a run is any list of such events.
 */
module Routing {
  import opened Basics
  import opened Sums
  import opened Domain
  import opened SpendPolicy
  import Decimal

  // ----- State -----

  datatype ChannelReservation = ChannelReservation(providerId: string, ceilingAtomic: int)

  datatype ReservationError =
    | DuplicateReservation
    | CeilingNotPositive
    | UnknownProvider
    | BlockedProvider
    | OutsideAllowlist
    | CeilingAboveCap
    | CeilingsAboveBudget

  datatype ProviderState = ProviderState(
    channelCeilingAtomic: int,
    cumulativeAuthorizedAtomic: int,
    spentAtomic: int)

  datatype FlowStatus = Authorized | Fulfilled | Rejected | Failed

  datatype Receipt = Receipt(
    providerId: string,
    requestId: string,
    mint: string,
    priceAtomic: int,
    protocol: string,
    authorizationId: string,
    paymentReference: string,
    responseHash: string,
    timestampUnixSeconds: int)

  datatype Flow = Flow(
    id: string,
    providerId: string,
    requestId: string,
    status: FlowStatus,
    quotedAtomic: int,
    previousCumulativeAtomic: int,
    nextCumulativeAtomic: int,
    rejection: Option<RejectionCode>,
    paymentReference: Option<string>,
    receipt: Option<Receipt>,
    settlementSignature: Option<string>,
    createdAtUnixSeconds: int)

  datatype Settlement = Settlement(providerId: string, cumulativeAmountAtomic: int, transactionSignature: string)

  /** `order` is the insertion order in which a JavaScript Map iterates over its keys. */
  datatype Route = Route(
    ledger: TaskLedger,
    order: seq<string>,
    states: map<string, ProviderState>,
    flows: seq<Flow>,
    settlements: seq<Settlement>)

  function CeilingOf(states: map<string, ProviderState>): string -> int {
    p => if p in states then states[p].channelCeilingAtomic else 0
  }

  function SpentOf(states: map<string, ProviderState>): string -> int {
    p => if p in states then states[p].spentAtomic else 0
  }

  function CumulativeOf(r: Route, p: string): int {
    if p in r.states then r.states[p].cumulativeAuthorizedAtomic else 0
  }

  // ----- Construction from reservations -----

  /** The registry maps each registered key to the id its adapter announces in its metadata. */
  function CheckReservation(
    task: Task, registry: map<string, string>, order: seq<string>, totalReserved: int, c: ChannelReservation)
    : Option<ReservationError>
  {
    if c.providerId in order then Some(DuplicateReservation)
    else if c.ceilingAtomic <= 0 then Some(CeilingNotPositive)
    else if c.providerId !in registry then Some(UnknownProvider)
    else if c.providerId in task.policy.blockedProviderIds then Some(BlockedProvider)
    else if c.providerId !in task.policy.allowedProviderIds then Some(OutsideAllowlist)
    else if c.providerId in task.policy.providerCapsAtomic
            && c.ceilingAtomic > task.policy.providerCapsAtomic[c.providerId] then Some(CeilingAboveCap)
    else if totalReserved + c.ceilingAtomic > task.budget.totalAtomic then Some(CeilingsAboveBudget)
    else None
  }

  datatype Book = Book(order: seq<string>, states: map<string, ProviderState>, totalReserved: int)

  function BookReservations(task: Task, registry: map<string, string>, cs: seq<ChannelReservation>)
    : Result<Book, ReservationError>
  {
    if cs == [] then Ok(Book([], map[], 0))
    else
      var c := cs[|cs| - 1];
      match BookReservations(task, registry, cs[..|cs| - 1])
      case Err(e) => Err(e)
      case Ok(b) =>
        match CheckReservation(task, registry, b.order, b.totalReserved, c)
        case Some(e) => Err(e)
        case None =>
          Ok(Book(b.order + [c.providerId],
                  b.states[c.providerId := ProviderState(c.ceilingAtomic, 0, 0)],
                  b.totalReserved + c.ceilingAtomic))
  }

  function Open(task: Task, registry: map<string, string>, cs: seq<ChannelReservation>)
    : Result<Route, ReservationError>
  {
    match BookReservations(task, registry, cs)
    case Err(e) => Err(e)
    case Ok(b) => Ok(Route(TaskLedger(task.id, 0, map[]), b.order, b.states, [], []))
  }

  // ----- Transitions -----

  function PaymentReference(taskId: string, providerId: string, cumulative: int): string {
    "canalis:" + taskId + ":" + providerId + ":" + Decimal.PrintInt(cumulative)
  }

  function AuthorizationId(taskId: string, providerId: string, requestId: string): string {
    taskId + ":" + providerId + ":" + requestId
  }

  function RejectedFlow(
    taskId: string, index: nat, providerId: string, requestId: string,
    quoted: int, previous: int, next: int, code: RejectionCode, now: int)
    : Flow
  {
    Flow(AuthorizationId(taskId, providerId, requestId) + ":rejected:" + Decimal.Print(index),
         providerId, requestId, Rejected, quoted, previous, next, Some(code), None, None, None, now)
  }

  function PushFlow(r: Route, f: Flow): Route {
    r.(flows := r.flows + [f])
  }

  function ProposalFor(task: Task, r: Route, providerId: string, quote: ProviderQuote, now: int): SpendProposal
    requires providerId in r.states
  {
    var state := r.states[providerId];
    SpendProposal(
      task, r.ledger, providerId, quote.priceAtomic,
      state.cumulativeAuthorizedAtomic, state.cumulativeAuthorizedAtomic + quote.priceAtomic,
      state.channelCeilingAtomic, now, quote.mint, quote.network, quote.protocol)
  }

  /** The decision `authorize` takes on a quote: the mint check first, then the spend policy. */
  function Decide(task: Task, r: Route, providerId: string, quote: ProviderQuote, now: int): PolicyDecision
    requires providerId in r.states
  {
    if quote.mint != task.budget.mint then Denied(MintMismatch)
    else EvaluateSpend(ProposalFor(task, r, providerId, quote, now))
  }

  function AuthorizationFor(task: Task, providerId: string, requestId: string, quote: ProviderQuote, next: int)
    : PaymentAuthorization
  {
    PaymentAuthorization(
      AuthorizationId(task.id, providerId, requestId), providerId, requestId, quote.mint, quote.priceAtomic,
      quote.protocol, PaymentReference(task.id, providerId, next))
  }

  /** The state and the answer after `authorize`. */
  function Authorize(task: Task, r: Route, providerId: string, requestId: string, quote: ProviderQuote, now: int)
    : (Route, Result<PaymentAuthorization, RejectionCode>)
    requires providerId in r.states
  {
    var state := r.states[providerId];
    var previous := state.cumulativeAuthorizedAtomic;
    var next := previous + quote.priceAtomic;
    match Decide(task, r, providerId, quote, now)
    case Denied(code) =>
      (PushFlow(r, RejectedFlow(task.id, |r.flows|,
                                 providerId, requestId, quote.priceAtomic, previous, next, code, now)),
       Err(code))
    case Allowed(amount, projectedTask, projectedProvider, nextCumulative) =>
      var decision := Allowed(amount, projectedTask, projectedProvider, nextCumulative);
      var authorization := AuthorizationFor(task, providerId, requestId, quote, nextCumulative);
      var flow := Flow(
        authorization.authorizationId, providerId, requestId, Authorized, quote.priceAtomic, previous, nextCumulative,
        None, Some(authorization.paymentReference), None, None, now);
      (r.(ledger := ApplyApprovedSpend(r.ledger, providerId, decision),
          states := r.states[providerId := state.(cumulativeAuthorizedAtomic := nextCumulative,
                                                  spentAtomic := projectedProvider)],
          flows := r.flows + [flow]),
       Ok(authorization))
  }

  function ReceiptFor(quote: ProviderQuote, authorization: PaymentAuthorization, responseHash: string, now: int)
    : Receipt
  {
    Receipt(quote.providerId, quote.requestId, quote.mint, quote.priceAtomic, quote.protocol,
            authorization.authorizationId, authorization.paymentReference, responseHash, now)
  }

  function Fulfil(r: Route, flow: nat, receipt: Receipt): Route
    requires flow < |r.flows|
  {
    r.(flows := r.flows[flow := r.flows[flow].(status := Fulfilled, receipt := Some(receipt))])
  }

  function Fail(r: Route, flow: nat): Route
    requires flow < |r.flows|
  {
    r.(flows := r.flows[flow := r.flows[flow].(status := Failed)])
  }

  predicate Covers(record: Settlement, f: Flow) {
    && f.providerId == record.providerId
    && f.status == Fulfilled
    && f.nextCumulativeAtomic <= record.cumulativeAmountAtomic
  }

  function Tag(record: Settlement, f: Flow): Flow {
    if Covers(record, f) then f.(settlementSignature := Some(record.transactionSignature)) else f
  }

  function TagAll(record: Settlement, flows: seq<Flow>): (tagged: seq<Flow>)
    ensures |tagged| == |flows|
    ensures forall i :: 0 <= i < |flows| ==> tagged[i] == Tag(record, flows[i])
  {
    seq(|flows|, i requires 0 <= i < |flows| => Tag(record, flows[i]))
  }

  predicate SettlementAccepted(r: Route, record: Settlement) {
    && record.providerId in r.states
    && 0 <= record.cumulativeAmountAtomic <= r.states[record.providerId].cumulativeAuthorizedAtomic
  }

  /** recordSettlement; a refused record throws and changes nothing. */
  function WithSettlement(r: Route, record: Settlement): Route {
    if SettlementAccepted(r, record) then
      r.(settlements := r.settlements + [record], flows := TagAll(record, r.flows))
    else r
  }

  // ----- Interleaved executions -----

  datatype Execution =
    | Quoting(providerId: string, requestId: string)
    | Paying(quote: ProviderQuote, authorization: PaymentAuthorization, flow: nat)

  datatype System = System(route: Route, running: map<nat, Execution>)

  datatype Event =
    | Launch(id: nat, providerId: string, requestId: string, now: int)
    | QuoteFailed(id: nat)
    | Quoted(id: nat, quote: ProviderQuote, now: int)
    | PaymentFailed(id: nat)
    | PaymentSucceeded(id: nat, responseHash: string, now: int)
    | Settled(record: Settlement)

  function LaunchRejection(registry: map<string, string>, r: Route, providerId: string): Option<RejectionCode> {
    if providerId !in registry then Some(ProviderNotFound)
    else if providerId !in r.states then Some(ProviderNotReserved)
    else None
  }

  function Launched(
    task: Task, registry: map<string, string>, r: Route, providerId: string, requestId: string, now: int)
    : Route
  {
    match LaunchRejection(registry, r, providerId)
    case Some(code) => PushFlow(r, RejectedFlow(task.id, |r.flows|, providerId, requestId, 0, 0, 0, code, now))
    case None => r
  }

  predicate AwaitsQuote(registry: map<string, string>, s: System, id: nat) {
    && id in s.running && s.running[id].Quoting?
    && s.running[id].providerId in registry && s.running[id].providerId in s.route.states
  }

  predicate AwaitsPayment(s: System, id: nat) {
    id in s.running && s.running[id].Paying? && s.running[id].flow < |s.route.flows|
  }

  /** One event; an event that is not enabled changes nothing. */
  function Step(task: Task, registry: map<string, string>, s: System, e: Event): System {
    match e
    case Launch(id, providerId, requestId, now) =>
      if id in s.running then s
      else
        System(Launched(task, registry, s.route, providerId, requestId, now),
               if LaunchRejection(registry, s.route, providerId).None?
               then s.running[id := Quoting(providerId, requestId)] else s.running)
    case QuoteFailed(id) =>
      if AwaitsQuote(registry, s, id) then s.(running := s.running - {id}) else s
    case Quoted(id, quote, now) =>
      if AwaitsQuote(registry, s, id) then
        var Quoting(providerId, requestId) := s.running[id];
        if !QuoteMatchesRequest(registry[providerId], requestId, quote) then s.(running := s.running - {id})
        else
          var (route, answer) := Authorize(task, s.route, providerId, requestId, quote, now);
          match answer
          case Err(_) => System(route, s.running - {id})
          case Ok(authorization) => System(route, s.running[id := Paying(quote, authorization, |s.route.flows|)])
      else s
    case PaymentFailed(id) =>
      if AwaitsPayment(s, id) then
        System(Fail(s.route, s.running[id].flow), s.running - {id})
      else s
    case PaymentSucceeded(id, responseHash, now) =>
      if AwaitsPayment(s, id) then
        var Paying(quote, authorization, flow) := s.running[id];
        System(
          if AuthorizationMatchesQuote(quote, authorization)
          then Fulfil(s.route, flow, ReceiptFor(quote, authorization, responseHash, now))
          else Fail(s.route, flow),
          s.running - {id})
      else s
    case Settled(record) => s.(route := WithSettlement(s.route, record))
  }

  /** The state after a list of events. */
  function Resume(task: Task, registry: map<string, string>, s: System, events: seq<Event>): System {
    if events == [] then s
    else Step(task, registry, Resume(task, registry, s, events[..|events| - 1]), events[|events| - 1])
  }

  // ----- Invariants -----

  /** The money invariants, provider by provider and in total. Only the first reservation compares with the budget. */
  ghost predicate Balanced(task: Task, r: Route) {
    && Distinct(r.order)
    && (forall p :: p in r.order <==> p in r.states)
    && r.ledger.taskId == task.id
    && (forall p :: p in r.ledger.providerSpentAtomic ==> p in r.states)
    && (forall p :: p in r.states ==> ProviderBalanced(task, r, p))
    && r.ledger.spentAtomic == SumBy(r.order, SpentOf(r.states))
    && (r.order != [] ==> SumBy(r.order, CeilingOf(r.states)) <= task.budget.totalAtomic)
  }

  ghost predicate ProviderBalanced(task: Task, r: Route, p: string)
    requires p in r.states
  {
    var state := r.states[p];
    && 0 <= state.cumulativeAuthorizedAtomic == state.spentAtomic == r.ledger.SpentBy(p)
    && state.spentAtomic <= state.channelCeilingAtomic
    && 0 < state.channelCeilingAtomic
    && (p in task.policy.providerCapsAtomic ==> state.channelCeilingAtomic <= task.policy.providerCapsAtomic[p])
    && p in task.policy.allowedProviderIds
    && p !in task.policy.blockedProviderIds
  }

  datatype Link = Link(previous: int, next: int, quoted: int)

  /** What the non-rejected flows of one provider charged, in list order. */
  ghost function LinksOf(flows: seq<Flow>, p: string): seq<Link> {
    if flows == [] then []
    else
      var f := flows[|flows| - 1];
      LinksOf(flows[..|flows| - 1], p) +
      if f.providerId == p && f.status != Rejected
      then [Link(f.previousCumulativeAtomic, f.nextCumulativeAtomic, f.quotedAtomic)] else []
  }

  /** A gap-free chain of positive charges from zero to `end`. */
  ghost predicate Chain(links: seq<Link>, end: int) {
    if links == [] then end == 0
    else
      var l := links[|links| - 1];
      && l.quoted > 0
      && l.next == l.previous + l.quoted == end
      && Chain(links[..|links| - 1], l.previous)
  }

  ghost predicate Chained(r: Route) {
    forall p :: Chain(LinksOf(r.flows, p), CumulativeOf(r, p))
  }

  /** The rejections a run can record; every other code is implied by the reservation and ceiling checks. */
  predicate Recordable(code: RejectionCode) {
    code in {ProviderNotFound, ProviderNotReserved, MintMismatch, TaskNotActive, TaskExpired, MintNotAllowed,
             ProtocolNotAllowed, NetworkNotAllowed, PerCallCapExceeded, ChannelCeilingExceeded}
  }

  ghost predicate FlowSound(task: Task, r: Route, f: Flow) {
    if f.status == Rejected then
      && f.rejection.Some? && Recordable(f.rejection.value)
      && f.paymentReference.None? && f.receipt.None? && f.settlementSignature.None?
    else
      && f.rejection.None?
      && f.providerId in r.states
      && f.paymentReference == Some(PaymentReference(task.id, f.providerId, f.nextCumulativeAtomic))
      && (f.receipt.Some? <==> f.status == Fulfilled)
      && (f.receipt.Some? ==> ReceiptSound(f, f.receipt.value))
      && (f.settlementSignature.Some? ==>
            f.status == Fulfilled && exists s :: s in r.settlements && SettledBy(f, s))
  }

  predicate ReceiptSound(f: Flow, receipt: Receipt) {
    && receipt.providerId == f.providerId && receipt.requestId == f.requestId
    && receipt.priceAtomic == f.quotedAtomic && Some(receipt.paymentReference) == f.paymentReference
  }

  predicate SettledBy(f: Flow, s: Settlement) {
    && s.providerId == f.providerId
    && Some(s.transactionSignature) == f.settlementSignature
    && f.nextCumulativeAtomic <= s.cumulativeAmountAtomic
  }

  ghost predicate Recorded(task: Task, r: Route) {
    && (forall i :: 0 <= i < |r.flows| ==> FlowSound(task, r, r.flows[i]))
    && (forall i :: 0 <= i < |r.settlements| ==> SettlementAccepted(r, r.settlements[i]))
  }

  ghost predicate ExecutionSound(registry: map<string, string>, r: Route, e: Execution) {
    match e
    case Quoting(providerId, requestId) => providerId in registry && providerId in r.states
    case Paying(quote, authorization, flow) =>
      && flow < |r.flows|
      && var f := r.flows[flow];
      && f.status == Authorized
      && f.providerId == authorization.providerId
      && f.requestId == authorization.requestId
      && f.quotedAtomic == quote.priceAtomic
      && f.paymentReference == Some(authorization.paymentReference)
      && f.receipt.None? && f.settlementSignature.None?
  }

  ghost predicate Running(registry: map<string, string>, s: System) {
    && (forall id :: id in s.running ==> ExecutionSound(registry, s.route, s.running[id]))
    && (forall a, b :: a in s.running && b in s.running && a != b && s.running[a].Paying? && s.running[b].Paying?
          ==> s.running[a].flow != s.running[b].flow)
  }

  ghost predicate RouteInvariant(task: Task, r: Route) {
    Balanced(task, r) && Chained(r) && Recorded(task, r)
  }

  ghost predicate Invariant(task: Task, registry: map<string, string>, s: System) {
    RouteInvariant(task, s.route) && Running(registry, s)
  }
}
