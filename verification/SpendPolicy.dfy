/** Spend evaluation: packages/core/src/policy.ts. */
module SpendPolicy {
  import opened Basics
  import opened Domain

  /** The cascade of checks, in source order; the first one that fails names the rejection. */
  function EvaluateSpend(p: SpendProposal): PolicyDecision {
    var policy := p.task.policy;
    var projectedProvider := p.ledger.SpentBy(p.providerId) + p.quotedAmountAtomic;
    var projectedTask := p.ledger.spentAtomic + p.quotedAmountAtomic;
    if p.ledger.taskId != p.task.id then Denied(LedgerTaskMismatch)
    else if p.task.status != Active then Denied(TaskNotActive)
    else if p.task.expiresAtUnixSeconds != 0 && p.nowUnixSeconds >= p.task.expiresAtUnixSeconds then Denied(TaskExpired)
    else if p.quotedAmountAtomic <= 0 then Denied(InvalidAmount)
    else if p.providerId in policy.blockedProviderIds then Denied(ProviderBlocked)
    else if p.providerId !in policy.allowedProviderIds then Denied(ProviderNotAllowed)
    else if p.mint != "" && policy.allowedMints != [] && p.mint !in policy.allowedMints then Denied(MintNotAllowed)
    else if p.protocol != "" && policy.allowedProtocols != [] && p.protocol !in policy.allowedProtocols then
      Denied(ProtocolNotAllowed)
    else if policy.allowedNetworks != []
            && (p.network.None? || p.network.value == "" || p.network.value !in policy.allowedNetworks) then
      Denied(NetworkNotAllowed)
    else if policy.maxPerCallAtomic.Some? && p.quotedAmountAtomic > policy.maxPerCallAtomic.value then
      Denied(PerCallCapExceeded)
    else if p.nextProviderCumulativeAtomic <= p.currentProviderCumulativeAtomic then Denied(NonMonotonicVoucher)
    else if p.nextProviderCumulativeAtomic - p.currentProviderCumulativeAtomic != p.quotedAmountAtomic then
      Denied(VoucherDeltaMismatch)
    else if p.nextProviderCumulativeAtomic > p.channelCeilingAtomic then Denied(ChannelCeilingExceeded)
    else if p.providerId in policy.providerCapsAtomic
            && projectedProvider > policy.providerCapsAtomic[p.providerId] then Denied(ProviderCapExceeded)
    else if projectedTask > p.task.budget.totalAtomic then Denied(TaskBudgetExceeded)
    else Allowed(p.quotedAmountAtomic, projectedTask, projectedProvider, p.nextProviderCumulativeAtomic)
  }

  /** Only ever reached with an allowed decision: the orchestrator throws on a denied one first. */
  function ApplyApprovedSpend(ledger: TaskLedger, providerId: string, decision: PolicyDecision): TaskLedger
    requires decision.Allowed?
  {
    TaskLedger(
      ledger.taskId,
      decision.projectedTaskSpendAtomic,
      ledger.providerSpentAtomic[providerId := decision.projectedProviderSpendAtomic])
  }

  /** The checks that depend on nothing but the task, the quote and the clock. */
  predicate QuoteAdmissible(task: Task, quote: ProviderQuote, now: int) {
    var policy := task.policy;
    && task.status == Active
    && (task.expiresAtUnixSeconds == 0 || now < task.expiresAtUnixSeconds)
    && (quote.mint == "" || policy.allowedMints == [] || quote.mint in policy.allowedMints)
    && (quote.protocol == "" || policy.allowedProtocols == [] || quote.protocol in policy.allowedProtocols)
    && (policy.allowedNetworks == []
        || (quote.network.Some? && quote.network.value != "" && quote.network.value in policy.allowedNetworks))
    && (policy.maxPerCallAtomic.None? || quote.priceAtomic <= policy.maxPerCallAtomic.value)
  }

  /** assertQuoteMatchesRequest: what executeProviderRequest demands of a quote before it asks for authorization. */
  predicate QuoteMatchesRequest(metadataId: string, requestId: string, quote: ProviderQuote) {
    quote.providerId == metadataId && quote.requestId == requestId && quote.priceAtomic > 0
  }

  /** assertAuthorizationMatchesQuote. */
  predicate AuthorizationMatchesQuote(quote: ProviderQuote, authorization: PaymentAuthorization) {
    && authorization.providerId == quote.providerId
    && authorization.requestId == quote.requestId
    && authorization.mint == quote.mint
    && authorization.amountAtomic == quote.priceAtomic
    && authorization.protocol == quote.protocol
  }

  // ----- The cascade against a list of requirements -----

  /** What each rejection says is wrong with the proposal, each on its own. */
  predicate Violates(p: SpendProposal, code: RejectionCode) {
    var policy := p.task.policy;
    match code
    case LedgerTaskMismatch => p.ledger.taskId != p.task.id
    case TaskNotActive => p.task.status != Active
    case TaskExpired => p.task.expiresAtUnixSeconds != 0 && p.nowUnixSeconds >= p.task.expiresAtUnixSeconds
    case InvalidAmount => p.quotedAmountAtomic <= 0
    case ProviderBlocked => p.providerId in policy.blockedProviderIds
    case ProviderNotAllowed => p.providerId !in policy.allowedProviderIds
    case MintNotAllowed => p.mint != "" && policy.allowedMints != [] && p.mint !in policy.allowedMints
    case ProtocolNotAllowed =>
      p.protocol != "" && policy.allowedProtocols != [] && p.protocol !in policy.allowedProtocols
    case NetworkNotAllowed =>
      policy.allowedNetworks != []
      && !(p.network.Some? && p.network.value != "" && p.network.value in policy.allowedNetworks)
    case PerCallCapExceeded =>
      policy.maxPerCallAtomic.Some? && p.quotedAmountAtomic > policy.maxPerCallAtomic.value
    case NonMonotonicVoucher => p.nextProviderCumulativeAtomic <= p.currentProviderCumulativeAtomic
    case VoucherDeltaMismatch =>
      p.nextProviderCumulativeAtomic != p.currentProviderCumulativeAtomic + p.quotedAmountAtomic
    case ChannelCeilingExceeded => p.nextProviderCumulativeAtomic > p.channelCeilingAtomic
    case ProviderCapExceeded =>
      p.providerId in policy.providerCapsAtomic
      && p.ledger.SpentBy(p.providerId) + p.quotedAmountAtomic > policy.providerCapsAtomic[p.providerId]
    case TaskBudgetExceeded => p.ledger.spentAtomic + p.quotedAmountAtomic > p.task.budget.totalAtomic
    case _ => false
  }

  /** The order in which the requirements are looked at. */
  function Place(code: RejectionCode): nat {
    match code
    case LedgerTaskMismatch => 0 case TaskNotActive => 1 case TaskExpired => 2 case InvalidAmount => 3
    case ProviderBlocked => 4 case ProviderNotAllowed => 5 case MintNotAllowed => 6 case ProtocolNotAllowed => 7
    case NetworkNotAllowed => 8 case PerCallCapExceeded => 9 case NonMonotonicVoucher => 10
    case VoucherDeltaMismatch => 11 case ChannelCeilingExceeded => 12 case ProviderCapExceeded => 13
    case TaskBudgetExceeded => 14
    case _ => 15
  }

  lemma OutcomeOfCascade(p: SpendProposal)
    ensures match EvaluateSpend(p)
      case Denied(d) => Violates(p, d) && forall c :: Place(c) < Place(d) ==> !Violates(p, c)
      case Allowed(_, _, _, _) => forall c :: !Violates(p, c)
  {
  }

  lemma PlacesAreDistinct(p: SpendProposal, c: RejectionCode, d: RejectionCode)
    requires Violates(p, c) && Violates(p, d) && Place(c) == Place(d)
    ensures c == d
  {
  }

  /** The rejection is the first violated requirement, and a proposal that violates none is allowed. */
  lemma RejectsFirstViolation(p: SpendProposal, code: RejectionCode)
    ensures EvaluateSpend(p) == Denied(code)
      <==> Violates(p, code) && forall c :: Place(c) < Place(code) ==> !Violates(p, c)
    ensures EvaluateSpend(p).Allowed? <==> forall c :: !Violates(p, c)
  {
    OutcomeOfCascade(p);
    var d := EvaluateSpend(p);
    if d.Denied? && Violates(p, code) && Place(code) == Place(d.code) {
      PlacesAreDistinct(p, code, d.code);
    }
  }
}
