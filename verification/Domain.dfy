/**
  The entities of packages/core/src/domain.ts and packages/providers/src/types.ts.
  An optional list that is absent is the empty list here: every reader treats the two alike.
  Atomic amounts are bigints in the source, so they are unbounded integers.
 */
module Domain {
  import opened Basics

  datatype TaskStatus = Draft | Active | Completed | Cancelled | Archived

  datatype Budget = Budget(mint: string, totalAtomic: int)

  datatype Policy = Policy(
    allowedProviderIds: seq<string>,
    blockedProviderIds: seq<string>,
    maxPerCallAtomic: Option<int>,
    providerCapsAtomic: map<string, int>,
    allowedNetworks: seq<string>,
    allowedMints: seq<string>,
    allowedProtocols: seq<string>)

  datatype Task = Task(
    id: string,
    budget: Budget,
    policy: Policy,
    status: TaskStatus,
    expiresAtUnixSeconds: int)

  datatype TaskLedger = TaskLedger(
    taskId: string,
    spentAtomic: int,
    providerSpentAtomic: map<string, int>)
  {
    function SpentBy(providerId: string): int {
      if providerId in providerSpentAtomic then providerSpentAtomic[providerId] else 0
    }
  }

  datatype ProviderQuote = ProviderQuote(
    providerId: string,
    requestId: string,
    mint: string,
    priceAtomic: int,
    protocol: string,
    network: Option<string>)

  datatype PaymentAuthorization = PaymentAuthorization(
    authorizationId: string,
    providerId: string,
    requestId: string,
    mint: string,
    amountAtomic: int,
    protocol: string,
    paymentReference: string)

  datatype SpendProposal = SpendProposal(
    task: Task,
    ledger: TaskLedger,
    providerId: string,
    quotedAmountAtomic: int,
    currentProviderCumulativeAtomic: int,
    nextProviderCumulativeAtomic: int,
    channelCeilingAtomic: int,
    nowUnixSeconds: int,
    mint: string,
    network: Option<string>,
    protocol: string)

  datatype RejectionCode =
    | TaskNotActive
    | TaskExpired
    | InvalidAmount
    | ProviderNotAllowed
    | ProviderBlocked
    | PerCallCapExceeded
    | NetworkNotAllowed
    | MintNotAllowed
    | ProtocolNotAllowed
    | NonMonotonicVoucher
    | VoucherDeltaMismatch
    | ChannelCeilingExceeded
    | ProviderCapExceeded
    | TaskBudgetExceeded
    | LedgerTaskMismatch
    | ProviderNotFound
    | ProviderNotReserved
    | MintMismatch

  datatype PolicyDecision =
    | Allowed(
        amountAtomic: int,
        projectedTaskSpendAtomic: int,
        projectedProviderSpendAtomic: int,
        nextProviderCumulativeAtomic: int)
    | Denied(code: RejectionCode)
}
