/**
  packages/solana/src/finalization.ts: finalising one provider channel, and all channels of a task.
  A thrown error inside the protocol becomes a recovery record, as in the source; errors the caller sees are `Err`.
 */
module Finalization {
  import opened Basics
  import opened Channels
  import Text

  datatype ChannelInput = ChannelInput(
    providerId: string,
    channelAddress: string,
    depositCeilingAtomic: int,
    authorizedCumulativeAtomic: int,
    finalVoucher: Option<FinalVoucher>)

  datatype InputError =
    | ProviderIdRequired
    | ChannelAddressRequired
    | NegativeDeposit
    | NegativeAuthorized
    | AuthorizedExceedsDeposit
    | NegativeBudget
    | DuplicateProvider(providerId: string)
    | DuplicateChannel(channelAddress: string)
    | CeilingsExceedBudget

  datatype FailurePhase = AtInspect | AtSettleAndSeal | AtDistribute | AtReconcile

  datatype RecoveryAction = InspectChannel | RetrySettleAndSeal | RetryDistribute | WaitForForcedClose

  datatype Status = Finalized | RecoveryRequired(failedPhase: FailurePhase, recoveryAction: RecoveryAction)

  /** ChannelFinalizationRecord without the fields copied from the input, which `input` holds. */
  datatype Record = Record(
    input: ChannelInput,
    status: Status,
    providerAmountAtomic: int,
    payerRefundAtomic: int,
    settlementSignature: Option<string>,
    distributionSignature: Option<string>)

  function InputProblem(input: ChannelInput): Option<InputError> {
    if Text.Blank(input.providerId) then Some(ProviderIdRequired)
    else if Text.Blank(input.channelAddress) then Some(ChannelAddressRequired)
    else if input.depositCeilingAtomic < 0 then Some(NegativeDeposit)
    else if input.authorizedCumulativeAtomic < 0 then Some(NegativeAuthorized)
    else if input.authorizedCumulativeAtomic > input.depositCeilingAtomic then Some(AuthorizedExceedsDeposit)
    else None
  }

  predicate ChannelMatches(channel: Descriptor, input: ChannelInput) {
    && channel.channelAddress == input.channelAddress
    && channel.depositCeiling == input.depositCeilingAtomic
    && channel.settledAmount <= input.authorizedCumulativeAtomic
  }

  predicate SettlementVerified(settlement: SettlementResult, input: ChannelInput) {
    && settlement.channelAddress == input.channelAddress
    && settlement.settledAmount == input.authorizedCumulativeAtomic
  }

  predicate DistributionVerified(d: DistributionResult, input: ChannelInput) {
    && d.channelAddress == input.channelAddress
    && d.providerAmount == input.authorizedCumulativeAtomic
    && d.payerRefund == input.depositCeilingAtomic - input.authorizedCumulativeAtomic
    && d.providerAmount + d.payerRefund == input.depositCeilingAtomic
  }

  /** recoveryRecord keeps even the empty signature of an already sealed channel. */
  function Recovery(input: ChannelInput, phase: FailurePhase,
                    action: RecoveryAction, settlement: Option<SettlementResult>)
    : Record
  {
    var signature := if settlement.Some? then Some(settlement.value.transactionSignature) else None;
    Record(input, RecoveryRequired(phase, action), 0, 0, signature, None)
  }

  function Mismatch(input: ChannelInput, settlement: SettlementResult, d: DistributionResult): Record {
    Recovery(input, AtReconcile, InspectChannel, Some(settlement)).(
      providerAmountAtomic := d.providerAmount,
      payerRefundAtomic := d.payerRefund,
      distributionSignature := Some(d.transactionSignature))
  }

  function Success(input: ChannelInput, settlement: SettlementResult, d: DistributionResult): Record {
    var signature := if settlement.transactionSignature == "" then None else Some(settlement.transactionSignature);
    Record(input, Finalized, d.providerAmount, d.payerRefund, signature, Some(d.transactionSignature))
  }

  /** sealAtAuthorizedWatermark; Failed stands for every error it throws or the adapter raises. */
  function SealAtAuthorizedWatermark(w: World, script: Script, channel: Descriptor, input: ChannelInput)
    : (World, Reply<SettlementResult>)
  {
    if channel.state == Sealed then
      if channel.settledAmount != input.authorizedCumulativeAtomic then (w, Failed)
      else (w, Returned(SettlementResult(channel.channelAddress, channel.settledAmount, "")))
    else if channel.state != Open then (w, Failed)
    else if channel.settledAmount == input.authorizedCumulativeAtomic then
      SubmitSeal(w, script, input.channelAddress, Seal)
    else if input.finalVoucher.None? then (w, Failed)
    else
      SubmitSeal(w, script, input.channelAddress,
                 SettleAndSeal(input.authorizedCumulativeAtomic, input.finalVoucher.value))
  }

  /** The last phase: distribute, then check the amounts against the input. */
  function DistributeAndVerify(w: World, script: Script, input: ChannelInput, settlement: SettlementResult)
    : (World, Record)
  {
    var (after, reply) := SubmitDistribute(w, script, input.channelAddress);
    var record :=
      if reply.Failed? then Recovery(input, AtDistribute, RetryDistribute, Some(settlement))
      else if !DistributionVerified(reply.value, input) then Mismatch(input, settlement, reply.value)
      else Success(input, settlement, reply.value);
    (after, record)
  }

  /** The middle phase, for a channel found open, opening or sealed. */
  function SealAndDistribute(w: World, script: Script, channel: Descriptor, input: ChannelInput): (World, Record) {
    var (sealed, settlement) := SealAtAuthorizedWatermark(w, script, channel, input);
    if settlement.Failed? || !SettlementVerified(settlement.value, input) then
      var action := if channel.state == Sealed then InspectChannel else RetrySettleAndSeal;
      (sealed, Recovery(input, AtSettleAndSeal, action, None))
    else DistributeAndVerify(sealed, script, input, settlement.value)
  }

  function FinalizeChecked(w: World, script: Script, input: ChannelInput): (World, Record) {
    var (seen, view) := Inspect(w, script, input.channelAddress);
    if view.Failed? || view.value.None? || !ChannelMatches(view.value.value, input) then
      (seen, Recovery(input, AtInspect, InspectChannel, None))
    else
      var channel := view.value.value;
      if channel.state == Distributed || channel.state == Reclaimed then
        (seen, Recovery(input, AtInspect, InspectChannel, None))
      else if channel.state == Closing then
        (seen, Recovery(input, AtSettleAndSeal, WaitForForcedClose, None))
      else SealAndDistribute(seen, script, channel, input)
  }

  /** finalizeProviderChannel. */
  function FinalizeProviderChannel(w: World, script: Script, input: ChannelInput): Result<(World, Record), InputError> {
    match InputProblem(input)
    case Some(e) => Err(e)
    case None => Ok(FinalizeChecked(w, script, input))
  }

  // ----- a whole task -----

  datatype TaskInput = TaskInput(taskId: string, taskBudgetAtomic: int, channels: seq<ChannelInput>)

  datatype TaskSummary = TaskSummary(
    reservedCeilingAtomic: int,
    unreservedBudgetAtomic: int,
    authorizedSpendAtomic: int,
    providerPaidAtomic: int,
    channelRefundAtomic: int,
    totalRecoveredAtomic: int,
    unresolvedEscrowAtomic: int,
    reconciledAtomic: int,
    isFullyFinalized: bool,
    isReconciled: bool,
    finalizedChannelCount: nat,
    recoveryRequiredChannelCount: int,
    channels: seq<Record>)

  /** The first error of the checking loop, given the ids already seen. */
  function FirstProblem(inputs: seq<ChannelInput>, providers: set<string>, addresses: set<string>): Option<InputError> {
    if inputs == [] then None
    else if InputProblem(inputs[0]).Some? then InputProblem(inputs[0])
    else if inputs[0].providerId in providers then Some(DuplicateProvider(inputs[0].providerId))
    else if inputs[0].channelAddress in addresses then Some(DuplicateChannel(inputs[0].channelAddress))
    else FirstProblem(inputs[1..], providers + {inputs[0].providerId}, addresses + {inputs[0].channelAddress})
  }

  function Reserved(inputs: seq<ChannelInput>): int {
    if inputs == [] then 0 else inputs[0].depositCeilingAtomic + Reserved(inputs[1..])
  }

  function Authorized(inputs: seq<ChannelInput>): int {
    if inputs == [] then 0 else inputs[0].authorizedCumulativeAtomic + Authorized(inputs[1..])
  }

  function TaskProblem(input: TaskInput): Option<InputError> {
    if input.taskBudgetAtomic < 0 then Some(NegativeBudget)
    else if FirstProblem(input.channels, {}, {}).Some? then FirstProblem(input.channels, {}, {})
    else if Reserved(input.channels) > input.taskBudgetAtomic then Some(CeilingsExceedBudget)
    else None
  }

  /** The channels are finalised one after the other, in list order. */
  function FinalizeEach(w: World, script: Script, inputs: seq<ChannelInput>): (World, seq<Record>)
    decreases |inputs|
  {
    if inputs == [] then (w, [])
    else
      var (next, record) := FinalizeChecked(w, script, inputs[0]);
      var (end, records) := FinalizeEach(next, script, inputs[1..]);
      (end, [record] + records)
  }

  function ProviderPaid(records: seq<Record>): int {
    if records == [] then 0 else records[0].providerAmountAtomic + ProviderPaid(records[1..])
  }

  function Refunded(records: seq<Record>): int {
    if records == [] then 0 else records[0].payerRefundAtomic + Refunded(records[1..])
  }

  function Unresolved(records: seq<Record>): int {
    if records == [] then 0
    else (if records[0].status.Finalized? then 0 else records[0].input.depositCeilingAtomic) + Unresolved(records[1..])
  }

  function FinalizedCount(records: seq<Record>): (n: nat)
    ensures n <= |records|
    ensures n == |records| <==> forall i :: 0 <= i < |records| ==> records[i].status.Finalized?
  {
    if records == [] then 0
    else
      assert forall i :: 0 <= i < |records[1..]| ==> records[1..][i] == records[i + 1];
      (if records[0].status.Finalized? then 1 else 0) + FinalizedCount(records[1..])
  }

  /** The reductions at the end, from the totals of the checking loop and the records. */
  function Summarize(input: TaskInput, reserved: int, authorized: int, records: seq<Record>): TaskSummary {
    var paid := ProviderPaid(records);
    var refunded := Refunded(records);
    var unreserved := input.taskBudgetAtomic - reserved;
    var recovered := refunded + unreserved;
    var reconciled := paid + recovered;
    var finalized := FinalizedCount(records);
    var full := |records| - finalized == 0;
    TaskSummary(reserved, unreserved, authorized, paid, refunded, recovered, Unresolved(records), reconciled, full,
                full && paid == authorized && reconciled == input.taskBudgetAtomic,
                finalized, |records| - finalized, records)
  }

  /** finalizeTaskChannels. */
  function FinalizeTaskChannels(w: World, script: Script, input: TaskInput): Result<(World, TaskSummary), InputError> {
    match TaskProblem(input)
    case Some(e) => Err(e)
    case None =>
      var (end, records) := FinalizeEach(w, script, input.channels);
      Ok((end, Summarize(input, Reserved(input.channels), Authorized(input.channels), records)))
  }
}
