/** Which signatures and amounts a finalization record and a task's summary carry. */
module FinalizationSignatures {
  import opened Basics
  import opened Sums
  import opened Channels
  import opened Finalization
  import opened FinalizationProofs

  /** The signature of the n-th adapter call's answer to a sealing request. */
  function SealSignature(script: Script, n: nat): string {
    if script(n).forgedSettlement.Some? then script(n).forgedSettlement.value.transactionSignature
    else script(n).signature
  }

  /** The signature of the n-th adapter call's answer to a distribution. */
  function DistributionSignature(script: Script, n: nat): string {
    if script(n).forgedDistribution.Some? then script(n).forgedDistribution.value.transactionSignature
    else script(n).signature
  }

  /** The call was shown a sealed channel, so it sends no sealing request. */
  predicate FoundSealed(w: World, script: Script, input: ChannelInput) {
    Seen(w, script, input).Some? && Seen(w, script, input).value.state == Sealed
  }

  /** The signature of the settlement of a call that distributed last: none of its own for a channel found sealed. */
  function SettledUnder(script: Script, sealed: bool, calls: nat): string
    requires calls >= 2
  {
    if sealed then "" else SealSignature(script, calls - 2)
  }

  /** What a record says, given the number of adapter calls made by its end. */
  predicate Signed(script: Script, input: ChannelInput, sealed: bool, calls: nat, record: Record) {
    && record.input == input
    && match record.status
       case Finalized =>
         && calls >= 2
         && record.settlementSignature ==
              (if SettledUnder(script, sealed, calls) == "" then None else Some(SettledUnder(script, sealed, calls)))
         && record.distributionSignature == Some(DistributionSignature(script, calls - 1))
         && record.providerAmountAtomic == input.authorizedCumulativeAtomic
         && record.payerRefundAtomic == input.depositCeilingAtomic - input.authorizedCumulativeAtomic
       case RecoveryRequired(AtDistribute, _) =>
         && calls >= 2
         && record.settlementSignature == Some(SettledUnder(script, sealed, calls))
         && record.distributionSignature.None?
         && record.providerAmountAtomic == 0 && record.payerRefundAtomic == 0
       case RecoveryRequired(AtReconcile, _) =>
         && calls >= 2
         && record.settlementSignature == Some(SettledUnder(script, sealed, calls))
         && record.distributionSignature == Some(DistributionSignature(script, calls - 1))
       case RecoveryRequired(_, _) =>
         && record.settlementSignature.None? && record.distributionSignature.None?
         && record.providerAmountAtomic == 0 && record.payerRefundAtomic == 0
  }

  /** The call got as far as requesting the distribution. */
  predicate Distributes(record: Record) {
    record.status.Finalized? || record.status.failedPhase == AtDistribute || record.status.failedPhase == AtReconcile
  }

  /**
    For every call and every adapter: a finalized record carries the signature of the last answer as its distribution
    and that of the answer before it as its settlement, or none if the channel was found sealed or that signature is
    empty. A failed distribution keeps the settlement's signature; a mismatch keeps both. No other record carries a
    signature.
   */
  lemma SignaturesExactly(w: World, script: Script, input: ChannelInput)
    ensures var (end, record) := FinalizeChecked(w, script, input);
      var sealed := FoundSealed(w, script, input);
      && Signed(script, input, sealed, end.calls, record)
      && (Distributes(record) ==>
            && end.calls == w.calls + (if sealed then 2 else 3)
            && |end.log| == |w.log| + (if sealed then 1 else 2))
  {
    var (seen, view) := Inspect(w, script, input.channelAddress);
    if view.Returned? && view.value.Some? && ChannelMatches(view.value.value, input) {
      PhaseSignatures(seen, script, view.value.value, input);
    }
  }

  lemma PhaseSignatures(w: World, script: Script, channel: Descriptor, input: ChannelInput)
    requires ChannelMatches(channel, input) && w.calls > 0
    ensures var (end, record) := SealAndDistribute(w, script, channel, input);
      var sealed := channel.state == Sealed;
      && Signed(script, input, sealed, end.calls, record)
      && (Distributes(record) ==>
            && end.calls == w.calls + (if sealed then 1 else 2)
            && |end.log| == |w.log| + (if sealed then 1 else 2))
  {
  }

  /**
    With an adapter that reports the chain the answers are the transactions' own: the distribution's signature is that
    of the last call, the settlement's that of the call before it, there is no mismatch, and the channel was found
    sealed exactly when the finalizing call sent one request only.
   */
  lemma HonestSignatures(w: World, script: Script, input: ChannelInput)
    requires Honest(script) && Sound(w.accounts)
    ensures var (end, record) := FinalizeChecked(w, script, input);
      && !(record.status.RecoveryRequired? && record.status.failedPhase == AtReconcile)
      && (record.status.Finalized? ==>
            && end.calls >= 2
            && |w.log| + 1 <= |end.log| <= |w.log| + 2
            && record.distributionSignature == Some(script(end.calls - 1).signature)
            && record.settlementSignature ==
                 if |end.log| == |w.log| + 1 || script(end.calls - 2).signature == "" then None
                 else Some(script(end.calls - 2).signature))
      && (record.status.RecoveryRequired? && record.status.failedPhase == AtDistribute ==>
            && end.calls >= 2
            && record.settlementSignature ==
                 Some(if |end.log| == |w.log| + 1 then "" else script(end.calls - 2).signature))
  {
    CallIsSafe(w, script, input);
    SignaturesExactly(w, script, input);
  }

  // ----- what is verified -----

  /** The view is of this channel, with the expected deposit and no more settled than authorized. */
  predicate RightView(view: Reply<Option<Descriptor>>, input: ChannelInput) {
    && view.Returned? && view.value.Some?
    && view.value.value.channelAddress == input.channelAddress
    && view.value.value.depositCeiling == input.depositCeilingAtomic
    && view.value.value.settledAmount <= input.authorizedCumulativeAtomic
  }

  /**
    For every adapter: a call goes past its inspection exactly when it is shown the right channel in a state that can
    still be paid out.
   */
  lemma InspectionExactly(w: World, script: Script, input: ChannelInput)
    ensures var view := Inspect(w, script, input.channelAddress).1;
      var status := FinalizeChecked(w, script, input).1.status;
      status.RecoveryRequired? && status.failedPhase == AtInspect
      <==> !RightView(view, input) || view.value.value.state == Distributed || view.value.value.state == Reclaimed
  {
    RecoveryAdvice(w, script, input);
  }

  /** It distributes exactly when the settlement it is answered is this channel's, at the authorized amount. */
  lemma SettlementExactly(w: World, script: Script, channel: Descriptor, input: ChannelInput)
    requires ChannelMatches(channel, input)
    ensures var reply := SealAtAuthorizedWatermark(w, script, channel, input).1;
      var status := SealAndDistribute(w, script, channel, input).1.status;
      status.RecoveryRequired? && status.failedPhase == AtSettleAndSeal
      <==> !(&& reply.Returned? && reply.value.channelAddress == input.channelAddress
             && reply.value.settledAmount == input.authorizedCumulativeAtomic)
  {
  }

  /** It finalizes exactly when the distribution it is answered is this channel's, with both expected amounts. */
  lemma DistributionExactly(w: World, script: Script, input: ChannelInput, settlement: SettlementResult)
    ensures var reply := SubmitDistribute(w, script, input.channelAddress).1;
      var record := DistributeAndVerify(w, script, input, settlement).1;
      && (record.status == RecoveryRequired(AtDistribute, RetryDistribute) <==> reply.Failed?)
      && (record.status == Finalized <==>
            && reply.Returned? && reply.value.channelAddress == input.channelAddress
            && reply.value.providerAmount == input.authorizedCumulativeAtomic
            && reply.value.payerRefund == input.depositCeilingAtomic - input.authorizedCumulativeAtomic)
      && (record.status == RecoveryRequired(AtReconcile, InspectChannel) ==>
            reply.Returned? && record.providerAmountAtomic == reply.value.providerAmount
            && record.payerRefundAtomic == reply.value.payerRefund)
      && (record.status.RecoveryRequired? ==> record.status.failedPhase in {AtDistribute, AtReconcile})
  {
  }
}
