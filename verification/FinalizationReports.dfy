/** When a payout on chain is reported as finalized, by the call that made it and by later ones. */
module FinalizationReports {
  import opened Basics
  import opened Channels
  import opened Finalization
  import opened FinalizationProofs

  /** The call's last request is a distribution that took effect. */
  predicate EndsWithPayout(w: World, after: World) {
    |after.log| > |w.log| && Pays(after.log[|after.log| - 1])
  }

  lemma DistributionReport(w: World, script: Script, input: ChannelInput, settlement: SettlementResult)
    requires Honest(script) && Sound(w.accounts)
    requires SealedAsAuthorized(Lookup(w.accounts, input.channelAddress), input)
    ensures var (after, record) := DistributeAndVerify(w, script, input, settlement);
      && after.calls == w.calls + 1 && |after.log| == |w.log| + 1
      && (Pays(after.log[|w.log|]) ==>
            record.status == if script(w.calls).fault == NoFault then Finalized
                             else RecoveryRequired(AtDistribute, RetryDistribute))
  {
    DistributeIsSafe(w, script, input, settlement);
  }

  lemma SealReport(w: World, script: Script, channel: Descriptor, input: ChannelInput)
    requires Honest(script) && Sound(w.accounts) && ChannelMatches(channel, input)
    requires input.channelAddress in w.accounts
    requires var c := w.accounts[input.channelAddress];
      channel.depositCeiling == c.deposit && channel.settledAmount == c.settled && channel.state == c.phase
    ensures var (after, record) := SealAndDistribute(w, script, channel, input);
      && |after.log| >= |w.log|
      && (EndsWithPayout(w, after) ==>
            && after.calls > 0
            && record.status == if script(after.calls - 1).fault == NoFault then Finalized
                                else RecoveryRequired(AtDistribute, RetryDistribute))
  {
    SealIsSafe(w, script, channel, input);
    var (sealed, settlement) := SealAtAuthorizedWatermark(w, script, channel, input);
    if settlement.Returned? && SettlementVerified(settlement.value, input) {
      DistributionReport(sealed, script, input, settlement.value);
    }
  }

  /** One call whose last request pays: what it reports depends on whether the answer arrives. */
  lemma PayoutReport(w: World, script: Script, input: ChannelInput)
    requires Honest(script) && Sound(w.accounts)
    requires EndsWithPayout(w, FinalizeChecked(w, script, input).0)
    ensures var (after, record) := FinalizeChecked(w, script, input);
      && after.calls > 0
      && record.status == if script(after.calls - 1).fault == NoFault then Finalized
                          else RecoveryRequired(AtDistribute, RetryDistribute)
  {
    var (seen, view) := Inspect(w, script, input.channelAddress);
    InspectKeeps(w, script, input.channelAddress);
    if view.Returned? && view.value.Some? && ChannelMatches(view.value.value, input) {
      SealReport(seen, script, view.value.value, input);
    }
  }

  /**
    Every call, whatever others do before and between its requests and whichever of them fail: it reports the channel
    finalized if and only if its last request paid and the answer to that request arrived. When the answer is lost
    the exact payout is on chain and the record asks to distribute again.
   */
  lemma FinalizedExactly(w: World, script: Script, input: ChannelInput)
    requires Honest(script) && Sound(w.accounts)
    ensures var (after, record) := FinalizeChecked(w, script, input);
      && after.calls > 0
      && (record.status.Finalized? <==> EndsWithPayout(w, after) && script(after.calls - 1).fault == NoFault)
      && (EndsWithPayout(w, after) && script(after.calls - 1).fault != NoFault ==>
            && record.status == RecoveryRequired(AtDistribute, RetryDistribute)
            && input.channelAddress in after.accounts
            && after.accounts[input.channelAddress].payouts == PaidOut(input))
  {
    CallIsSafe(w, script, input);
    if EndsWithPayout(w, FinalizeChecked(w, script, input).0) { PayoutReport(w, script, input); }
  }

  /**
    After a failed distribution of a valid input, an undisturbed retry finalizes if and only if the channel has not
    been paid out, by the failed call or by anybody else.
   */
  lemma RetryFinalizesExactly(w: World, script: Script, input: ChannelInput, failed: World, record: Record)
    requires Honest(script) && Sound(w.accounts) && InputProblem(input).None?
    requires (failed, record) == FinalizeChecked(w, script, input)
    requires record.status == RecoveryRequired(AtDistribute, RetryDistribute)
    requires Quiet(script, failed.calls) && Quiet(script, failed.calls + 1) && Quiet(script, failed.calls + 2)
    ensures FinalizeChecked(failed, script, input).1.status.Finalized?
      <==> Unpaid(failed.accounts, input.channelAddress)
  {
    CallIsSafe(w, script, input);
    QuietCallFinalizesExactly(failed, script, input);
    assert ChannelSound(failed.accounts[input.channelAddress]);
  }

  /** Once the answer to a payout is lost, no call of any later list ever reports the channel finalized. */
  lemma LostReceiptIsPermanent(w: World, script: Script, input: ChannelInput, later: seq<ChannelInput>, i: nat)
    requires Honest(script) && Sound(w.accounts)
    requires var after := FinalizeChecked(w, script, input).0;
      EndsWithPayout(w, after) && after.calls > 0 && script(after.calls - 1).fault != NoFault
    requires i < |later| && later[i].channelAddress == input.channelAddress
    ensures var records := FinalizeEach(FinalizeChecked(w, script, input).0, script, later).1;
      |records| == |later| && records[i].status.RecoveryRequired?
  {
    FinalizedExactly(w, script, input);
    CallIsSafe(w, script, input);
    PaidChannelsAreNotFinalized(FinalizeChecked(w, script, input).0, script, later, i);
  }
}
