/** What finalising channels guarantees, whatever other parties do in between and whichever calls fail. */
module FinalizationProofs {
  import opened Basics
  import opened Channels
  import opened Finalization

  /** The channel at `address` is sealed for good at exactly the input's watermark. */
  predicate SealedAsAuthorized(c: Option<Channel>, input: ChannelInput) {
    && c.Some?
    && Final(c.value.phase)
    && c.value.settled == input.authorizedCumulativeAtomic
    && c.value.deposit == input.depositCeilingAtomic
  }

  function PaidOut(input: ChannelInput): seq<Payout> {
    [Payout(input.authorizedCumulativeAtomic, input.depositCeilingAtomic - input.authorizedCumulativeAtomic)]
  }

  predicate IsSeal(m: Move) {
    m.Seal? || m.SettleAndSeal?
  }

  /** A distribution that took effect. */
  predicate Pays(r: Request) {
    r.move == Distribute && r.landed
  }

  /** What one request of a finalisation may look like on chain. */
  predicate Proper(r: Request, input: ChannelInput) {
    && r.address == input.channelAddress
    && (IsSeal(r.move) || r.move == Distribute)
    && (r.move == Distribute ==> SealedAsAuthorized(r.found, input))
    && (Pays(r) ==> r.found.value.phase == Sealed && r.found.value.payouts == [])
    && (r.move.SettleAndSeal? ==>
          r.move.cumulative == input.authorizedCumulativeAtomic && Some(r.move.voucher) == input.finalVoucher)
    && (IsSeal(r.move) && r.landed ==> r.found.Some? && Unsealed(r.found.value.phase))
  }

  /** Once sealed as authorized, always sealed as authorized. */
  lemma StaysSealed(before: Accounts, after: Accounts, input: ChannelInput)
    requires Evolves(before, after)
    requires SealedAsAuthorized(Lookup(before, input.channelAddress), input)
    ensures SealedAsAuthorized(Lookup(after, input.channelAddress), input)
  {
    assert Later(before[input.channelAddress], after[input.channelAddress]);
  }

  lemma InspectKeeps(w: World, script: Script, address: string)
    requires Sound(w.accounts)
    ensures Sound(Inspect(w, script, address).0.accounts)
    ensures Evolves(w.accounts, Inspect(w, script, address).0.accounts)
    ensures Inspect(w, script, address).0.log == w.log
  {
    ActAllKeeps(w.accounts, script(w.calls).others);
  }

  /** A verified settlement means the chain is sealed at the authorized watermark. */
  lemma SealIsSafe(w: World, script: Script, channel: Descriptor, input: ChannelInput)
    requires Honest(script) && Sound(w.accounts) && ChannelMatches(channel, input)
    requires input.channelAddress in w.accounts
    requires var c := w.accounts[input.channelAddress];
      channel.depositCeiling == c.deposit && channel.settledAmount == c.settled && channel.state == c.phase
    ensures var (after, reply) := SealAtAuthorizedWatermark(w, script, channel, input);
      && Sound(after.accounts) && Evolves(w.accounts, after.accounts)
      && (channel.state == Sealed ==> after == w)
      && (reply.Returned? && SettlementVerified(reply.value, input) ==>
            SealedAsAuthorized(Lookup(after.accounts, input.channelAddress), input))
      && (after.log == w.log ||
            (channel.state == Open && exists r :: after.log == w.log + [r] && Proper(r, input) && IsSeal(r.move)))
  {
    if channel.state == Open && channel.settledAmount == input.authorizedCumulativeAtomic {
      SealRequestIsSafe(w, script, input, Seal);
    } else if channel.state == Open && input.finalVoucher.Some? {
      SealRequestIsSafe(w, script, input, SettleAndSeal(input.authorizedCumulativeAtomic, input.finalVoucher.value));
    }
  }

  lemma SealRequestIsSafe(w: World, script: Script, input: ChannelInput, move: Move)
    requires Honest(script) && Sound(w.accounts)
    requires IsSeal(move)
    requires move.SettleAndSeal? ==>
      move.cumulative == input.authorizedCumulativeAtomic && Some(move.voucher) == input.finalVoucher
    requires input.channelAddress in w.accounts
    requires w.accounts[input.channelAddress].deposit == input.depositCeilingAtomic
    ensures var (after, reply) := SubmitSeal(w, script, input.channelAddress, move);
      && Sound(after.accounts) && Evolves(w.accounts, after.accounts)
      && |after.log| == |w.log| + 1 && after.log == w.log + [after.log[|w.log|]]
      && Proper(after.log[|w.log|], input) && IsSeal(after.log[|w.log|].move)
      && (reply.Returned? && SettlementVerified(reply.value, input) ==>
            SealedAsAuthorized(Lookup(after.accounts, input.channelAddress), input))
  {
    var (after, reply) := SubmitSeal(w, script, input.channelAddress, move);
    SubmitKeeps(w, script, input.channelAddress, move);
    assert Later(w.accounts[input.channelAddress], after.accounts[input.channelAddress]);
  }

  /** Distribution runs on the sealed channel, pays at most once, and a success report means it paid. */
  lemma DistributeIsSafe(w: World, script: Script, input: ChannelInput, settlement: SettlementResult)
    requires Honest(script) && Sound(w.accounts)
    requires SealedAsAuthorized(Lookup(w.accounts, input.channelAddress), input)
    ensures var (after, record) := DistributeAndVerify(w, script, input, settlement);
      && Sound(after.accounts) && Evolves(w.accounts, after.accounts)
      && |after.log| == |w.log| + 1 && after.log == w.log + [after.log[|w.log|]]
      && Proper(after.log[|w.log|], input) && after.log[|w.log|].move == Distribute
      && (record.status.Finalized? ==> after.log[|w.log|].landed)
      && (after.log[|w.log|].landed ==>
            input.channelAddress in after.accounts && after.accounts[input.channelAddress].payouts == PaidOut(input))
      && (record.status.RecoveryRequired? ==> record.status.failedPhase == AtDistribute)
  {
    var address := input.channelAddress;
    var now := Arrive(w, script).accounts;
    ActAllKeeps(w.accounts, script(w.calls).others);
    StaysSealed(w.accounts, now, input);
    SubmitKeeps(w, script, address, Distribute);
    assert ChannelSound(now[address]);
    var after := SubmitDistribute(w, script, address).0;
    assert after.log == w.log + [Request(address, Distribute, Lookup(now, address), after.log[|w.log|].landed)];
    if after.log[|w.log|].landed {
      assert after.accounts[address] == Apply(now[address], Distribute).value;
      assert now[address].payouts == [];
    }
  }

  /** No payout of the channel has happened yet. */
  predicate Unpaid(accounts: Accounts, address: string) {
    address in accounts ==> accounts[address].payouts == []
  }

  lemma WasUnpaid(before: Accounts, after: Accounts, address: string)
    requires Evolves(before, after) && Unpaid(after, address)
    ensures Unpaid(before, address)
  {
    if address in before {
      assert Later(before[address], after[address]);
    }
  }

  /** Everything one finalisation call guarantees, from the world it starts in to the one it leaves. */
  ghost predicate SafeCall(w: World, script: Script, input: ChannelInput, after: World, record: Record) {
    && Sound(after.accounts) && Evolves(w.accounts, after.accounts)
    && w.log <= after.log
    && (forall k :: |w.log| <= k < |after.log| ==> Proper(after.log[k], input))
    // at most one request of each kind, the distribution last
    && |after.log| <= |w.log| + 2
    && (forall k :: |w.log| <= k < |after.log| - 1 ==> IsSeal(after.log[k].move))
    // a channel found sealed is never sealed again
    && (forall k :: |w.log| <= k < |after.log| && IsSeal(after.log[k].move) ==>
          var found := Lookup(Inspect(w, script, input.channelAddress).0.accounts, input.channelAddress);
          found.Some? && found.value.phase == Open)
    // a payout triggered here is the first one
    && (forall k :: |w.log| <= k < |after.log| && Pays(after.log[k]) ==>
          && Unpaid(w.accounts, input.channelAddress)
          && input.channelAddress in after.accounts
          && after.accounts[input.channelAddress].payouts == PaidOut(input))
    && (record.status.Finalized? ==>
          |after.log| > |w.log| && Pays(after.log[|after.log| - 1]))
    && (record.status.RecoveryRequired? ==> record.status.failedPhase != AtReconcile)
    && (record.status.RecoveryRequired? && record.status.failedPhase == AtDistribute ==>
          SealedAsAuthorized(Lookup(after.accounts, input.channelAddress), input))
  }

  /** The distribute phase, seen from the start of the call. */
  lemma DistributePhaseIsSafe(w: World, seen: World, sealed: World, script: Script, input: ChannelInput,
                              settlement: SettlementResult)
    requires Honest(script) && Sound(sealed.accounts) && Evolves(w.accounts, sealed.accounts)
    requires SealedAsAuthorized(Lookup(sealed.accounts, input.channelAddress), input)
    requires seen == Inspect(w, script, input.channelAddress).0
    requires sealed.log == w.log
      || (&& |sealed.log| == |w.log| + 1 && w.log <= sealed.log && Proper(sealed.log[|w.log|], input)
          && IsSeal(sealed.log[|w.log|].move)
          && Lookup(seen.accounts, input.channelAddress).Some?
          && seen.accounts[input.channelAddress].phase == Open)
    ensures var (after, record) := DistributeAndVerify(sealed, script, input, settlement);
      SafeCall(w, script, input, after, record)
  {
    var (after, record) := DistributeAndVerify(sealed, script, input, settlement);
    DistributeIsSafe(sealed, script, input, settlement);
    if after.log[|sealed.log|].landed {
      FirstPayout(sealed, script, input, settlement);
    }
    DistributedCallIsSafe(w, sealed, script, input, after, record);
  }

  /** A call that got as far as requesting the distribution. */
  lemma DistributedCallIsSafe(w: World, sealed: World, script: Script, input: ChannelInput,
                              after: World, record: Record)
    requires Evolves(w.accounts, sealed.accounts)
    requires SealedAsAuthorized(Lookup(sealed.accounts, input.channelAddress), input)
    requires sealed.log == w.log
      || (&& |sealed.log| == |w.log| + 1 && w.log <= sealed.log && Proper(sealed.log[|w.log|], input)
          && IsSeal(sealed.log[|w.log|].move)
          && var found := Lookup(Inspect(w, script, input.channelAddress).0.accounts, input.channelAddress);
             found.Some? && found.value.phase == Open)
    requires Sound(after.accounts) && Evolves(sealed.accounts, after.accounts)
    requires |after.log| == |sealed.log| + 1 && after.log == sealed.log + [after.log[|sealed.log|]]
    requires var last := after.log[|sealed.log|];
      && Proper(last, input) && last.move == Distribute
      && (record.status.Finalized? ==> last.landed)
      && (last.landed ==>
            && Unpaid(sealed.accounts, input.channelAddress)
            && input.channelAddress in after.accounts && after.accounts[input.channelAddress].payouts == PaidOut(input))
    requires record.status.RecoveryRequired? ==> record.status.failedPhase == AtDistribute
    ensures SafeCall(w, script, input, after, record)
  {
    EvolvesTransitive(w.accounts, sealed.accounts, after.accounts);
    StaysSealed(sealed.accounts, after.accounts, input);
    assert forall k :: 0 <= k < |sealed.log| ==> after.log[k] == sealed.log[k];
    if after.log[|sealed.log|].landed {
      WasUnpaid(w.accounts, sealed.accounts, input.channelAddress);
    }
  }

  lemma FirstPayout(w: World, script: Script, input: ChannelInput, settlement: SettlementResult)
    requires Honest(script) && Sound(w.accounts)
    requires SealedAsAuthorized(Lookup(w.accounts, input.channelAddress), input)
    requires var after := DistributeAndVerify(w, script, input, settlement).0;
      |after.log| > |w.log| && after.log[|w.log|].landed
    ensures Unpaid(w.accounts, input.channelAddress)
  {
    var now := Arrive(w, script).accounts;
    ActAllKeeps(w.accounts, script(w.calls).others);
    assert ChannelSound(now[input.channelAddress]);
    WasUnpaid(w.accounts, now, input.channelAddress);
  }

  /** A call that gives up before it distributes. */
  lemma StoppedCallIsSafe(w: World, script: Script, input: ChannelInput, after: World, record: Record)
    requires Sound(after.accounts) && Evolves(w.accounts, after.accounts)
    requires record.status.RecoveryRequired?
      && (record.status.failedPhase == AtInspect || record.status.failedPhase == AtSettleAndSeal)
    requires after.log == w.log
      || (&& |after.log| == |w.log| + 1 && w.log <= after.log && Proper(after.log[|w.log|], input)
          && IsSeal(after.log[|w.log|].move)
          && var found := Lookup(Inspect(w, script, input.channelAddress).0.accounts, input.channelAddress);
             found.Some? && found.value.phase == Open)
    ensures SafeCall(w, script, input, after, record)
  {
  }

  /** From the sealing step on. */
  lemma SealAndDistributeIsSafe(w: World, script: Script, channel: Descriptor, input: ChannelInput)
    requires Honest(script) && Sound(w.accounts) && ChannelMatches(channel, input)
    requires Inspect(w, script, input.channelAddress).1 == Returned(Some(channel))
    ensures var seen := Inspect(w, script, input.channelAddress).0;
      var (after, record) := SealAndDistribute(seen, script, channel, input);
      SafeCall(w, script, input, after, record)
  {
    var seen := Inspect(w, script, input.channelAddress).0;
    InspectKeeps(w, script, input.channelAddress);
    SealIsSafe(seen, script, channel, input);
    var (sealed, settlement) := SealAtAuthorizedWatermark(seen, script, channel, input);
    var (after, record) := SealAndDistribute(seen, script, channel, input);
    EvolvesTransitive(w.accounts, seen.accounts, sealed.accounts);
    if settlement.Returned? && SettlementVerified(settlement.value, input) {
      DistributePhaseIsSafe(w, seen, sealed, script, input, settlement.value);
    } else {
      StoppedCallIsSafe(w, script, input, after, record);
    }
  }

  /**
    One call of finalizeProviderChannel, in any reachable state of the chain, with any acts of other parties
    before each adapter call and any failures: distribution is requested only on a channel sealed at exactly the
    authorized watermark, and "finalized" means the payout took place in this very call.
   */
  lemma CallIsSafe(w: World, script: Script, input: ChannelInput)
    requires Honest(script) && Sound(w.accounts)
    ensures SafeCall(w, script, input, FinalizeChecked(w, script, input).0, FinalizeChecked(w, script, input).1)
  {
    var (seen, view) := Inspect(w, script, input.channelAddress);
    if view.Returned? && view.value.Some? && ChannelMatches(view.value.value, input)
       && (view.value.value.state == Opening || view.value.value.state == Open || view.value.value.state == Sealed) {
      SealAndDistributeIsSafe(w, script, view.value.value, input);
    } else {
      InspectKeeps(w, script, input.channelAddress);
      StoppedCallIsSafe(w, script, input, seen, FinalizeChecked(w, script, input).1);
    }
  }

  /** The parts of SafeCall that a list of calls needs. */
  lemma CallOutcome(w: World, script: Script, input: ChannelInput)
    requires Honest(script) && Sound(w.accounts)
    ensures var (after, record) := FinalizeChecked(w, script, input);
      && Sound(after.accounts) && Evolves(w.accounts, after.accounts)
      && (record.status.Finalized? ==>
            && Unpaid(w.accounts, input.channelAddress) && !Unpaid(after.accounts, input.channelAddress)
            && after.accounts[input.channelAddress].payouts == PaidOut(input))
  {
    CallIsSafe(w, script, input);
    var (after, record) := FinalizeChecked(w, script, input);
    if record.status.Finalized? {
      assert Pays(after.log[|after.log| - 1]);
    }
  }

  /** What the channel looked like to the call, when the inspection answered. */
  function Seen(w: World, script: Script, input: ChannelInput): Option<Descriptor> {
    var view := Inspect(w, script, input.channelAddress).1;
    if view.Returned? then view.value else None
  }

  /**
    The recovery action fits what the call found, for every adapter: wait exactly when a matching channel is in its
    forced-close grace period, inspect before anything was sent or after a mismatch, retry the sealing only of a
    channel that was not sealed, retry the distribution only with the settlement's signature preserved.
   */
  lemma RecoveryAdvice(w: World, script: Script, input: ChannelInput)
    ensures var record := FinalizeChecked(w, script, input).1;
      var seen := Seen(w, script, input);
      var usable := seen.Some? && ChannelMatches(seen.value, input);
      match record.status
      case Finalized =>
        && usable && (seen.value.state == Open || seen.value.state == Sealed)
        && record.distributionSignature.Some? && (seen.value.state == Sealed ==> record.settlementSignature.None?)
      case RecoveryRequired(phase, action) =>
        && (action == WaitForForcedClose <==> usable && seen.value.state == Closing)
        && (phase == AtInspect <==> !usable || seen.value.state == Distributed || seen.value.state == Reclaimed)
        && (action == RetrySettleAndSeal ==> phase == AtSettleAndSeal && usable && seen.value.state != Sealed)
        && (action == RetryDistribute <==> phase == AtDistribute)
        && (phase == AtInspect || phase == AtReconcile ==> action == InspectChannel)
        && (phase == AtDistribute || phase == AtReconcile <==> record.settlementSignature.Some?)
        && (phase == AtReconcile <==> record.distributionSignature.Some?)
  {
    var (seen, view) := Inspect(w, script, input.channelAddress);
    if view.Returned? && view.value.Some? && ChannelMatches(view.value.value, input) {
      var channel := view.value.value;
      if channel.state == Opening || channel.state == Open || channel.state == Sealed {
        var (sealed, settlement) := SealAtAuthorizedWatermark(seen, script, channel, input);
        if settlement.Returned? && SettlementVerified(settlement.value, input) {
          assert channel.state != Opening;
        }
      }
    }
  }

  // ----- any number of calls -----

  /** Every payout in the log is on chain, and no channel's distribution landed twice. */
  ghost predicate PaidOnce(w: World) {
    && (forall k :: 0 <= k < |w.log| && Pays(w.log[k]) ==> !Unpaid(w.accounts, w.log[k].address))
    && (forall i, j :: 0 <= i < j < |w.log| && Pays(w.log[i]) && Pays(w.log[j]) ==>
          w.log[i].address != w.log[j].address)
  }

  lemma StaysPaid(before: Accounts, after: Accounts, address: string)
    requires Evolves(before, after) && !Unpaid(before, address)
    ensures !Unpaid(after, address) && after[address].payouts[0] == before[address].payouts[0]
  {
    assert Later(before[address], after[address]);
  }

  lemma CallKeepsPaidOnce(w: World, script: Script, input: ChannelInput, after: World, record: Record)
    requires SafeCall(w, script, input, after, record) && PaidOnce(w)
    ensures PaidOnce(after)
  {
    assert forall k :: 0 <= k < |w.log| ==> after.log[k] == w.log[k];
    forall k | 0 <= k < |after.log| && Pays(after.log[k])
      ensures !Unpaid(after.accounts, after.log[k].address)
    {
      if k < |w.log| {
        StaysPaid(w.accounts, after.accounts, w.log[k].address);
      } else {
        assert Proper(after.log[k], input);
      }
    }
    forall i, j | 0 <= i < j < |after.log| && Pays(after.log[i]) && Pays(after.log[j])
      ensures after.log[i].address != after.log[j].address
    {
      assert i < |w.log|;
      if j >= |w.log| {
        assert Proper(after.log[j], input);
        assert !Unpaid(w.accounts, w.log[i].address);
      }
    }
  }

  /** A channel already paid out is never reported finalized again, even when the receipt of the payout was lost. */
  lemma {:induction false} PaidChannelsAreNotFinalized(w: World, script: Script, inputs: seq<ChannelInput>, i: nat)
    requires Honest(script) && Sound(w.accounts)
    requires i < |inputs| && !Unpaid(w.accounts, inputs[i].channelAddress)
    ensures var records := FinalizeEach(w, script, inputs).1;
      |records| == |inputs| && records[i].status.RecoveryRequired?
    decreases |inputs|
  {
    EachLength(w, script, inputs);
    CallOutcome(w, script, inputs[0]);
    if i == 0 {
    } else {
      var next := FinalizeChecked(w, script, inputs[0]).0;
      StaysPaid(w.accounts, next.accounts, inputs[i].channelAddress);
      PaidChannelsAreNotFinalized(next, script, inputs[1..], i - 1);
    }
  }

  ghost predicate ProperForOne(r: Request, inputs: seq<ChannelInput>) {
    exists i :: 0 <= i < |inputs| && Proper(r, inputs[i])
  }

  /** Any list of calls, on any channels and with repetitions: what they request of the chain. */
  lemma {:induction false} CampaignIsSafe(w: World, script: Script, inputs: seq<ChannelInput>)
    requires Honest(script) && Sound(w.accounts) && PaidOnce(w)
    ensures var end := FinalizeEach(w, script, inputs).0;
      && Sound(end.accounts) && Evolves(w.accounts, end.accounts) && PaidOnce(end) && w.log <= end.log
      && forall k :: |w.log| <= k < |end.log| ==> ProperForOne(end.log[k], inputs)
    decreases |inputs|
  {
    if inputs == [] {
    } else {
      CallIsSafe(w, script, inputs[0]);
      var (next, record) := FinalizeChecked(w, script, inputs[0]);
      CallKeepsPaidOnce(w, script, inputs[0], next, record);
      CampaignIsSafe(next, script, inputs[1..]);
      var end := FinalizeEach(w, script, inputs).0;
      EvolvesTransitive(w.accounts, next.accounts, end.accounts);
      CampaignRequests(w, next, end, inputs);
    }
  }

  /** Every call reported finalized left its exact payout on chain for good. */
  lemma {:induction false} FinalizedMeansPaid(w: World, script: Script, inputs: seq<ChannelInput>, i: nat)
    requires Honest(script) && Sound(w.accounts) && PaidOnce(w)
    requires i < |inputs|
    ensures var (end, records) := FinalizeEach(w, script, inputs);
      && |records| == |inputs|
      && (records[i].status.Finalized? ==>
            && inputs[i].channelAddress in end.accounts
            && end.accounts[inputs[i].channelAddress].payouts == PaidOut(inputs[i]))
    decreases |inputs|
  {
    EachLength(w, script, inputs);
    CallIsSafe(w, script, inputs[0]);
    var (next, record) := FinalizeChecked(w, script, inputs[0]);
    CallKeepsPaidOnce(w, script, inputs[0], next, record);
    if i > 0 {
      FinalizedMeansPaid(next, script, inputs[1..], i - 1);
    } else if record.status.Finalized? {
      var end := FinalizeEach(w, script, inputs).0;
      CallOutcome(w, script, inputs[0]);
      CampaignIsSafe(next, script, inputs[1..]);
      StaysPaid(next.accounts, end.accounts, inputs[0].channelAddress);
      assert ChannelSound(end.accounts[inputs[0].channelAddress]);
    }
  }

  lemma CampaignRequests(w: World, next: World, end: World, inputs: seq<ChannelInput>)
    requires inputs != [] && w.log <= next.log <= end.log
    requires forall k :: |w.log| <= k < |next.log| ==> Proper(next.log[k], inputs[0])
    requires forall k :: |next.log| <= k < |end.log| ==> ProperForOne(end.log[k], inputs[1..])
    ensures forall k :: |w.log| <= k < |end.log| ==> ProperForOne(end.log[k], inputs)
  {
    forall k | |w.log| <= k < |end.log|
      ensures ProperForOne(end.log[k], inputs)
    {
      if k < |next.log| {
        assert end.log[k] == next.log[k];
      } else {
        ProperForMore(end.log[k], inputs);
      }
    }
  }

  lemma ProperForMore(r: Request, inputs: seq<ChannelInput>)
    requires inputs != [] && ProperForOne(r, inputs[1..])
    ensures ProperForOne(r, inputs)
  {
    var i :| 0 <= i < |inputs[1..]| && Proper(r, inputs[1..][i]);
    assert Proper(r, inputs[i + 1]);
  }

  /** Over any list of calls, at most one reports a given channel finalized. */
  lemma {:induction false} FinalizedOnce(w: World, script: Script, inputs: seq<ChannelInput>, i: nat, j: nat)
    requires Honest(script) && Sound(w.accounts)
    requires i < j < |inputs| && inputs[i].channelAddress == inputs[j].channelAddress
    ensures var records := FinalizeEach(w, script, inputs).1;
      |records| == |inputs| && !(records[i].status.Finalized? && records[j].status.Finalized?)
    decreases |inputs|
  {
    EachLength(w, script, inputs);
    if i == 0 {
      FinalizedFirst(w, script, inputs, j);
    } else {
      CallOutcome(w, script, inputs[0]);
      FinalizedOnce(FinalizeChecked(w, script, inputs[0]).0, script, inputs[1..], i - 1, j - 1);
    }
  }

  lemma FinalizedFirst(w: World, script: Script, inputs: seq<ChannelInput>, j: nat)
    requires Honest(script) && Sound(w.accounts)
    requires 0 < j < |inputs| && inputs[0].channelAddress == inputs[j].channelAddress
    ensures var records := FinalizeEach(w, script, inputs).1;
      |records| == |inputs| && !(records[0].status.Finalized? && records[j].status.Finalized?)
  {
    EachLength(w, script, inputs);
    CallOutcome(w, script, inputs[0]);
    var (next, record) := FinalizeChecked(w, script, inputs[0]);
    if record.status.Finalized? {
      PaidChannelsAreNotFinalized(next, script, inputs[1..], j - 1);
    }
  }

  lemma {:induction false} EachLength(w: World, script: Script, inputs: seq<ChannelInput>)
    ensures |FinalizeEach(w, script, inputs).1| == |inputs|
    decreases |inputs|
  {
    if inputs == [] {
    } else {
      EachLength(FinalizeChecked(w, script, inputs[0]).0, script, inputs[1..]);
    }
  }

  // ----- progress -----

  /** The states from which an undisturbed call finalises. */
  predicate Ready(c: Option<Channel>, input: ChannelInput) {
    && c.Some?
    && c.value.deposit == input.depositCeilingAtomic
    && (|| (c.value.phase == Sealed && c.value.settled == input.authorizedCumulativeAtomic)
        || (c.value.phase == Open && c.value.settled == input.authorizedCumulativeAtomic)
        || (c.value.phase == Open && c.value.settled < input.authorizedCumulativeAtomic && input.finalVoucher.Some?))
  }

  /** An undisturbed call on a valid input finalises exactly when the channel is ready. */
  lemma QuietCallFinalizesExactly(w: World, script: Script, input: ChannelInput)
    requires Honest(script) && InputProblem(input).None?
    requires Quiet(script, w.calls) && Quiet(script, w.calls + 1) && Quiet(script, w.calls + 2)
    ensures FinalizeChecked(w, script, input).1.status.Finalized?
            <==> Ready(Lookup(w.accounts, input.channelAddress), input)
  {
    var (seen, view) := Inspect(w, script, input.channelAddress);
    assert seen.accounts == w.accounts;
    if view.value.Some? && ChannelMatches(view.value.value, input) {
      if view.value.value.state == Open {
        QuietOpen(seen, script, view.value.value, input);
      } else if view.value.value.state == Sealed && view.value.value.settledAmount == input.authorizedCumulativeAtomic {
        SealedRetry(w, script, input);
      }
    }
  }

  lemma QuietOpen(w: World, script: Script, channel: Descriptor, input: ChannelInput)
    requires Honest(script) && InputProblem(input).None? && ChannelMatches(channel, input)
    requires Quiet(script, w.calls) && Quiet(script, w.calls + 1)
    requires channel.state == Open && input.channelAddress in w.accounts
    requires w.accounts[input.channelAddress].(payouts := [])
      == Channel(channel.depositCeiling, channel.settledAmount, Open, [])
    ensures SealAndDistribute(w, script, channel, input).1.status.Finalized?
            <==> channel.settledAmount == input.authorizedCumulativeAtomic || input.finalVoucher.Some?
  {
    assert Arrive(w, script).accounts == w.accounts;
    var (sealed, settlement) := SealAtAuthorizedWatermark(w, script, channel, input);
    if settlement.Returned? {
      QuietDistribution(sealed, script, input, settlement.value);
    }
  }

  lemma QuietDistribution(w: World, script: Script, input: ChannelInput, settlement: SettlementResult)
    requires Honest(script) && Quiet(script, w.calls)
    requires SealedAsAuthorized(Lookup(w.accounts, input.channelAddress), input)
    requires w.accounts[input.channelAddress].phase == Sealed
    ensures DistributeAndVerify(w, script, input, settlement).1.status.Finalized?
    ensures var log := DistributeAndVerify(w, script, input, settlement).0.log;
      |log| == |w.log| + 1 && log[|w.log|].move == Distribute
  {
    assert Arrive(w, script).accounts == w.accounts;
  }

  /** After a failed distribution, a retry goes straight on to distribute: it seals nothing and finalises. */
  lemma RetryAfterFailedDistribution(w: World, script: Script, input: ChannelInput, failed: World, record: Record)
    requires Honest(script) && Sound(w.accounts)
    requires (failed, record) == FinalizeChecked(w, script, input)
    requires record.status == RecoveryRequired(AtDistribute, RetryDistribute)
    requires Lookup(failed.accounts, input.channelAddress).Some?
    requires failed.accounts[input.channelAddress].phase == Sealed
    requires Quiet(script, failed.calls) && Quiet(script, failed.calls + 1)
    ensures var (end, retried) := FinalizeChecked(failed, script, input);
      && retried.status.Finalized?
      && |end.log| == |failed.log| + 1 && end.log[|failed.log|].move == Distribute
  {
    CallIsSafe(w, script, input);
    SealedRetry(failed, script, input);
  }

  /**
    When the distribution lands but its answer is lost, the payout is on chain while the record asks to distribute
    again; by PaidChannelsAreNotFinalized no later call reports the channel finalized.
   */
  lemma LostReceipt(w: World, script: Script, input: ChannelInput)
    requires Honest(script) && Sound(w.accounts)
    requires SealedAsAuthorized(Lookup(w.accounts, input.channelAddress), input)
    requires w.accounts[input.channelAddress].phase == Sealed && Quiet(script, w.calls)
    requires script(w.calls + 1).others == [] && script(w.calls + 1).fault == FailsAfter
    ensures var (end, record) := FinalizeChecked(w, script, input);
      && record.status == RecoveryRequired(AtDistribute, RetryDistribute)
      && input.channelAddress in end.accounts && end.accounts[input.channelAddress].payouts == PaidOut(input)
  {
    var seen := Inspect(w, script, input.channelAddress).0;
    assert seen.accounts == w.accounts && Arrive(seen, script).accounts == w.accounts;
    assert ChannelSound(w.accounts[input.channelAddress]);
  }

  lemma SealedRetry(w: World, script: Script, input: ChannelInput)
    requires Honest(script)
    requires SealedAsAuthorized(Lookup(w.accounts, input.channelAddress), input)
    requires w.accounts[input.channelAddress].phase == Sealed
    requires Quiet(script, w.calls) && Quiet(script, w.calls + 1)
    ensures var (end, record) := FinalizeChecked(w, script, input);
      && record.status.Finalized?
      && |end.log| == |w.log| + 1 && end.log[|w.log|].move == Distribute
  {
    var seen := Inspect(w, script, input.channelAddress).0;
    assert seen.accounts == w.accounts;
    QuietDistribution(seen, script, input,
                      SettlementResult(input.channelAddress, input.authorizedCumulativeAtomic, ""));
  }
}
