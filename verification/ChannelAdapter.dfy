/** The imperative form of finalization.ts: a stateful adapter and the methods that drive it. */
module ChannelAdapters {
  import opened Basics
  import opened Channels
  import opened Finalization

  class ChannelAdapter {
    const script: Script
    var accounts: Accounts
    var calls: nat
    ghost var log: seq<Request>

    constructor (accounts: Accounts, script: Script)
      ensures Now() == World(accounts, 0, []) && this.script == script
    {
      this.accounts, this.calls, this.script := accounts, 0, script;
      log := [];
    }

    ghost function Now(): World
      reads this
    {
      World(accounts, calls, log)
    }

    method GetChannel(address: string) returns (reply: Reply<Option<Descriptor>>)
      modifies this
      ensures (Now(), reply) == Inspect(old(Now()), script, address)
    {
      var b := script(calls);
      calls, accounts := calls + 1, ActAll(accounts, b.others);
      if b.fault != NoFault {
        return Failed;
      }
      if b.forgedView.Some? {
        return Returned(b.forgedView.value);
      }
      if address !in accounts {
        return Returned(None);
      }
      var c := accounts[address];
      return Returned(Some(Descriptor(address, c.deposit, c.settled, c.phase)));
    }

    /** Sends one transaction; `landed` says whether the program accepted it. */
    method Send(address: string, move: Move, b: Behaviour) returns (landed: bool)
      requires b == script(calls)
      modifies this
      ensures (Now(), landed) == Submit(old(Now()), script, address, move)
    {
      calls, accounts := calls + 1, ActAll(accounts, b.others);
      var found := Lookup(accounts, address);
      landed := false;
      if b.fault != FailsBefore && address in accounts {
        var next := Apply(accounts[address], move);
        if next.Some? {
          accounts := accounts[address := next.value];
          landed := true;
        }
      }
      log := log + [Request(address, move, found, landed)];
    }

    method Seal(address: string, move: Move) returns (reply: Reply<SettlementResult>)
      modifies this
      ensures (Now(), reply) == SubmitSeal(old(Now()), script, address, move)
    {
      var b := script(calls);
      var landed := Send(address, move, b);
      if b.fault != NoFault {
        return Failed;
      }
      if b.forgedSettlement.Some? {
        return Returned(b.forgedSettlement.value);
      }
      if !landed {
        return Failed;
      }
      return Returned(SettlementResult(address, accounts[address].settled, b.signature));
    }

    method Distribute(address: string) returns (reply: Reply<DistributionResult>)
      modifies this
      ensures (Now(), reply) == SubmitDistribute(old(Now()), script, address)
    {
      var b := script(calls);
      var landed := Send(address, Move.Distribute, b);
      if b.fault != NoFault {
        return Failed;
      }
      if b.forgedDistribution.Some? {
        return Returned(b.forgedDistribution.value);
      }
      if !landed {
        return Failed;
      }
      var c := accounts[address];
      return Returned(DistributionResult(address, c.settled, c.deposit - c.settled, b.signature));
    }
  }

  method SealAtWatermark(adapter: ChannelAdapter, channel: Descriptor, input: ChannelInput)
    returns (reply: Reply<SettlementResult>)
    modifies adapter
    ensures (adapter.Now(), reply) == SealAtAuthorizedWatermark(old(adapter.Now()), adapter.script, channel, input)
  {
    if channel.state == Sealed {
      if channel.settledAmount != input.authorizedCumulativeAtomic {
        return Failed;
      }
      return Returned(SettlementResult(channel.channelAddress, channel.settledAmount, ""));
    }
    if channel.state != Open {
      return Failed;
    }
    if channel.settledAmount == input.authorizedCumulativeAtomic {
      reply := adapter.Seal(input.channelAddress, Seal);
    } else if input.finalVoucher.None? {
      reply := Failed;
    } else {
      reply := adapter.Seal(input.channelAddress,
                            SettleAndSeal(input.authorizedCumulativeAtomic, input.finalVoucher.value));
    }
  }

  /** finalizeProviderChannel on an input that passed its checks. */
  method FinalizeOne(adapter: ChannelAdapter, input: ChannelInput) returns (record: Record)
    modifies adapter
    ensures (adapter.Now(), record) == FinalizeChecked(old(adapter.Now()), adapter.script, input)
  {
    var view := adapter.GetChannel(input.channelAddress);
    if view.Failed? || view.value.None? || !ChannelMatches(view.value.value, input) {
      return Recovery(input, AtInspect, InspectChannel, None);
    }
    var channel := view.value.value;
    if channel.state == Distributed || channel.state == Reclaimed {
      return Recovery(input, AtInspect, InspectChannel, None);
    }
    if channel.state == Closing {
      return Recovery(input, AtSettleAndSeal, WaitForForcedClose, None);
    }
    var settlement := SealAtWatermark(adapter, channel, input);
    if settlement.Failed? || !SettlementVerified(settlement.value, input) {
      return Recovery(input, AtSettleAndSeal,
                      if channel.state == Sealed then InspectChannel else RetrySettleAndSeal, None);
    }
    var distribution := adapter.Distribute(input.channelAddress);
    if distribution.Failed? {
      return Recovery(input, AtDistribute, RetryDistribute, Some(settlement.value));
    }
    if !DistributionVerified(distribution.value, input) {
      return Mismatch(input, settlement.value, distribution.value);
    }
    return Success(input, settlement.value, distribution.value);
  }

  /** finalizeProviderChannel: a bad input is refused before anything is sent. */
  method FinalizeProvider(adapter: ChannelAdapter, input: ChannelInput) returns (result: Result<Record, InputError>)
    modifies adapter
    ensures match FinalizeProviderChannel(old(adapter.Now()), adapter.script, input)
      case Err(e) => result == Err(e) && adapter.Now() == old(adapter.Now())
      case Ok((end, record)) => result == Ok(record) && adapter.Now() == end
  {
    var problem := InputProblem(input);
    if problem.Some? {
      return Err(problem.value);
    }
    var record := FinalizeOne(adapter, input);
    return Ok(record);
  }

  /** The checking loop of finalizeTaskChannels, with its running totals and sets of seen ids. */
  method CheckChannels(inputs: seq<ChannelInput>)
    returns (problem: Option<InputError>, reserved: int, authorized: int)
    ensures problem == FirstProblem(inputs, {}, {})
    ensures problem.None? ==> reserved == Reserved(inputs) && authorized == Authorized(inputs)
  {
    var seenProviders, seenChannels := {}, {};
    reserved, authorized := 0, 0;
    var i := 0;
    while i < |inputs|
      invariant 0 <= i <= |inputs|
      invariant FirstProblem(inputs, {}, {}) == FirstProblem(inputs[i..], seenProviders, seenChannels)
      invariant reserved + Reserved(inputs[i..]) == Reserved(inputs)
      invariant authorized + Authorized(inputs[i..]) == Authorized(inputs)
    {
      var input := inputs[i];
      assert inputs[i..][1..] == inputs[i + 1..];
      if InputProblem(input).Some? {
        return InputProblem(input), reserved, authorized;
      }
      if input.providerId in seenProviders {
        return Some(DuplicateProvider(input.providerId)), reserved, authorized;
      }
      if input.channelAddress in seenChannels {
        return Some(DuplicateChannel(input.channelAddress)), reserved, authorized;
      }
      seenProviders, seenChannels := seenProviders + {input.providerId}, seenChannels + {input.channelAddress};
      reserved := reserved + input.depositCeilingAtomic;
      authorized := authorized + input.authorizedCumulativeAtomic;
      i := i + 1;
    }
    problem := None;
  }

  method FinalizeAll(adapter: ChannelAdapter, inputs: seq<ChannelInput>) returns (records: seq<Record>)
    modifies adapter
    ensures (adapter.Now(), records) == FinalizeEach(old(adapter.Now()), adapter.script, inputs)
  {
    records := [];
    var i := 0;
    assert inputs[0..] == inputs;
    AfterNothing(FinalizeEach(adapter.Now(), adapter.script, inputs));
    while i < |inputs|
      invariant 0 <= i <= |inputs|
      invariant After(records, FinalizeEach(adapter.Now(), adapter.script, inputs[i..]))
        == FinalizeEach(old(adapter.Now()), adapter.script, inputs)
    {
      assert inputs[i..][1..] == inputs[i + 1..];
      ghost var now := adapter.Now();
      var record := FinalizeOne(adapter, inputs[i]);
      AfterStep(records, now, adapter.script, inputs[i..]);
      records := records + [record];
      i := i + 1;
    }
    assert records + [] == records;
  }

  /** The records so far, followed by those of the calls still to come. */
  ghost function After(records: seq<Record>, rest: (World, seq<Record>)): (World, seq<Record>) {
    (rest.0, records + rest.1)
  }

  lemma AfterNothing(rest: (World, seq<Record>))
    ensures After([], rest) == rest
  {
    assert [] + rest.1 == rest.1;
  }

  lemma AfterStep(records: seq<Record>, w: World, script: Script, inputs: seq<ChannelInput>)
    requires inputs != []
    ensures var (next, record) := FinalizeChecked(w, script, inputs[0]);
      After(records + [record], FinalizeEach(next, script, inputs[1..]))
        == After(records, FinalizeEach(w, script, inputs))
  {
    var (next, record) := FinalizeChecked(w, script, inputs[0]);
    var rest := FinalizeEach(next, script, inputs[1..]).1;
    assert records + ([record] + rest) == (records + [record]) + rest;
  }

  /** finalizeTaskChannels. */
  method FinalizeTask(adapter: ChannelAdapter, input: TaskInput) returns (result: Result<TaskSummary, InputError>)
    modifies adapter
    ensures match FinalizeTaskChannels(old(adapter.Now()), adapter.script, input)
      case Err(e) => result == Err(e) && adapter.Now() == old(adapter.Now())
      case Ok((end, summary)) => result == Ok(summary) && adapter.Now() == end
  {
    if input.taskBudgetAtomic < 0 {
      return Err(NegativeBudget);
    }
    var problem, reserved, authorized := CheckChannels(input.channels);
    if problem.Some? {
      return Err(problem.value);
    }
    if reserved > input.taskBudgetAtomic {
      return Err(CeilingsExceedBudget);
    }
    var records := FinalizeAll(adapter, input.channels);
    return Ok(Summarize(input, reserved, authorized, records));
  }
}
