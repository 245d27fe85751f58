/** finalizeTaskChannels: what its checks accept and what its totals mean, for every adapter. */
module TaskReconciliation {
  import opened Basics
  import opened Sums
  import opened Channels
  import opened Finalization
  import opened FinalizationProofs
  import Text

  /** The checking loop accepts exactly the lists of valid inputs without repeated providers or channels. */
  predicate Acceptable(inputs: seq<ChannelInput>, providers: set<string>, addresses: set<string>) {
    && (forall i :: 0 <= i < |inputs| ==>
          && InputProblem(inputs[i]).None?
          && inputs[i].providerId !in providers && inputs[i].channelAddress !in addresses)
    && (forall i, j :: 0 <= i < j < |inputs| ==>
          inputs[i].providerId != inputs[j].providerId && inputs[i].channelAddress != inputs[j].channelAddress)
  }

  lemma {:induction false} ChecksExactly(inputs: seq<ChannelInput>, providers: set<string>, addresses: set<string>)
    ensures FirstProblem(inputs, providers, addresses).None? <==> Acceptable(inputs, providers, addresses)
    decreases |inputs|
  {
    if inputs == [] {
    } else {
      var first, rest := inputs[0], inputs[1..];
      var providers', addresses' := providers + {first.providerId}, addresses + {first.channelAddress};
      ChecksExactly(rest, providers', addresses');
      AcceptableStep(inputs, providers, addresses);
    }
  }

  lemma AcceptableStep(inputs: seq<ChannelInput>, providers: set<string>, addresses: set<string>)
    requires inputs != []
    ensures Acceptable(inputs, providers, addresses)
      <==> (&& InputProblem(inputs[0]).None?
            && inputs[0].providerId !in providers && inputs[0].channelAddress !in addresses
            && Acceptable(inputs[1..], providers + {inputs[0].providerId}, addresses + {inputs[0].channelAddress}))
  {
    var rest := inputs[1..];
    assert forall i :: 0 < i < |inputs| ==> inputs[i] == rest[i - 1];
    if Acceptable(rest, providers + {inputs[0].providerId}, addresses + {inputs[0].channelAddress}) {
      forall i, j | 0 <= i < j < |inputs|
        ensures inputs[i].providerId != inputs[j].providerId && inputs[i].channelAddress != inputs[j].channelAddress
      {
        assert inputs[j] == rest[j - 1];
        if i > 0 { assert inputs[i] == rest[i - 1]; }
      }
    }
    if Acceptable(inputs, providers, addresses) {
      forall i | 0 <= i < |rest|
        ensures rest[i].providerId != inputs[0].providerId && rest[i].channelAddress != inputs[0].channelAddress
      {
        assert rest[i] == inputs[i + 1];
      }
    }
  }

  /** What a record says about the amounts. */
  predicate WellFormed(r: Record, input: ChannelInput) {
    && r.input == input
    && (r.status.Finalized? ==>
          && r.providerAmountAtomic == input.authorizedCumulativeAtomic
          && r.payerRefundAtomic == input.depositCeilingAtomic - input.authorizedCumulativeAtomic)
    && (r.status.RecoveryRequired? && r.status.failedPhase != AtReconcile ==>
          r.providerAmountAtomic == 0 && r.payerRefundAtomic == 0)
  }

  lemma RecordsAreWellFormed(w: World, script: Script, input: ChannelInput)
    ensures WellFormed(FinalizeChecked(w, script, input).1, input)
  {
  }

  /** The amounts that channels failing in the reconcile phase reported. */
  function Disputed(records: seq<Record>): int {
    if records == [] then 0
    else
      (if records[0].status.RecoveryRequired? && records[0].status.failedPhase == AtReconcile
       then records[0].providerAmountAtomic + records[0].payerRefundAtomic else 0) + Disputed(records[1..])
  }

  lemma {:induction false} EachRecord(w: World, script: Script, inputs: seq<ChannelInput>)
    ensures var records := FinalizeEach(w, script, inputs).1;
      |records| == |inputs| && forall i :: 0 <= i < |inputs| ==> WellFormed(records[i], inputs[i])
    decreases |inputs|
  {
    if inputs == [] {
    } else {
      RecordsAreWellFormed(w, script, inputs[0]);
      EachRecord(FinalizeChecked(w, script, inputs[0]).0, script, inputs[1..]);
      assert forall i :: 0 < i < |inputs| ==> inputs[i] == inputs[1..][i - 1];
    }
  }

  lemma {:induction false} TotalsBalance(records: seq<Record>, inputs: seq<ChannelInput>)
    requires |records| == |inputs| && forall i :: 0 <= i < |inputs| ==> WellFormed(records[i], inputs[i])
    ensures ProviderPaid(records) + Refunded(records) + Unresolved(records) == Reserved(inputs) + Disputed(records)
    ensures (forall i :: 0 <= i < |records| ==> records[i].status.Finalized?) ==>
      && ProviderPaid(records) == Authorized(inputs)
      && Refunded(records) == Reserved(inputs) - Authorized(inputs)
    decreases |inputs|
  {
    if inputs == [] {
    } else {
      assert forall i :: 0 <= i < |inputs[1..]| ==>
        inputs[1..][i] == inputs[i + 1] && records[1..][i] == records[i + 1];
      assert WellFormed(records[0], inputs[0]);
      TotalsBalance(records[1..], inputs[1..]);
    }
  }

  /**
    For every list of channels and every adapter: the task is reconciled exactly when every channel was finalized,
    and what is reconciled plus what is still in escrow is the budget plus the amounts under dispute.
   */
  lemma ReconciliationExact(w: World, script: Script, input: TaskInput)
    requires TaskProblem(input).None?
    ensures var s := FinalizeTaskChannels(w, script, input).value.1;
      && (s.isReconciled <==> s.isFullyFinalized)
      && (s.isFullyFinalized <==> forall i :: 0 <= i < |s.channels| ==> s.channels[i].status.Finalized?)
      && |s.channels| == |input.channels|
      && s.reconciledAtomic + s.unresolvedEscrowAtomic == input.taskBudgetAtomic + Disputed(s.channels)
      && s.unreservedBudgetAtomic >= 0
      && s.finalizedChannelCount + s.recoveryRequiredChannelCount == |input.channels|
  {
    var records := FinalizeEach(w, script, input.channels).1;
    EachRecord(w, script, input.channels);
    TotalsBalance(records, input.channels);
  }

  lemma {:induction false} NothingDisputed(w: World, script: Script, inputs: seq<ChannelInput>)
    requires Honest(script) && Sound(w.accounts)
    ensures Disputed(FinalizeEach(w, script, inputs).1) == 0
    decreases |inputs|
  {
    if inputs == [] {
    } else {
      CallIsSafe(w, script, inputs[0]);
      var (next, record) := FinalizeChecked(w, script, inputs[0]);
      NothingDisputed(next, script, inputs[1..]);
      assert FinalizeEach(w, script, inputs).1[1..] == FinalizeEach(next, script, inputs[1..]).1;
    }
  }

  /**
    With an adapter that reports the chain, reconciled and unresolved amounts add up to the budget, and a reconciled
    task has paid every provider its authorized amount and refunded the rest, on chain.
   */
  lemma ReconciledMeansPaid(w: World, script: Script, input: TaskInput)
    requires Honest(script) && Sound(w.accounts) && PaidOnce(w) && TaskProblem(input).None?
    ensures var (end, s) := FinalizeTaskChannels(w, script, input).value;
      && s.reconciledAtomic + s.unresolvedEscrowAtomic == input.taskBudgetAtomic
      && (s.isReconciled ==> forall i :: 0 <= i < |input.channels| ==> PaidAs(end, input.channels[i]))
  {
    ReconciliationExact(w, script, input);
    NothingDisputed(w, script, input.channels);
    var (end, records) := FinalizeEach(w, script, input.channels);
    var s := FinalizeTaskChannels(w, script, input).value.1;
    if s.isReconciled {
      forall i | 0 <= i < |input.channels| ensures PaidAs(end, input.channels[i]) {
        assert s.channels[i].status.Finalized?;
        FinalizedMeansPaid(w, script, input.channels, i);
      }
    }
  }

  predicate PaidAs(w: World, input: ChannelInput) {
    && input.channelAddress in w.accounts
    && w.accounts[input.channelAddress].payouts == PaidOut(input)
  }

  // ----- which error -----

  /** What is wrong with the i-th input: with itself, or with repeating an id. */
  predicate Wrong(inputs: seq<ChannelInput>, i: nat, e: InputError)
    requires i < |inputs|
  {
    var input := inputs[i];
    match e
    case ProviderIdRequired => Text.Blank(input.providerId)
    case ChannelAddressRequired => Text.Blank(input.channelAddress)
    case NegativeDeposit => input.depositCeilingAtomic < 0
    case NegativeAuthorized => input.authorizedCumulativeAtomic < 0
    case AuthorizedExceedsDeposit => input.authorizedCumulativeAtomic > input.depositCeilingAtomic
    case DuplicateProvider(id) => id == input.providerId && exists j :: 0 <= j < i && inputs[j].providerId == id
    case DuplicateChannel(a) => a == input.channelAddress && exists j :: 0 <= j < i && inputs[j].channelAddress == a
    case _ => false
  }

  function Place(e: InputError): nat {
    match e
    case ProviderIdRequired => 0 case ChannelAddressRequired => 1 case NegativeDeposit => 2
    case NegativeAuthorized => 3 case AuthorizedExceedsDeposit => 4
    case DuplicateProvider(_) => 5 case DuplicateChannel(_) => 6
    case _ => 7
  }

  /** The first thing wrong with the list, input by input and check by check. */
  ghost predicate FirstWrong(inputs: seq<ChannelInput>, i: nat, e: InputError)
    requires i < |inputs|
  {
    && Wrong(inputs, i, e) && (forall d :: Place(d) < Place(e) ==> !Wrong(inputs, i, d))
    && (forall j, d :: 0 <= j < i ==> !Wrong(inputs, j, d))
  }

  /** The ids among the first n inputs. */
  ghost predicate SeenIn(inputs: seq<ChannelInput>, n: nat, providers: set<string>, addresses: set<string>)
    requires n <= |inputs|
  {
    && (forall p :: p in providers <==> exists j :: 0 <= j < n && inputs[j].providerId == p)
    && (forall a :: a in addresses <==> exists j :: 0 <= j < n && inputs[j].channelAddress == a)
  }

  lemma SeenNext(inputs: seq<ChannelInput>, n: nat, providers: set<string>, addresses: set<string>)
    requires n < |inputs| && SeenIn(inputs, n, providers, addresses)
    ensures SeenIn(inputs, n + 1, providers + {inputs[n].providerId}, addresses + {inputs[n].channelAddress})
  {
  }

  lemma NothingWrong(inputs: seq<ChannelInput>, n: nat, providers: set<string>, addresses: set<string>)
    requires n < |inputs| && SeenIn(inputs, n, providers, addresses)
    requires InputProblem(inputs[n]).None?
    requires inputs[n].providerId !in providers && inputs[n].channelAddress !in addresses
    ensures forall d :: !Wrong(inputs, n, d)
  {
  }

  lemma SomethingWrong(inputs: seq<ChannelInput>, n: nat, providers: set<string>, addresses: set<string>, e: InputError)
    requires n < |inputs| && SeenIn(inputs, n, providers, addresses)
    requires e == if InputProblem(inputs[n]).Some? then InputProblem(inputs[n]).value
                  else if inputs[n].providerId in providers then DuplicateProvider(inputs[n].providerId)
                  else DuplicateChannel(inputs[n].channelAddress)
    requires InputProblem(inputs[n]).None? && inputs[n].providerId !in providers ==>
      inputs[n].channelAddress in addresses
    ensures Wrong(inputs, n, e) && forall d :: Place(d) < Place(e) ==> !Wrong(inputs, n, d)
  {
  }

  ghost predicate Identifies(inputs: seq<ChannelInput>, problem: Option<InputError>) {
    match problem
    case None => forall j, d :: 0 <= j < |inputs| ==> !Wrong(inputs, j, d)
    case Some(e) => exists i :: 0 <= i < |inputs| && FirstWrong(inputs, i, e)
  }

  lemma {:induction false} FirstProblemFrom(
    inputs: seq<ChannelInput>, n: nat, providers: set<string>, addresses: set<string>)
    requires n <= |inputs| && SeenIn(inputs, n, providers, addresses)
    requires forall j, d :: 0 <= j < n ==> !Wrong(inputs, j, d)
    ensures Identifies(inputs, FirstProblem(inputs[n..], providers, addresses))
    decreases |inputs| - n
  {
    if n == |inputs| {
    } else {
      var input := inputs[n];
      assert inputs[n..][1..] == inputs[n + 1..];
      if InputProblem(input).None? && input.providerId !in providers && input.channelAddress !in addresses {
        NothingWrong(inputs, n, providers, addresses);
        SeenNext(inputs, n, providers, addresses);
        assert FirstProblem(inputs[n..], providers, addresses) ==
          FirstProblem(inputs[n + 1..], providers + {input.providerId}, addresses + {input.channelAddress});
        FirstProblemFrom(inputs, n + 1, providers + {input.providerId}, addresses + {input.channelAddress});
      } else {
        var e := FirstProblem(inputs[n..], providers, addresses).value;
        SomethingWrong(inputs, n, providers, addresses, e);
        assert FirstWrong(inputs, n, e);
      }
    }
  }

  /**
    The checks refuse a task for a negative budget, else for the first thing wrong with its channels, else for
    ceilings that together exceed the budget.
   */
  lemma ProblemExactly(input: TaskInput)
    ensures match TaskProblem(input)
      case None =>
        && 0 <= SumBy(input.channels, Deposit()) <= input.taskBudgetAtomic
        && forall j, d :: 0 <= j < |input.channels| ==> !Wrong(input.channels, j, d)
      case Some(NegativeBudget) => input.taskBudgetAtomic < 0
      case Some(CeilingsExceedBudget) =>
        && 0 <= input.taskBudgetAtomic < SumBy(input.channels, Deposit())
        && forall j, d :: 0 <= j < |input.channels| ==> !Wrong(input.channels, j, d)
      case Some(e) =>
        input.taskBudgetAtomic >= 0 && exists i :: 0 <= i < |input.channels| && FirstWrong(input.channels, i, e)
  {
    assert input.channels[0..] == input.channels;
    FirstProblemFrom(input.channels, 0, {}, {});
    InputSums(input.channels);
    if forall j, d :: 0 <= j < |input.channels| ==> !Wrong(input.channels, j, d) {
      forall c | c in input.channels ensures Deposit()(c) >= 0 {
        var j :| 0 <= j < |input.channels| && input.channels[j] == c;
        assert !Wrong(input.channels, j, NegativeDeposit);
      }
      SumNonNegative(input.channels, Deposit());
    }
  }

  // ----- the summary -----

  function Deposit(): ChannelInput -> int {
    (c: ChannelInput) => c.depositCeilingAtomic
  }

  function Watermark(): ChannelInput -> int {
    (c: ChannelInput) => c.authorizedCumulativeAtomic
  }

  function PaidBy(): Record -> int {
    (r: Record) => r.providerAmountAtomic
  }

  function RefundedBy(): Record -> int {
    (r: Record) => r.payerRefundAtomic
  }

  function InEscrow(): Record -> int {
    (r: Record) => if r.status.Finalized? then 0 else r.input.depositCeilingAtomic
  }

  function Finished(): Record -> int {
    (r: Record) => if r.status.Finalized? then 1 else 0
  }

  lemma {:induction false} InputSums(inputs: seq<ChannelInput>)
    ensures Reserved(inputs) == SumBy(inputs, Deposit()) && Authorized(inputs) == SumBy(inputs, Watermark())
  {
    if inputs == [] {
    } else {
      InputSums(inputs[1..]);
    }
  }

  lemma {:induction false} RecordSums(records: seq<Record>)
    ensures ProviderPaid(records) == SumBy(records, PaidBy()) && Refunded(records) == SumBy(records, RefundedBy())
    ensures Unresolved(records) == SumBy(records, InEscrow()) && FinalizedCount(records) == SumBy(records, Finished())
  {
    if records == [] {
    } else {
      RecordSums(records[1..]);
    }
  }

  /** Every field of a task's summary, as sums over its channels and their records. */
  lemma SummaryExactly(w: World, script: Script, input: TaskInput)
    requires TaskProblem(input).None?
    ensures var s := FinalizeTaskChannels(w, script, input).value.1;
      var reserved, refunded := SumBy(input.channels, Deposit()), SumBy(s.channels, RefundedBy());
      var paid := SumBy(s.channels, PaidBy());
      && s.reservedCeilingAtomic == reserved && s.unreservedBudgetAtomic == input.taskBudgetAtomic - reserved
      && s.authorizedSpendAtomic == SumBy(input.channels, Watermark())
      && s.providerPaidAtomic == paid && s.channelRefundAtomic == refunded
      && s.totalRecoveredAtomic == refunded + input.taskBudgetAtomic - reserved
      && s.unresolvedEscrowAtomic == SumBy(s.channels, InEscrow())
      && s.reconciledAtomic == paid + refunded + input.taskBudgetAtomic - reserved
      && s.finalizedChannelCount == SumBy(s.channels, Finished())
      && s.recoveryRequiredChannelCount == |s.channels| - SumBy(s.channels, Finished())
      && |s.channels| == |input.channels|
      && forall i :: 0 <= i < |s.channels| ==> s.channels[i].input == input.channels[i]
  {
    var records := FinalizeEach(w, script, input.channels).1;
    InputSums(input.channels);
    RecordSums(records);
    EachRecord(w, script, input.channels);
  }
}
