/** A task from its request to its reconciliation: properties that need several components at once. */
module EndToEnd {
  import opened Basics
  import opened Sums
  import opened Domain
  import opened Routing
  import opened RoutingTheorems
  import C = Channels
  import F = Finalization
  import FP = FinalizationProofs
  import N = Numerals
  import PolicyRules
  import TR = TaskReconciliation
  import Text
  import V = Vouchers

  // ----- the request: packages/application/src/contracts.ts -----

  datatype RequestError = NoProviders | AllowedAndBlocked

  /** The provider lists of parseCreateTaskRequest after the schema. */
  function TaskProviders(allowed: seq<string>, blocked: seq<string>): Result<(seq<string>, seq<string>), RequestError> {
    var a, b := PolicyRules.Dedupe(allowed, []), PolicyRules.Dedupe(blocked, []);
    if |a| == 0 then Err(NoProviders)
    else if exists p :: p in a && p in b then Err(AllowedAndBlocked)
    else Ok((a, b))
  }

  /**
    The lists are accepted exactly when some provider is allowed and none is both; they come out without
    repetitions.
   */
  lemma TaskProvidersExactly(allowed: seq<string>, blocked: seq<string>)
    ensures TaskProviders(allowed, blocked).Ok? <==> allowed != [] && forall p :: p in allowed ==> p !in blocked
    ensures TaskProviders(allowed, blocked) == Err(NoProviders) <==> allowed == []
    ensures TaskProviders(allowed, blocked).Ok? ==>
      var (a, b) := TaskProviders(allowed, blocked).value;
      && Distinct(a) && Distinct(b)
      && (forall p :: p in a <==> p in allowed) && (forall p :: p in b <==> p in blocked)
      && (forall i, j :: 0 <= i < j < |a| ==>
            PolicyRules.FirstIndex(allowed, a[i]) < PolicyRules.FirstIndex(allowed, a[j]))
  {
    PolicyRules.DedupeIsSet(allowed, []);
    PolicyRules.DedupeIsSet(blocked, []);
    if allowed != [] { assert allowed[0] in PolicyRules.Dedupe(allowed, []); }
    var a := PolicyRules.Dedupe(allowed, []);
    forall i, j | 0 <= i < j < |a|
      ensures a[i] in allowed && a[j] in allowed
      ensures PolicyRules.FirstIndex(allowed, a[i]) < PolicyRules.FirstIndex(allowed, a[j])
    {
      PolicyRules.DedupeInOrder(allowed, [], i, j);
    }
  }

  // ----- the vouchers of a run -----

  /** The voucher that authorizes a charge on its provider's channel. */
  function VoucherOf(f: Flow, channelId: seq<int>, expiresAt: int): V.Voucher {
    V.Voucher(channelId, f.nextCumulativeAtomic, expiresAt)
  }

  /**
    Every charge of every run steps from one voucher amount to a higher one within its channel: the monotonic check
    accepts it if and only if the channel's ceiling fits an unsigned 64-bit amount, as it does under every budget that
    fits. Its voucher can be encoded if and only if its amount fits, and then survives the wire.
   */
  lemma ChargesMakeVouchers(
    task: Task, registry: map<string, string>, cs: seq<ChannelReservation>, start: Route, events: seq<Event>,
    i: nat, channelId: seq<int>, expiresAt: int)
    requires Accepted(task, registry, cs, start)
    requires |channelId| == V.CHANNEL_ID_LENGTH && N.DigitsBelow(channelId, 256) && V.IsI64(expiresAt)
    requires var r := Run(task, registry, start, events); i < |r.flows| && r.flows[i].status != Rejected
    ensures var r := Run(task, registry, start, events);
      var f := r.flows[i];
      && f.providerId in r.states
      && var ceiling := r.states[f.providerId].channelCeilingAtomic;
         && (V.MonotonicProblem(f.previousCumulativeAtomic, f.nextCumulativeAtomic, ceiling).None?
             <==> V.IsU64(ceiling))
         && (V.IsU64(task.budget.totalAtomic) ==> V.IsU64(ceiling))
         && (V.IsU64(ceiling) ==> V.IsU64(f.nextCumulativeAtomic))
    ensures var v := VoucherOf(Run(task, registry, start, events).flows[i], channelId, expiresAt);
      && (V.Encode(v).Ok? <==> V.IsU64(v.cumulativeAmount))
      && (V.Encode(v).Ok? ==> V.Decode(V.Encode(v).value) == Ok(v))
  {
    RunInvariant(task, registry, cs, start, events);
    ChargeFits(task, Run(task, registry, start, events), i);
    VoucherSurvives(VoucherOf(Run(task, registry, start, events).flows[i], channelId, expiresAt));
  }

  lemma ChargeFits(task: Task, r: Route, i: nat)
    requires RouteInvariant(task, r) && i < |r.flows| && r.flows[i].status != Rejected
    ensures var f := r.flows[i];
      && f.providerId in r.states
      && var ceiling := r.states[f.providerId].channelCeilingAtomic;
         && (V.MonotonicProblem(f.previousCumulativeAtomic, f.nextCumulativeAtomic, ceiling).None?
             <==> V.IsU64(ceiling))
         && (V.IsU64(task.budget.totalAtomic) ==> V.IsU64(ceiling))
         && (V.IsU64(ceiling) ==> V.IsU64(f.nextCumulativeAtomic))
  {
    ChargeInRange(task, r, i);
  }

  lemma VoucherSurvives(v: V.Voucher)
    requires |v.channelId| == V.CHANNEL_ID_LENGTH && N.DigitsBelow(v.channelId, 256) && V.IsI64(v.expiresAt)
    ensures V.Encode(v).Ok? <==> V.IsU64(v.cumulativeAmount)
    ensures V.Encode(v).Ok? ==> V.Decode(V.Encode(v).value) == Ok(v)
  {
    if V.IsU64(v.cumulativeAmount) { V.DecodeEncode(v); }
  }

  lemma ChargeInRange(task: Task, r: Route, i: nat)
    requires RouteInvariant(task, r) && i < |r.flows| && r.flows[i].status != Rejected
    ensures var f := r.flows[i];
      && f.providerId in r.states
      && 0 <= f.previousCumulativeAtomic < f.nextCumulativeAtomic
      && f.nextCumulativeAtomic <= r.states[f.providerId].channelCeilingAtomic <= task.budget.totalAtomic
  {
    var f := r.flows[i];
    assert FlowSound(task, r, f);
    EarlierCharges(r.flows, f.providerId, CumulativeOf(r, f.providerId), i);
    CeilingWithinBudget(task, r, f.providerId);
  }

  lemma CeilingWithinBudget(task: Task, r: Route, p: string)
    requires Balanced(task, r) && p in r.states
    ensures r.states[p].cumulativeAuthorizedAtomic <= r.states[p].channelCeilingAtomic <= task.budget.totalAtomic
  {
    assert ProviderBalanced(task, r, p);
    forall q | q in r.order ensures CeilingOf(r.states)(q) >= 0 {
      assert ProviderBalanced(task, r, q);
    }
    SumAtLeast(r.order, CeilingOf(r.states), p);
  }

  // ----- finalising a run -----

  /** One finalisation input per reserved provider: the ceiling as deposit, the authorization as watermark. */
  function ChannelInputs(
    r: Route, ids: seq<string>, address: string -> string, voucher: string -> Option<C.FinalVoucher>)
    : seq<F.ChannelInput>
  {
    if ids == [] then []
    else
      [F.ChannelInput(ids[0], address(ids[0]), CeilingOf(r.states)(ids[0]), CumulativeOf(r, ids[0]), voucher(ids[0]))]
      + ChannelInputs(r, ids[1..], address, voucher)
  }

  lemma {:induction false} InputsAt(
    r: Route, ids: seq<string>, address: string -> string, voucher: string -> Option<C.FinalVoucher>)
    ensures var inputs := ChannelInputs(r, ids, address, voucher);
      && |inputs| == |ids|
      && F.Reserved(inputs) == SumBy(ids, CeilingOf(r.states))
      && (forall i :: 0 <= i < |ids| ==>
            inputs[i] == F.ChannelInput(ids[i], address(ids[i]), CeilingOf(r.states)(ids[i]), CumulativeOf(r, ids[i]),
                                        voucher(ids[i])))
  {
    if ids == [] {
    } else {
      InputsAt(r, ids[1..], address, voucher);
    }
  }

  lemma {:induction false} AuthorizedIsSpent(
    task: Task, r: Route, ids: seq<string>, address: string -> string, voucher: string -> Option<C.FinalVoucher>)
    requires Balanced(task, r) && forall p :: p in ids ==> p in r.states
    ensures F.Authorized(ChannelInputs(r, ids, address, voucher)) == SumBy(ids, SpentOf(r.states))
  {
    if ids == [] {
    } else {
      assert ProviderBalanced(task, r, ids[0]);
      AuthorizedIsSpent(task, r, ids[1..], address, voucher);
    }
  }

  /** Each provider has an address of its own, and neither ids nor addresses are blank. */
  ghost predicate Addressed(ids: seq<string>, address: string -> string) {
    && (forall p :: p in ids ==> !Text.Blank(p) && !Text.Blank(address(p)))
    && (forall p, q :: p in ids && q in ids && p != q ==> address(p) != address(q))
  }

  /** The channels of a run are never refused by the checks of the task finalisation; only a negative budget is. */
  lemma RunsCanBeFinalized(
    task: Task, r: Route, address: string -> string, voucher: string -> Option<C.FinalVoucher>)
    requires Balanced(task, r) && Addressed(r.order, address)
    ensures var input := F.TaskInput(task.id, task.budget.totalAtomic, ChannelInputs(r, r.order, address, voucher));
      && F.TaskProblem(input) == (if task.budget.totalAtomic < 0 then Some(F.NegativeBudget) else None)
      && F.Authorized(input.channels) == r.ledger.spentAtomic
      && F.Reserved(input.channels) == SumBy(r.order, CeilingOf(r.states))
  {
    InputsAt(r, r.order, address, voucher);
    AuthorizedIsSpent(task, r, r.order, address, voucher);
    InputsAcceptable(task, r, address, voucher);
    TR.ChecksExactly(ChannelInputs(r, r.order, address, voucher), {}, {});
  }

  lemma InputsAcceptable(
    task: Task, r: Route, address: string -> string, voucher: string -> Option<C.FinalVoucher>)
    requires Balanced(task, r) && Addressed(r.order, address)
    ensures TR.Acceptable(ChannelInputs(r, r.order, address, voucher), {}, {})
  {
    var ids, inputs := r.order, ChannelInputs(r, r.order, address, voucher);
    InputsAt(r, ids, address, voucher);
    forall i | 0 <= i < |inputs| ensures F.InputProblem(inputs[i]).None? {
      InputValid(task, r, ids[i], inputs[i], address);
    }
    forall i, j | 0 <= i < j < |inputs|
      ensures inputs[i].providerId != inputs[j].providerId && inputs[i].channelAddress != inputs[j].channelAddress
    {
      assert ids[i] in ids && ids[j] in ids && ids[i] != ids[j];
    }
  }

  lemma InputValid(task: Task, r: Route, p: string, input: F.ChannelInput, address: string -> string)
    requires Balanced(task, r) && Addressed(r.order, address) && p in r.order
    requires input.providerId == p && input.channelAddress == address(p)
    requires input.depositCeilingAtomic == CeilingOf(r.states)(p)
    requires input.authorizedCumulativeAtomic == CumulativeOf(r, p)
    ensures F.InputProblem(input).None?
  {
    assert ProviderBalanced(task, r, p);
  }

  /**
    For every run of a task and every adapter that reports the chain: if finalising its channels reconciles, the
    providers were paid on chain exactly what the run's ledger says each of them earned, and everything else of the
    budget came back. Finalising is refused only for a negative budget, under which no channel can be reserved.
   */
  lemma ReconciledRunsPayTheLedger(
    task: Task, registry: map<string, string>, cs: seq<ChannelReservation>, start: Route, events: seq<Event>,
    address: string -> string, voucher: string -> Option<C.FinalVoucher>, w: C.World, script: C.Script)
    requires Accepted(task, registry, cs, start)
    requires Addressed(Run(task, registry, start, events).order, address)
    requires C.Honest(script) && C.Sound(w.accounts) && FP.PaidOnce(w)
    ensures var r := Run(task, registry, start, events);
      var input := F.TaskInput(task.id, task.budget.totalAtomic, ChannelInputs(r, r.order, address, voucher));
      match F.FinalizeTaskChannels(w, script, input)
      case Err(e) => e == F.NegativeBudget && task.budget.totalAtomic < 0 && r.order == []
      case Ok((end, s)) =>
        && s.reconciledAtomic + s.unresolvedEscrowAtomic == task.budget.totalAtomic
        && (s.isReconciled ==>
              && s.providerPaidAtomic == r.ledger.spentAtomic
              && s.totalRecoveredAtomic == task.budget.totalAtomic - r.ledger.spentAtomic
              && forall p :: p in r.order ==> PaidTo(end, address(p), r.ledger.SpentBy(p)))
  {
    RunInvariant(task, registry, cs, start, events);
    var r := Run(task, registry, start, events);
    var inputs := ChannelInputs(r, r.order, address, voucher);
    var input := F.TaskInput(task.id, task.budget.totalAtomic, inputs);
    RunsCanBeFinalized(task, r, address, voucher);
    BalancedTotals(task, r);
    if task.budget.totalAtomic >= 0 {
      TR.ReconciledMeansPaid(w, script, input);
      var (end, s) := F.FinalizeTaskChannels(w, script, input).value;
      if s.isReconciled { PaidAsRecorded(task, r, address, voucher, end); }
    }
  }

  lemma PaidAsRecorded(
    task: Task, r: Route, address: string -> string, voucher: string -> Option<C.FinalVoucher>, end: C.World)
    requires Balanced(task, r)
    requires var inputs := ChannelInputs(r, r.order, address, voucher);
      forall i :: 0 <= i < |inputs| ==> TR.PaidAs(end, inputs[i])
    ensures forall p :: p in r.order ==> PaidTo(end, address(p), r.ledger.SpentBy(p))
  {
    var inputs := ChannelInputs(r, r.order, address, voucher);
    InputsAt(r, r.order, address, voucher);
    forall p | p in r.order ensures PaidTo(end, address(p), r.ledger.SpentBy(p)) {
      var i :| 0 <= i < |r.order| && r.order[i] == p;
      assert TR.PaidAs(end, inputs[i]);
      assert ProviderBalanced(task, r, p);
    }
  }

  /** The channel paid its provider exactly `amount`, once. */
  predicate PaidTo(w: C.World, address: string, amount: int) {
    && address in w.accounts && |w.accounts[address].payouts| == 1
    && w.accounts[address].payouts[0].toProvider == amount
  }
}
