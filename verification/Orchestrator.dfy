/**
  The class of packages/core/src/route.ts:105, with the fields the source updates in place.
  Each method runs between two suspension points and is proved equal to a transition of module Routing.
 */
module Orchestrator {
  import opened Basics
  import opened Sums
  import opened Domain
  import opened SpendPolicy
  import opened Routing
  import RoutingTheorems
  import Decimal

  datatype ProviderRouteState = ProviderRouteState(
    providerId: string,
    channelCeilingAtomic: int,
    cumulativeAuthorizedAtomic: int,
    spentAtomic: int)

  datatype PaymentGraph = PaymentGraph(
    taskId: string,
    mint: string,
    budgetAtomic: int,
    spentAtomic: int,
    remainingAtomic: int,
    reservedCeilingAtomic: int,
    providers: seq<ProviderRouteState>,
    flows: seq<Flow>,
    settlements: seq<Settlement>)

  /** A refused reservation refuses every longer list with the same error. */
  lemma {:induction false} BookStaysRefused(
    task: Task, registry: map<string, string>, cs: seq<ChannelReservation>, n: nat)
    requires n <= |cs| && BookReservations(task, registry, cs[..n]).Err?
    ensures BookReservations(task, registry, cs) == BookReservations(task, registry, cs[..n])
  {
    if n < |cs| {
      var front := cs[..|cs| - 1];
      assert front[..n] == cs[..n];
      BookStaysRefused(task, registry, front, n);
    } else {
      assert cs[..n] == cs;
    }
  }

  class CanalisRouteOrchestrator {
    const task: Task
    const registry: map<string, string>
    var ledger: TaskLedger
    var providerOrder: seq<string>
    var providerStates: map<string, ProviderState>
    var flows: seq<Flow>
    var settlements: seq<Settlement>

    ghost function Abstract(): Route
      reads this
    {
      Route(ledger, providerOrder, providerStates, flows, settlements)
    }

    constructor Empty(task: Task, registry: map<string, string>)
      ensures this.task == task && this.registry == registry
      ensures Abstract() == Route(TaskLedger(task.id, 0, map[]), [], map[], [], [])
    {
      this.task, this.registry := task, registry;
      ledger := TaskLedger(task.id, 0, map[]);
      providerOrder, providerStates, flows, settlements := [], map[], [], [];
    }

    /** The source's constructor; where that throws, no object is returned. */
    static method Create(task: Task, registry: map<string, string>, reservations: seq<ChannelReservation>)
      returns (r: Result<CanalisRouteOrchestrator, ReservationError>)
      ensures r.Err? ==> Open(task, registry, reservations) == Err(r.error)
      ensures r.Ok? ==>
                && fresh(r.value) && r.value.task == task && r.value.registry == registry
                && Open(task, registry, reservations) == Ok(r.value.Abstract())
    {
      var o := new CanalisRouteOrchestrator.Empty(task, registry);
      var totalReserved := 0;
      assert reservations[..0] == [];
      for i := 0 to |reservations|
        invariant o.task == task && o.registry == registry
        invariant o.ledger == TaskLedger(task.id, 0, map[]) && o.flows == [] && o.settlements == []
        invariant BookReservations(task, registry, reservations[..i])
                  == Ok(Book(o.providerOrder, o.providerStates, totalReserved))
      {
        var reservation := reservations[i];
        assert reservations[..i + 1][..i] == reservations[..i];
        if reservation.providerId in o.providerOrder {
          BookStaysRefused(task, registry, reservations, i + 1);
          return Err(DuplicateReservation);
        }
        if reservation.ceilingAtomic <= 0 {
          BookStaysRefused(task, registry, reservations, i + 1);
          return Err(CeilingNotPositive);
        }
        if reservation.providerId !in registry {
          BookStaysRefused(task, registry, reservations, i + 1);
          return Err(UnknownProvider);
        }
        if reservation.providerId in task.policy.blockedProviderIds {
          BookStaysRefused(task, registry, reservations, i + 1);
          return Err(BlockedProvider);
        }
        if reservation.providerId !in task.policy.allowedProviderIds {
          BookStaysRefused(task, registry, reservations, i + 1);
          return Err(OutsideAllowlist);
        }
        if reservation.providerId in task.policy.providerCapsAtomic
           && reservation.ceilingAtomic > task.policy.providerCapsAtomic[reservation.providerId] {
          BookStaysRefused(task, registry, reservations, i + 1);
          return Err(CeilingAboveCap);
        }
        totalReserved := totalReserved + reservation.ceilingAtomic;
        if totalReserved > task.budget.totalAtomic {
          BookStaysRefused(task, registry, reservations, i + 1);
          return Err(CeilingsAboveBudget);
        }
        o.providerOrder := o.providerOrder + [reservation.providerId];
        o.providerStates := o.providerStates[reservation.providerId := ProviderState(reservation.ceilingAtomic, 0, 0)];
      }
      assert reservations[..|reservations|] == reservations;
      return Ok(o);
    }

    method PushRejectedFlow(providerId: string, requestId: string, quoted: int, previous: int, next: int,
                            code: RejectionCode, now: int)
      returns (flow: Flow)
      modifies this`flows
      ensures flow == RejectedFlow(task.id, old(|flows|), providerId, requestId, quoted, previous, next, code, now)
      ensures Abstract() == PushFlow(old(Abstract()), flow)
    {
      flow := Flow(task.id + ":" + providerId + ":" + requestId + ":rejected:" + Decimal.Print(|flows|),
                   providerId, requestId, Rejected, quoted, previous, next, Some(code), None, None, None, now);
      flows := flows + [flow];
    }

    /** The checks at the start of `execute`, before anything is awaited. */
    method Launch(providerId: string, requestId: string, now: int) returns (rejected: Option<Flow>)
      modifies this`flows
      ensures Abstract() == Launched(task, registry, old(Abstract()), providerId, requestId, now)
      ensures rejected.Some? <==> LaunchRejection(registry, old(Abstract()), providerId).Some?
    {
      if providerId !in registry {
        var flow := PushRejectedFlow(providerId, requestId, 0, 0, 0, ProviderNotFound, now);
        return Some(flow);
      }
      if providerId !in providerStates {
        var flow := PushRejectedFlow(providerId, requestId, 0, 0, 0, ProviderNotReserved, now);
        return Some(flow);
      }
      return None;
    }

    /** The `authorize` callback; a rejection is thrown in the source. */
    method AuthorizeQuote(providerId: string, requestId: string, quote: ProviderQuote, now: int)
      returns (r: Result<PaymentAuthorization, RejectionCode>)
      requires providerId in providerStates
      modifies this`ledger, this`providerStates, this`flows
      ensures (Abstract(), r) == Authorize(task, old(Abstract()), providerId, requestId, quote, now)
    {
      var state := providerStates[providerId];
      var previous := state.cumulativeAuthorizedAtomic;
      var next := previous + quote.priceAtomic;
      if quote.mint != task.budget.mint {
        var _ := PushRejectedFlow(providerId, requestId, quote.priceAtomic, previous, next, MintMismatch, now);
        return Err(MintMismatch);
      }
      var decision := EvaluateSpend(SpendProposal(
        task, ledger, providerId, quote.priceAtomic, previous, next, state.channelCeilingAtomic, now,
        quote.mint, quote.network, quote.protocol));
      if decision.Denied? {
        var _ := PushRejectedFlow(providerId, requestId, quote.priceAtomic, previous, next, decision.code, now);
        return Err(decision.code);
      }
      ledger := ApplyApprovedSpend(ledger, providerId, decision);
      providerStates := providerStates[providerId :=
        state.(cumulativeAuthorizedAtomic := decision.nextProviderCumulativeAtomic,
               spentAtomic := decision.projectedProviderSpendAtomic)];
      var authorizationId := AuthorizationId(task.id, providerId, requestId);
      var paymentReference := PaymentReference(task.id, providerId, decision.nextProviderCumulativeAtomic);
      flows := flows + [Flow(authorizationId, providerId, requestId, Authorized, quote.priceAtomic, previous,
                             decision.nextProviderCumulativeAtomic, None, Some(paymentReference), None, None, now)];
      return Ok(PaymentAuthorization(
        authorizationId, providerId, requestId, quote.mint, quote.priceAtomic, quote.protocol, paymentReference));
    }

    /** The tail of `execute` after the provider delivered; `flow` is the position of its active flow. */
    method MarkFulfilled(flow: nat, receipt: Receipt)
      requires flow < |flows|
      modifies this`flows
      ensures Abstract() == Fulfil(old(Abstract()), flow, receipt)
    {
      flows := flows[flow := flows[flow].(status := Fulfilled, receipt := Some(receipt))];
    }

    method MarkFailed(flow: nat)
      requires flow < |flows|
      modifies this`flows
      ensures Abstract() == Fail(old(Abstract()), flow)
    {
      flows := flows[flow := flows[flow].(status := Failed)];
    }

    /** Returns false where the source throws. */
    method RecordSettlement(record: Settlement) returns (ok: bool)
      modifies this`flows, this`settlements
      ensures ok == SettlementAccepted(old(Abstract()), record)
      ensures Abstract() == WithSettlement(old(Abstract()), record)
    {
      if record.providerId !in providerStates { return false; }
      if record.cumulativeAmountAtomic < 0 { return false; }
      if record.cumulativeAmountAtomic > providerStates[record.providerId].cumulativeAuthorizedAtomic { return false; }
      settlements := settlements + [record];
      for i := 0 to |flows|
        invariant |flows| == old(|flows|) && settlements == old(settlements) + [record]
        invariant forall k :: 0 <= k < i ==> flows[k] == Tag(record, old(flows)[k])
        invariant forall k :: i <= k < |flows| ==> flows[k] == old(flows)[k]
      {
        var flow := flows[i];
        if flow.providerId == record.providerId && flow.status == Fulfilled
           && flow.nextCumulativeAtomic <= record.cumulativeAmountAtomic {
          flows := flows[i := flow.(settlementSignature := Some(record.transactionSignature))];
        }
      }
      assert flows == TagAll(record, old(flows));
      return true;
    }

    /** A snapshot; in every reachable state spent, reserved and remaining fit together. */
    method GetPaymentGraph() returns (graph: PaymentGraph)
      requires forall p :: p in providerOrder ==> p in providerStates
      ensures graph.flows == flows && graph.settlements == settlements
      ensures graph.taskId == task.id && graph.mint == task.budget.mint && graph.budgetAtomic == task.budget.totalAtomic
      ensures graph.spentAtomic == ledger.spentAtomic
      ensures graph.spentAtomic + graph.remainingAtomic == graph.budgetAtomic
      ensures graph.reservedCeilingAtomic == SumBy(providerOrder, CeilingOf(providerStates))
      ensures |graph.providers| == |providerOrder|
      ensures forall i :: 0 <= i < |providerOrder| ==>
                var p := providerOrder[i];
                graph.providers[i] == ProviderRouteState(
                  p, providerStates[p].channelCeilingAtomic, providerStates[p].cumulativeAuthorizedAtomic,
                  providerStates[p].spentAtomic)
      ensures RouteInvariant(task, Abstract()) ==>
                && 0 <= graph.spentAtomic <= graph.reservedCeilingAtomic
                && (providerOrder != [] || graph.budgetAtomic >= 0 ==>
                      graph.reservedCeilingAtomic <= graph.budgetAtomic && graph.remainingAtomic >= 0)
    {
      var providers := [];
      var reserved := 0;
      for i := 0 to |providerOrder|
        invariant |providers| == i
        invariant forall k :: 0 <= k < i ==>
                    var p := providerOrder[k];
                    providers[k] == ProviderRouteState(
                      p, providerStates[p].channelCeilingAtomic, providerStates[p].cumulativeAuthorizedAtomic,
                      providerStates[p].spentAtomic)
        invariant reserved == SumBy(providerOrder[..i], CeilingOf(providerStates))
      {
        var p := providerOrder[i];
        assert p in providerStates;
        var state := providerStates[p];
        providers := providers + [ProviderRouteState(
          p, state.channelCeilingAtomic, state.cumulativeAuthorizedAtomic, state.spentAtomic)];
        reserved := reserved + state.channelCeilingAtomic;
        SumPrefix(providerOrder, i, CeilingOf(providerStates));
      }
      assert providerOrder[..|providerOrder|] == providerOrder;
      graph := PaymentGraph(task.id, task.budget.mint, task.budget.totalAtomic, ledger.spentAtomic,
                            task.budget.totalAtomic - ledger.spentAtomic, reserved, providers, flows, settlements);
      if RouteInvariant(task, Abstract()) {
        RoutingTheorems.BalancedTotals(task, Abstract());
      }
    }
  }
}
