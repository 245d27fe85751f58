/** The promises of the route orchestrator, each about every run from every accepted set of reservations. */
module RoutingTheorems {
  import opened Basics
  import opened Sums
  import opened Domain
  import opened Routing
  import opened RoutingProofs
  import Decimal

  function Run(task: Task, registry: map<string, string>, start: Route, events: seq<Event>): Route {
    Resume(task, registry, System(start, map[]), events).route
  }

  ghost predicate Accepted(task: Task, registry: map<string, string>, cs: seq<ChannelReservation>, start: Route) {
    Open(task, registry, cs) == Ok(start)
  }

  lemma RunInvariant(
    task: Task, registry: map<string, string>, cs: seq<ChannelReservation>, start: Route, events: seq<Event>)
    requires Accepted(task, registry, cs, start)
    ensures RouteInvariant(task, Run(task, registry, start, events))
    ensures Grows(start, Run(task, registry, start, events))
  {
    OpenInvariant(task, registry, cs);
    ResumeInvariant(task, registry, System(start, map[]), events);
  }

  lemma BalancedTotals(task: Task, r: Route)
    requires Balanced(task, r)
    ensures 0 <= r.ledger.spentAtomic <= SumBy(r.order, CeilingOf(r.states)) <= Max(0, task.budget.totalAtomic)
    ensures r.order != [] ==> SumBy(r.order, CeilingOf(r.states)) <= task.budget.totalAtomic
  {
    forall p | p in r.order ensures 0 <= SpentOf(r.states)(p) <= CeilingOf(r.states)(p) {
      assert ProviderBalanced(task, r, p);
    }
    SumLe(r.order, SpentOf(r.states), CeilingOf(r.states));
    SumNonNegative(r.order, SpentOf(r.states));
  }

  lemma SpendingIsBounded(
    task: Task, registry: map<string, string>, cs: seq<ChannelReservation>, start: Route, events: seq<Event>)
    requires Accepted(task, registry, cs, start)
    ensures var r := Run(task, registry, start, events);
            && (forall p :: p in r.states ==>
                  && r.states[p].cumulativeAuthorizedAtomic == r.states[p].spentAtomic == r.ledger.SpentBy(p)
                  && 0 <= r.states[p].spentAtomic <= r.states[p].channelCeilingAtomic
                  && (p in task.policy.providerCapsAtomic ==>
                        r.states[p].channelCeilingAtomic <= task.policy.providerCapsAtomic[p]))
            && (forall p :: p !in r.states ==> r.ledger.SpentBy(p) == 0)
            && r.ledger.spentAtomic == SumBy(r.order, SpentOf(r.states))
            && 0 <= r.ledger.spentAtomic <= SumBy(r.order, CeilingOf(r.states)) <= Max(0, task.budget.totalAtomic)
            && (cs != [] ==> SumBy(r.order, CeilingOf(r.states)) <= task.budget.totalAtomic)
  {
    RunInvariant(task, registry, cs, start, events);
    var r := Run(task, registry, start, events);
    BalancedTotals(task, r);
    forall p | p in r.states ensures ProviderBalanced(task, r, p) {}
  }

  /** Once authorized, never withdrawn: later events only extend each provider's chain and the settlements. */
  lemma AuthorizationsArePermanent(
    task: Task, registry: map<string, string>, cs: seq<ChannelReservation>, start: Route,
    events: seq<Event>, later: seq<Event>)
    requires Accepted(task, registry, cs, start)
    ensures Grows(Run(task, registry, start, events), Run(task, registry, start, events + later))
  {
    OpenInvariant(task, registry, cs);
    var s := System(start, map[]);
    ResumeInvariant(task, registry, s, events);
    ResumeInvariant(task, registry, Resume(task, registry, s, events), later);
    ResumeConcat(task, registry, s, events, later);
  }

  lemma {:induction false} ResumeConcat(
    task: Task, registry: map<string, string>, s: System, events: seq<Event>, later: seq<Event>)
    ensures Resume(task, registry, s, events + later)
            == Resume(task, registry, Resume(task, registry, s, events), later)
  {
    if later == [] {
      assert events + later == events;
    } else {
      var front := later[..|later| - 1];
      ResumeConcat(task, registry, s, events, front);
      assert (events + later)[..|events + later| - 1] == events + front;
    }
  }

  // ----- The chain of charges -----

  ghost predicate ChargedBy(f: Flow, p: string) {
    f.providerId == p && f.status != Rejected
  }

  lemma {:induction false} EarlierCharges(flows: seq<Flow>, p: string, end: int, i: nat)
    requires Chain(LinksOf(flows, p), end) && i < |flows| && ChargedBy(flows[i], p)
    ensures 0 <= flows[i].previousCumulativeAtomic < flows[i].nextCumulativeAtomic <= end
    ensures flows[i].nextCumulativeAtomic == flows[i].previousCumulativeAtomic + flows[i].quotedAtomic
  {
    var front, last := flows[..|flows| - 1], flows[|flows| - 1];
    assert flows == front + [last];
    LinksPush(front, last, p);
    var links := LinksOf(flows, p);
    if ChargedBy(last, p) {
      assert links[..|links| - 1] == LinksOf(front, p);
      ChainEnd(LinksOf(front, p), last.previousCumulativeAtomic);
      if i < |front| { EarlierCharges(front, p, last.previousCumulativeAtomic, i); }
    } else {
      EarlierCharges(front, p, end, i);
    }
  }

  lemma {:induction false} ChainEnd(links: seq<Link>, end: int)
    requires Chain(links, end)
    ensures 0 <= end
  {
    if links == [] {
    } else {
      ChainEnd(links[..|links| - 1], links[|links| - 1].previous);
    }
  }

  /** A later charge starts at or after the end of an earlier one. */
  lemma {:induction false} ChargesAreOrdered(flows: seq<Flow>, p: string, end: int, i: nat, j: nat)
    requires Chain(LinksOf(flows, p), end) && i < j < |flows|
    requires ChargedBy(flows[i], p) && ChargedBy(flows[j], p)
    ensures flows[i].nextCumulativeAtomic <= flows[j].previousCumulativeAtomic
  {
    var front, last := flows[..|flows| - 1], flows[|flows| - 1];
    assert flows == front + [last];
    LinksPush(front, last, p);
    var links := LinksOf(flows, p);
    if ChargedBy(last, p) {
      assert links[..|links| - 1] == LinksOf(front, p);
      if j == |front| {
        EarlierCharges(front, p, last.previousCumulativeAtomic, i);
      } else {
        ChargesAreOrdered(front, p, last.previousCumulativeAtomic, i, j);
      }
    } else {
      ChargesAreOrdered(front, p, end, i, j);
    }
  }

  ghost function Charges(flows: seq<Flow>, p: string): int {
    if flows == [] then 0
    else
      var f := flows[|flows| - 1];
      Charges(flows[..|flows| - 1], p) + if ChargedBy(f, p) then f.quotedAtomic else 0
  }

  lemma {:induction false} ChargesReachEnd(flows: seq<Flow>, p: string, end: int)
    requires Chain(LinksOf(flows, p), end)
    ensures Charges(flows, p) == end
  {
    if flows == [] {
    } else {
      var front, last := flows[..|flows| - 1], flows[|flows| - 1];
      assert flows == front + [last];
      LinksPush(front, last, p);
      var links := LinksOf(flows, p);
      if ChargedBy(last, p) {
        assert links[..|links| - 1] == LinksOf(front, p);
        ChargesReachEnd(front, p, last.previousCumulativeAtomic);
      } else {
        ChargesReachEnd(front, p, end);
      }
    }
  }

  /**
    Per provider the non-rejected flows (failed ones included) are a gap-free chain from zero to the
    cumulative authorization, so their quotes add up to it.
   */
  lemma ChargesFormAChain(
    task: Task, registry: map<string, string>, cs: seq<ChannelReservation>, start: Route, events: seq<Event>, p: string)
    requires Accepted(task, registry, cs, start)
    ensures var r := Run(task, registry, start, events);
            && Chain(LinksOf(r.flows, p), CumulativeOf(r, p))
            && Charges(r.flows, p) == CumulativeOf(r, p)
            && (forall i :: 0 <= i < |r.flows| && ChargedBy(r.flows[i], p) ==>
                  && r.flows[i].quotedAtomic > 0
                  && r.flows[i].nextCumulativeAtomic == r.flows[i].previousCumulativeAtomic + r.flows[i].quotedAtomic)
            && (forall i, j :: 0 <= i < j < |r.flows| && ChargedBy(r.flows[i], p) && ChargedBy(r.flows[j], p) ==>
                  r.flows[i].nextCumulativeAtomic <= r.flows[j].previousCumulativeAtomic)
  {
    RunInvariant(task, registry, cs, start, events);
    var r := Run(task, registry, start, events);
    ChargesReachEnd(r.flows, p, CumulativeOf(r, p));
    forall i | 0 <= i < |r.flows| && ChargedBy(r.flows[i], p)
      ensures r.flows[i].quotedAtomic > 0
      ensures r.flows[i].nextCumulativeAtomic == r.flows[i].previousCumulativeAtomic + r.flows[i].quotedAtomic
    {
      EarlierCharges(r.flows, p, CumulativeOf(r, p), i);
    }
    forall i, j | 0 <= i < j < |r.flows| && ChargedBy(r.flows[i], p) && ChargedBy(r.flows[j], p)
      ensures r.flows[i].nextCumulativeAtomic <= r.flows[j].previousCumulativeAtomic
    {
      ChargesAreOrdered(r.flows, p, CumulativeOf(r, p), i, j);
    }
  }

  // ----- Payment references -----

  /** The part after the last separator is determined by the whole text. */
  lemma SplitAtLast(a: string, x: string, b: string, y: string, c: char)
    requires c !in x && c !in y
    requires a + [c] + x == b + [c] + y
    ensures a == b && x == y
  {
    var s := a + [c] + x;
    assert s[|a|] == c && s[|b|] == c;
    assert forall k :: |a| < k < |s| ==> s[k] == x[k - |a| - 1] && s[k] != c;
    assert forall k :: |b| < k < |s| ==> s[k] == y[k - |b| - 1] && s[k] != c;
    assert a == s[..|a|] == s[..|b|] == b;
    assert x == s[|a| + 1..] == s[|b| + 1..] == y;
  }

  lemma PrintIntHasNoColon(n: int)
    ensures ':' !in Decimal.PrintInt(n)
  {
    var digits := Decimal.Print(if n < 0 then -n else n);
    forall i | 0 <= i < |digits| ensures digits[i] != ':' {
      assert Decimal.IsDigit(digits[i]);
    }
  }

  lemma ReferenceDetermines(taskId: string, p: string, m: int, q: string, n: int)
    requires PaymentReference(taskId, p, m) == PaymentReference(taskId, q, n)
    ensures p == q && m == n
  {
    PrintIntHasNoColon(m);
    PrintIntHasNoColon(n);
    var prefix := "canalis:" + taskId + ":";
    assert PaymentReference(taskId, p, m) == (prefix + p) + [':'] + Decimal.PrintInt(m);
    assert PaymentReference(taskId, q, n) == (prefix + q) + [':'] + Decimal.PrintInt(n);
    SplitAtLast(prefix + p, Decimal.PrintInt(m), prefix + q, Decimal.PrintInt(n), ':');
    assert p == (prefix + p)[|prefix|..] == (prefix + q)[|prefix|..] == q;
    Decimal.PrintIntInjective(m, n);
  }

  /** No two charges of a task ever carry the same payment reference, whatever the provider ids contain. */
  lemma ReferencesAreDistinct(
    task: Task, registry: map<string, string>, cs: seq<ChannelReservation>, start: Route, events: seq<Event>)
    requires Accepted(task, registry, cs, start)
    ensures var flows := Run(task, registry, start, events).flows;
            forall i, j :: 0 <= i < j < |flows| && flows[i].status != Rejected && flows[j].status != Rejected ==>
              flows[i].paymentReference.Some? && flows[j].paymentReference.Some?
              && flows[i].paymentReference != flows[j].paymentReference
  {
    RunInvariant(task, registry, cs, start, events);
    var r := Run(task, registry, start, events);
    var flows := r.flows;
    forall i, j | 0 <= i < j < |flows| && flows[i].status != Rejected && flows[j].status != Rejected
      ensures flows[i].paymentReference.Some? && flows[j].paymentReference.Some?
      ensures flows[i].paymentReference != flows[j].paymentReference
    {
      assert FlowSound(task, r, flows[i]) && FlowSound(task, r, flows[j]);
      var p, q := flows[i].providerId, flows[j].providerId;
      if flows[i].paymentReference == flows[j].paymentReference {
        ReferenceDetermines(task.id, p, flows[i].nextCumulativeAtomic, q, flows[j].nextCumulativeAtomic);
        ChargesAreOrdered(flows, p, CumulativeOf(r, p), i, j);
        EarlierCharges(flows, p, CumulativeOf(r, p), j);
      }
    }
  }

  // ----- Rejections -----

  /** Eight of the policy's rejections can never be recorded; the reservation and ceiling checks imply them. */
  lemma ImpliedRejectionsNeverHappen(
    task: Task, registry: map<string, string>, cs: seq<ChannelReservation>, start: Route, events: seq<Event>)
    requires Accepted(task, registry, cs, start)
    ensures forall f :: f in Run(task, registry, start, events).flows && f.status == Rejected ==>
              f.rejection.Some? && f.rejection.value !in
              {TaskBudgetExceeded, ProviderCapExceeded, NonMonotonicVoucher, VoucherDeltaMismatch, InvalidAmount,
               ProviderBlocked, ProviderNotAllowed, LedgerTaskMismatch}
  {
    RunInvariant(task, registry, cs, start, events);
    var r := Run(task, registry, start, events);
    forall f | f in r.flows && f.status == Rejected
      ensures f.rejection.Some? && Recordable(f.rejection.value)
    {
      var i :| 0 <= i < |r.flows| && r.flows[i] == f;
      assert FlowSound(task, r, r.flows[i]);
    }
  }

  // ----- Settlements -----

  ghost predicate FulfilledBy(f: Flow, p: string) {
    f.providerId == p && f.status == Fulfilled
  }

  ghost function CoveredQuotes(record: Settlement, flows: seq<Flow>): int {
    if flows == [] then 0
    else
      var f := flows[|flows| - 1];
      CoveredQuotes(record, flows[..|flows| - 1]) + if Covers(record, f) then f.quotedAtomic else 0
  }

  lemma {:induction false} CoveredWithinAmount(record: Settlement, flows: seq<Flow>, end: int)
    requires record.cumulativeAmountAtomic >= 0
    requires Chain(LinksOf(flows, record.providerId), end)
    ensures CoveredQuotes(record, flows) <= record.cumulativeAmountAtomic
    ensures CoveredQuotes(record, flows) <= end
  {
    ChainEnd(LinksOf(flows, record.providerId), end);
    if flows == [] {
    } else {
      var front, last := flows[..|flows| - 1], flows[|flows| - 1];
      assert flows == front + [last];
      LinksPush(front, last, record.providerId);
      var links := LinksOf(flows, record.providerId);
      if ChargedBy(last, record.providerId) {
        assert links[..|links| - 1] == LinksOf(front, record.providerId);
        CoveredWithinAmount(record, front, last.previousCumulativeAtomic);
      } else {
        CoveredWithinAmount(record, front, end);
      }
    }
  }

  /**
    An accepted settlement tags the fulfilled flows of a prefix of its provider's chain and nothing else,
    and the tagged quotes add up to at most the settled amount.
   */
  lemma SettlementTagsAPrefix(task: Task, r: Route, record: Settlement)
    requires RouteInvariant(task, r) && SettlementAccepted(r, record)
    ensures var flows := WithSettlement(r, record).flows;
            && |flows| == |r.flows|
            && (forall i :: 0 <= i < |flows| && !Covers(record, r.flows[i]) ==> flows[i] == r.flows[i])
            && (forall i :: 0 <= i < |flows| && Covers(record, r.flows[i]) ==>
                  flows[i] == r.flows[i].(settlementSignature := Some(record.transactionSignature)))
            && (forall i, j ::
                  (0 <= i < j < |flows| && Covers(record, flows[j]) && FulfilledBy(flows[i], record.providerId)) ==>
                  flows[i].settlementSignature == Some(record.transactionSignature))
    ensures CoveredQuotes(record, r.flows) <= record.cumulativeAmountAtomic
  {
    var p := record.providerId;
    var flows := WithSettlement(r, record).flows;
    CoveredWithinAmount(record, r.flows, CumulativeOf(r, p));
    forall i, j | 0 <= i < j < |flows| && Covers(record, flows[j]) && FulfilledBy(flows[i], p)
      ensures Covers(record, r.flows[i])
    {
      ChargesAreOrdered(r.flows, p, CumulativeOf(r, p), i, j);
      EarlierCharges(r.flows, p, CumulativeOf(r, p), j);
    }
  }

  /** Every recorded settlement stays within what its provider is authorized for, then and ever after. */
  lemma SettlementsStayAuthorized(
    task: Task, registry: map<string, string>, cs: seq<ChannelReservation>, start: Route,
    events: seq<Event>, later: seq<Event>)
    requires Accepted(task, registry, cs, start)
    ensures var now, after := Run(task, registry, start, events), Run(task, registry, start, events + later);
            && (forall s :: s in now.settlements ==>
                  0 <= s.cumulativeAmountAtomic <= CumulativeOf(now, s.providerId) <= CumulativeOf(after, s.providerId))
            && (forall f :: f in now.flows && f.settlementSignature.Some? ==>
                  f.status == Fulfilled && exists s :: s in now.settlements && SettledBy(f, s))
  {
    RunInvariant(task, registry, cs, start, events);
    AuthorizationsArePermanent(task, registry, cs, start, events, later);
    var now := Run(task, registry, start, events);
    SettledFlowsAreFulfilled(task, now);
    forall s | s in now.settlements ensures SettlementAccepted(now, s) {
      var i :| 0 <= i < |now.settlements| && now.settlements[i] == s;
    }
  }

  lemma SettledFlowsAreFulfilled(task: Task, r: Route)
    requires Recorded(task, r)
    ensures forall f :: f in r.flows && f.settlementSignature.Some? ==>
      f.status == Fulfilled && exists s :: s in r.settlements && SettledBy(f, s)
  {
    forall f | f in r.flows && f.settlementSignature.Some?
      ensures f.status == Fulfilled && exists s :: s in r.settlements && SettledBy(f, s)
    {
      var i :| 0 <= i < |r.flows| && r.flows[i] == f;
      assert FlowSound(task, r, r.flows[i]);
    }
  }

  /** The j-th event records a settlement that covers the i-th flow, which is fulfilled by then. */
  predicate TagsAt(task: Task, registry: map<string, string>, start: Route, events: seq<Event>, j: nat, i: nat)
    requires j < |events|
  {
    var r := Run(task, registry, start, events[..j]);
    && events[j].Settled? && SettlementAccepted(r, events[j].record)
    && i < |r.flows| && Covers(events[j].record, r.flows[i])
  }

  /** The signature of the last settlement that covered the flow when it was recorded. */
  function LastTag(task: Task, registry: map<string, string>, start: Route, events: seq<Event>, i: nat)
    : Option<string>
  {
    if events == [] then None
    else if TagsAt(task, registry, start, events, |events| - 1, i) then
      Some(events[|events| - 1].record.transactionSignature)
    else LastTag(task, registry, start, events[..|events| - 1], i)
  }

  /** One event tags a flow or leaves its tag alone; a new flow has none. */
  lemma StepTag(task: Task, registry: map<string, string>, s: System, e: Event, i: nat)
    requires i < |Step(task, registry, s, e).route.flows|
    ensures Step(task, registry, s, e).route.flows[i].settlementSignature ==
      if i >= |s.route.flows| then None
      else if e.Settled? && SettlementAccepted(s.route, e.record) && Covers(e.record, s.route.flows[i]) then
        Some(e.record.transactionSignature)
      else s.route.flows[i].settlementSignature
  {
  }

  lemma {:induction false} TagIsLast(
    task: Task, registry: map<string, string>, start: Route, events: seq<Event>, i: nat)
    requires start.flows == []
    ensures var flows := Run(task, registry, start, events).flows;
      LastTag(task, registry, start, events, i) == if i < |flows| then flows[i].settlementSignature else None
  {
    if events == [] {
    } else {
      var front := events[..|events| - 1];
      var s := Resume(task, registry, System(start, map[]), front);
      TagIsLast(task, registry, start, front, i);
      if i < |Run(task, registry, start, events).flows| {
        StepTag(task, registry, s, events[|events| - 1], i);
      } else {
        FlowsStay(task, registry, s, events[|events| - 1]);
      }
    }
  }

  lemma FlowsStay(task: Task, registry: map<string, string>, s: System, e: Event)
    ensures |s.route.flows| <= |Step(task, registry, s, e).route.flows|
  {
  }

  lemma {:induction false} LastTagExactly(
    task: Task, registry: map<string, string>, start: Route, events: seq<Event>, i: nat)
    ensures LastTag(task, registry, start, events, i).Some?
      <==> exists j :: 0 <= j < |events| && TagsAt(task, registry, start, events, j, i)
  {
    if events == [] {
    } else {
      var front := events[..|events| - 1];
      LastTagExactly(task, registry, start, front, i);
      forall j | 0 <= j < |front|
        ensures TagsAt(task, registry, start, front, j, i) == TagsAt(task, registry, start, events, j, i)
      {
        assert front[..j] == events[..j];
      }
    }
  }

  /**
    After every run a flow carries a settlement signature if and only if some settlement that covers it was recorded
    after its fulfilment, and the signature is that of the last such settlement. A flow fulfilled only after its
    covering settlement was recorded stays without one.
   */
  lemma SettledExactly(
    task: Task, registry: map<string, string>, cs: seq<ChannelReservation>, start: Route, events: seq<Event>, i: nat)
    requires Accepted(task, registry, cs, start) && i < |Run(task, registry, start, events).flows|
    ensures var f := Run(task, registry, start, events).flows[i];
      && f.settlementSignature == LastTag(task, registry, start, events, i)
      && (f.settlementSignature.Some? <==>
            exists j :: 0 <= j < |events| && TagsAt(task, registry, start, events, j, i))
  {
    TagIsLast(task, registry, start, events, i);
    LastTagExactly(task, registry, start, events, i);
  }
}
