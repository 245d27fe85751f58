/** What every run of the route orchestrator keeps. */
module RoutingProofs {
  import opened Basics
  import opened Sums
  import opened Domain
  import opened SpendPolicy
  import opened Routing
  import Decimal

  // ----- Links depend only on who was charged how much -----

  predicate SameCharge(f: Flow, g: Flow) {
    && f.providerId == g.providerId
    && (f.status == Rejected <==> g.status == Rejected)
    && f.previousCumulativeAtomic == g.previousCumulativeAtomic
    && f.nextCumulativeAtomic == g.nextCumulativeAtomic
    && f.quotedAtomic == g.quotedAtomic
  }

  lemma {:induction false} LinksFrame(fs: seq<Flow>, gs: seq<Flow>, p: string)
    requires |fs| == |gs|
    requires forall i :: 0 <= i < |fs| ==> SameCharge(fs[i], gs[i])
    ensures LinksOf(fs, p) == LinksOf(gs, p)
  {
    if fs == [] {
    } else {
      LinksFrame(fs[..|fs| - 1], gs[..|gs| - 1], p);
    }
  }

  lemma LinksPush(fs: seq<Flow>, f: Flow, p: string)
    ensures f.providerId == p && f.status != Rejected ==>
              LinksOf(fs + [f], p) ==
              LinksOf(fs, p) + [Link(f.previousCumulativeAtomic, f.nextCumulativeAtomic, f.quotedAtomic)]
    ensures !(f.providerId == p && f.status != Rejected) ==> LinksOf(fs + [f], p) == LinksOf(fs, p)
  {
    assert (fs + [f])[..|fs|] == fs;
  }

  // ----- Construction -----

  ghost predicate Reserved(task: Task, registry: map<string, string>, p: string, state: ProviderState) {
    && state.cumulativeAuthorizedAtomic == state.spentAtomic == 0 < state.channelCeilingAtomic
    && (p in task.policy.providerCapsAtomic ==> state.channelCeilingAtomic <= task.policy.providerCapsAtomic[p])
    && p in task.policy.allowedProviderIds
    && p !in task.policy.blockedProviderIds
    && p in registry
  }

  ghost predicate BookSound(task: Task, registry: map<string, string>, b: Book) {
    && Distinct(b.order)
    && (forall p :: p in b.order <==> p in b.states)
    && (forall p :: p in b.states ==> Reserved(task, registry, p, b.states[p]))
    && b.totalReserved == SumBy(b.order, CeilingOf(b.states))
    && (b.order != [] ==> b.totalReserved <= task.budget.totalAtomic)
  }

  lemma BookOne(task: Task, registry: map<string, string>, b: Book, c: ChannelReservation)
    requires BookSound(task, registry, b)
    requires CheckReservation(task, registry, b.order, b.totalReserved, c).None?
    ensures BookSound(task, registry, Book(b.order + [c.providerId],
                                           b.states[c.providerId := ProviderState(c.ceilingAtomic, 0, 0)],
                                           b.totalReserved + c.ceilingAtomic))
  {
    var states := b.states[c.providerId := ProviderState(c.ceilingAtomic, 0, 0)];
    SumSnoc(b.order, c.providerId, CeilingOf(states));
    SumExt(b.order, CeilingOf(b.states), CeilingOf(states));
  }

  lemma {:induction false} BookIsSound(task: Task, registry: map<string, string>, cs: seq<ChannelReservation>)
    requires BookReservations(task, registry, cs).Ok?
    ensures BookSound(task, registry, BookReservations(task, registry, cs).value)
  {
    if cs == [] {
    } else {
      BookIsSound(task, registry, cs[..|cs| - 1]);
      BookOne(task, registry, BookReservations(task, registry, cs[..|cs| - 1]).value, cs[|cs| - 1]);
    }
  }

  lemma {:induction false} UnspentSum(keys: seq<string>, states: map<string, ProviderState>)
    requires forall p :: p in states ==> states[p].spentAtomic == 0
    ensures SumBy(keys, SpentOf(states)) == 0
  {
    if keys == [] {
    } else {
      UnspentSum(keys[1..], states);
    }
  }

  lemma OpenInvariant(task: Task, registry: map<string, string>, cs: seq<ChannelReservation>)
    requires Open(task, registry, cs).Ok?
    ensures Invariant(task, registry, System(Open(task, registry, cs).value, map[]))
  {
    BookIsSound(task, registry, cs);
    var r := Open(task, registry, cs).value;
    UnspentSum(r.order, r.states);
    forall p | p in r.states ensures ProviderBalanced(task, r, p) {
      assert Reserved(task, registry, p, r.states[p]);
    }
  }

  // ----- Authorization -----

  /**
    In a state that satisfies the invariant the fifteen-step cascade collapses: a positive quote is
    charged exactly when its mint is the budget's, the policy admits it, and the ceiling has room.
   */
  lemma DecideExactly(task: Task, r: Route, p: string, quote: ProviderQuote, now: int)
    requires Balanced(task, r) && p in r.states && quote.priceAtomic > 0
    ensures Decide(task, r, p, quote, now).Allowed? <==>
            && quote.mint == task.budget.mint
            && QuoteAdmissible(task, quote, now)
            && r.states[p].cumulativeAuthorizedAtomic + quote.priceAtomic <= r.states[p].channelCeilingAtomic
    ensures Decide(task, r, p, quote, now).Denied? ==> Recordable(Decide(task, r, p, quote, now).code)
    ensures var d := Decide(task, r, p, quote, now);
            d.Allowed? ==>
              && d.amountAtomic == quote.priceAtomic
              && d.projectedTaskSpendAtomic == r.ledger.spentAtomic + quote.priceAtomic
              && d.projectedProviderSpendAtomic == d.nextProviderCumulativeAtomic
                 == r.states[p].cumulativeAuthorizedAtomic + quote.priceAtomic
  {
    assert ProviderBalanced(task, r, p);
    if r.states[p].cumulativeAuthorizedAtomic + quote.priceAtomic <= r.states[p].channelCeilingAtomic {
      BudgetHasRoom(task, r, p, quote.priceAtomic);
    }
  }

  /** Room under one ceiling is room under the budget, because the ceilings together fit in it. */
  lemma BudgetHasRoom(task: Task, r: Route, p: string, price: int)
    requires Balanced(task, r) && p in r.states
    requires r.states[p].spentAtomic + price <= r.states[p].channelCeilingAtomic
    ensures r.ledger.spentAtomic + price <= task.budget.totalAtomic
  {
    var states := r.states[p := r.states[p].(spentAtomic := r.states[p].spentAtomic + price)];
    SumChange(r.order, SpentOf(r.states), SpentOf(states), p);
    forall q | q in r.order ensures SpentOf(states)(q) <= CeilingOf(r.states)(q) {
      assert ProviderBalanced(task, r, q);
    }
    SumLe(r.order, SpentOf(states), CeilingOf(r.states));
  }

  lemma AuthorizeBalanced(task: Task, r: Route, p: string, requestId: string, quote: ProviderQuote, now: int)
    requires Balanced(task, r) && p in r.states && quote.priceAtomic > 0
    ensures Balanced(task, Authorize(task, r, p, requestId, quote, now).0)
  {
    DecideExactly(task, r, p, quote, now);
    var r' := Authorize(task, r, p, requestId, quote, now).0;
    if Decide(task, r, p, quote, now).Allowed? {
      SumChange(r.order, SpentOf(r.states), SpentOf(r'.states), p);
      SumExt(r.order, CeilingOf(r.states), CeilingOf(r'.states));
    }
    forall q | q in r'.states ensures ProviderBalanced(task, r', q) {
      assert ProviderBalanced(task, r, q);
    }
  }

  /** One more flow extends the chain of its provider and leaves the others alone. */
  lemma ChainPush(flows: seq<Flow>, f: Flow, p: string, end: int, end': int)
    requires Chain(LinksOf(flows, p), end)
    requires if f.providerId == p && f.status != Rejected
             then f.previousCumulativeAtomic == end && f.quotedAtomic > 0
                  && f.nextCumulativeAtomic == f.previousCumulativeAtomic + f.quotedAtomic == end'
             else end' == end
    ensures Chain(LinksOf(flows + [f], p), end')
  {
    LinksPush(flows, f, p);
    var links := LinksOf(flows + [f], p);
    if f.providerId == p && f.status != Rejected {
      assert links[..|links| - 1] == LinksOf(flows, p);
    }
  }

  lemma AuthorizeChained(task: Task, r: Route, p: string, requestId: string, quote: ProviderQuote, now: int)
    requires Balanced(task, r) && Chained(r) && p in r.states && quote.priceAtomic > 0
    ensures Chained(Authorize(task, r, p, requestId, quote, now).0)
  {
    DecideExactly(task, r, p, quote, now);
    var r' := Authorize(task, r, p, requestId, quote, now).0;
    var f := r'.flows[|r.flows|];
    assert r'.flows == r.flows + [f];
    forall q ensures Chain(LinksOf(r'.flows, q), CumulativeOf(r', q)) {
      assert Chain(LinksOf(r.flows, q), CumulativeOf(r, q));
      ChainPush(r.flows, f, q, CumulativeOf(r, q), CumulativeOf(r', q));
    }
  }

  /** What no transition takes back: reserved providers, authorized amounts and recorded settlements. */
  ghost predicate Grows(r: Route, r': Route) {
    && r.order == r'.order
    && r.states.Keys == r'.states.Keys
    && (forall p :: p in r.states ==>
          && r.states[p].cumulativeAuthorizedAtomic <= r'.states[p].cumulativeAuthorizedAtomic
          && r.states[p].channelCeilingAtomic == r'.states[p].channelCeilingAtomic)
    && r.settlements <= r'.settlements
    && |r.flows| <= |r'.flows|
    && (forall p :: LinksOf(r.flows, p) <= LinksOf(r'.flows, p))
  }

  lemma RecordedFrame(task: Task, r: Route, r': Route)
    requires Recorded(task, r) && Grows(r, r')
    ensures forall i :: 0 <= i < |r.flows| ==> FlowSound(task, r', r.flows[i])
    ensures forall i :: 0 <= i < |r.settlements| ==> SettlementAccepted(r', r.settlements[i])
  {
    forall i | 0 <= i < |r.flows| ensures FlowSound(task, r', r.flows[i]) {
      var f := r.flows[i];
      assert FlowSound(task, r, f);
      if f.status != Rejected && f.settlementSignature.Some? {
        var s :| s in r.settlements && SettledBy(f, s);
        assert s in r'.settlements;
      }
    }
    forall i | 0 <= i < |r.settlements| ensures SettlementAccepted(r', r.settlements[i]) {
      assert SettlementAccepted(r, r.settlements[i]);
    }
  }

  lemma AuthorizeGrows(task: Task, r: Route, p: string, requestId: string, quote: ProviderQuote, now: int)
    requires Balanced(task, r) && p in r.states && quote.priceAtomic > 0
    ensures Grows(r, Authorize(task, r, p, requestId, quote, now).0)
  {
    DecideExactly(task, r, p, quote, now);
    var r' := Authorize(task, r, p, requestId, quote, now).0;
    forall q ensures LinksOf(r.flows, q) <= LinksOf(r'.flows, q) {
      LinksPush(r.flows, r'.flows[|r.flows|], q);
    }
  }

  lemma AuthorizeInvariant(task: Task, r: Route, p: string, requestId: string, quote: ProviderQuote, now: int)
    requires RouteInvariant(task, r) && p in r.states && quote.priceAtomic > 0
    ensures RouteInvariant(task, Authorize(task, r, p, requestId, quote, now).0)
  {
    var r' := Authorize(task, r, p, requestId, quote, now).0;
    AuthorizeBalanced(task, r, p, requestId, quote, now);
    AuthorizeChained(task, r, p, requestId, quote, now);
    AuthorizeGrows(task, r, p, requestId, quote, now);
    RecordedFrame(task, r, r');
    DecideExactly(task, r, p, quote, now);
    assert FlowSound(task, r', r'.flows[|r.flows|]);
  }

  // ----- The other transitions -----

  lemma PushRejectionInvariant(task: Task, r: Route, f: Flow)
    requires RouteInvariant(task, r) && f.status == Rejected && FlowSound(task, r, f)
    ensures RouteInvariant(task, PushFlow(r, f)) && Grows(r, PushFlow(r, f))
  {
    var r' := PushFlow(r, f);
    forall q ensures LinksOf(r'.flows, q) == LinksOf(r.flows, q) && CumulativeOf(r, q) == CumulativeOf(r', q) {
      LinksPush(r.flows, f, q);
    }
    forall q | q in r.states ensures ProviderBalanced(task, r', q) {
      assert ProviderBalanced(task, r, q);
    }
    RecordedFrame(task, r, r');
  }

  /** Rewriting flows in place without touching charges keeps the money and the chains. */
  lemma RewriteInvariant(task: Task, r: Route, r': Route)
    requires RouteInvariant(task, r)
    requires r' == r.(flows := r'.flows, settlements := r'.settlements)
    requires r.settlements <= r'.settlements
    requires |r'.flows| == |r.flows|
    requires forall i :: 0 <= i < |r.flows| ==> SameCharge(r.flows[i], r'.flows[i])
    requires forall i :: 0 <= i < |r.flows| && FlowSound(task, r', r.flows[i]) ==> FlowSound(task, r', r'.flows[i])
    requires forall i :: |r.settlements| <= i < |r'.settlements| ==> SettlementAccepted(r, r'.settlements[i])
    ensures RouteInvariant(task, r') && Grows(r, r')
  {
    forall q ensures LinksOf(r'.flows, q) == LinksOf(r.flows, q) && CumulativeOf(r, q) == CumulativeOf(r', q) {
      LinksFrame(r.flows, r'.flows, q);
    }
    forall q | q in r.states ensures ProviderBalanced(task, r', q) {
      assert ProviderBalanced(task, r, q);
    }
    RecordedFrame(task, r, r');
  }

  lemma SettlementInvariant(task: Task, r: Route, record: Settlement)
    requires RouteInvariant(task, r)
    ensures RouteInvariant(task, WithSettlement(r, record)) && Grows(r, WithSettlement(r, record))
  {
    var r' := WithSettlement(r, record);
    if SettlementAccepted(r, record) {
      assert record == r'.settlements[|r.settlements|];
      forall i | 0 <= i < |r.flows| && FlowSound(task, r', r.flows[i]) ensures FlowSound(task, r', r'.flows[i]) {
        assert r'.flows[i] == Tag(record, r.flows[i]);
        if Covers(record, r.flows[i]) { assert SettledBy(r'.flows[i], record); }
      }
      RewriteInvariant(task, r, r');
    } else {
      RewriteInvariant(task, r, r);
    }
  }

  lemma FailInvariant(task: Task, r: Route, i: nat)
    requires RouteInvariant(task, r) && i < |r.flows|
    requires r.flows[i].status == Authorized && r.flows[i].receipt.None? && r.flows[i].settlementSignature.None?
    ensures RouteInvariant(task, Fail(r, i)) && Grows(r, Fail(r, i))
  {
    RewriteInvariant(task, r, Fail(r, i));
  }

  lemma FulfilInvariant(task: Task, r: Route, i: nat, receipt: Receipt)
    requires RouteInvariant(task, r) && i < |r.flows|
    requires r.flows[i].status == Authorized && r.flows[i].settlementSignature.None?
    requires ReceiptSound(r.flows[i], receipt)
    ensures RouteInvariant(task, Fulfil(r, i, receipt)) && Grows(r, Fulfil(r, i, receipt))
  {
    RewriteInvariant(task, r, Fulfil(r, i, receipt));
  }

  // ----- Runs -----

  /** Executions that keep their flow untouched stay sound when the route moves on. */
  lemma RunningFrame(registry: map<string, string>, r: Route, r': Route, running: map<nat, Execution>)
    requires Running(registry, System(r, running)) && Grows(r, r')
    requires forall id :: id in running && running[id].Paying? ==>
      r'.flows[running[id].flow] == r.flows[running[id].flow]
    ensures Running(registry, System(r', running))
  {
    forall id | id in running ensures ExecutionSound(registry, r', running[id]) {
      assert ExecutionSound(registry, r, running[id]);
    }
  }

  lemma RunningWithout(registry: map<string, string>, s: System, id: nat)
    requires Running(registry, s)
    ensures Running(registry, s.(running := s.running - {id}))
  {
    var rest := s.running - {id};
    forall k | k in rest ensures ExecutionSound(registry, s.route, rest[k]) {
      assert ExecutionSound(registry, s.route, s.running[k]);
    }
  }

  lemma LaunchStep(task: Task, registry: map<string, string>, s: System, e: Event)
    requires Invariant(task, registry, s) && e.Launch?
    ensures Invariant(task, registry, Step(task, registry, s, e))
    ensures Grows(s.route, Step(task, registry, s, e).route)
  {
    if LaunchRejection(registry, s.route, e.providerId).Some? {
      LaunchRejected(task, registry, s, e);
    }
  }

  lemma LaunchRejected(task: Task, registry: map<string, string>, s: System, e: Event)
    requires Invariant(task, registry, s) && e.Launch?
    requires LaunchRejection(registry, s.route, e.providerId).Some?
    ensures Invariant(task, registry, Step(task, registry, s, e))
    ensures Grows(s.route, Step(task, registry, s, e).route)
  {
    var r, code := s.route, LaunchRejection(registry, s.route, e.providerId).value;
    var f := RejectedFlow(task.id, |r.flows|, e.providerId, e.requestId, 0, 0, 0, code, e.now);
    PushRejectionInvariant(task, r, f);
    RunningFrame(registry, r, PushFlow(r, f), s.running);
  }

  lemma QuotedStep(task: Task, registry: map<string, string>, s: System, e: Event)
    requires Invariant(task, registry, s) && e.Quoted?
    ensures Invariant(task, registry, Step(task, registry, s, e))
    ensures Grows(s.route, Step(task, registry, s, e).route)
  {
    if AwaitsQuote(registry, s, e.id) {
      RunningWithout(registry, s, e.id);
      if QuoteMatchesRequest(registry[s.running[e.id].providerId], s.running[e.id].requestId, e.quote) {
        QuotedRoute(task, registry, s, e);
        QuotedRunning(task, registry, s, e);
      }
    }
  }

  lemma QuotedRoute(task: Task, registry: map<string, string>, s: System, e: Event)
    requires Invariant(task, registry, s) && e.Quoted? && AwaitsQuote(registry, s, e.id)
    requires QuoteMatchesRequest(registry[s.running[e.id].providerId], s.running[e.id].requestId, e.quote)
    ensures var route := Step(task, registry, s, e).route;
      RouteInvariant(task, route) && Grows(s.route, route)
  {
    var Quoting(p, requestId) := s.running[e.id];
    AuthorizeInvariant(task, s.route, p, requestId, e.quote, e.now);
    AuthorizeGrows(task, s.route, p, requestId, e.quote, e.now);
  }

  lemma QuotedRunning(task: Task, registry: map<string, string>, s: System, e: Event)
    requires Invariant(task, registry, s) && e.Quoted? && AwaitsQuote(registry, s, e.id)
    requires QuoteMatchesRequest(registry[s.running[e.id].providerId], s.running[e.id].requestId, e.quote)
    requires Grows(s.route, Step(task, registry, s, e).route)
    requires Running(registry, System(s.route, s.running - {e.id}))
    ensures Running(registry, Step(task, registry, s, e))
  {
    var Quoting(p, requestId) := s.running[e.id];
    AuthorizeKeepsFlows(task, s.route, p, requestId, e.quote, e.now);
    RunningFrame(registry, s.route, Step(task, registry, s, e).route, s.running - {e.id});
    if Authorize(task, s.route, p, requestId, e.quote, e.now).1.Ok? {
      ChargedExecution(task, registry, s.route, p, requestId, e.quote, e.now);
    }
    PayingFresh(registry, s, Step(task, registry, s, e), e.id);
  }

  lemma AuthorizeKeepsFlows(task: Task, r: Route, p: string, requestId: string, quote: ProviderQuote, now: int)
    requires p in r.states
    ensures var flows := Authorize(task, r, p, requestId, quote, now).0.flows;
      |flows| == |r.flows| + 1 && forall i :: 0 <= i < |r.flows| ==> flows[i] == r.flows[i]
  {
  }

  /** The execution that goes on to pay points at the flow just appended. */
  lemma ChargedExecution(
    task: Task, registry: map<string, string>, r: Route, p: string, requestId: string, quote: ProviderQuote, now: int)
    requires Balanced(task, r) && p in r.states && quote.priceAtomic > 0
    requires Authorize(task, r, p, requestId, quote, now).1.Ok?
    ensures var (r', answer) := Authorize(task, r, p, requestId, quote, now);
      ExecutionSound(registry, r', Paying(quote, answer.value, |r.flows|))
  {
    DecideExactly(task, r, p, quote, now);
  }

  /** An execution that has just been charged points at a flow no other execution points at. */
  lemma PayingFresh(registry: map<string, string>, s: System, s': System, id: nat)
    requires Running(registry, s) && Grows(s.route, s'.route)
    requires Running(registry, System(s'.route, s.running - {id}))
    requires s'.running == s.running - {id} ||
             (s'.running.Keys == s.running.Keys + {id} && s'.running[id].Paying?
              && s'.running[id].flow == |s.route.flows|
              && ExecutionSound(registry, s'.route, s'.running[id])
              && forall k :: k in s.running && k != id ==> s'.running[k] == s.running[k])
    ensures Running(registry, s')
  {
    forall k | k in s'.running ensures ExecutionSound(registry, s'.route, s'.running[k]) {
      assert k != id ==> k in s.running - {id};
    }
    forall k | k in s.running && k != id && s.running[k].Paying? ensures s.running[k].flow < |s.route.flows| {
      assert ExecutionSound(registry, s.route, s.running[k]);
    }
  }

  lemma PaymentStep(task: Task, registry: map<string, string>, s: System, e: Event)
    requires Invariant(task, registry, s) && (e.PaymentFailed? || e.PaymentSucceeded?)
    ensures Invariant(task, registry, Step(task, registry, s, e))
    ensures Grows(s.route, Step(task, registry, s, e).route)
  {
    if AwaitsPayment(s, e.id) {
      PaidRoute(task, registry, s, e);
      RunningWithout(registry, s, e.id);
      RunningFrame(registry, s.route, Step(task, registry, s, e).route, s.running - {e.id});
    }
  }

  lemma PaidRoute(task: Task, registry: map<string, string>, s: System, e: Event)
    requires Invariant(task, registry, s) && (e.PaymentFailed? || e.PaymentSucceeded?) && AwaitsPayment(s, e.id)
    ensures var route := Step(task, registry, s, e).route;
      && RouteInvariant(task, route) && Grows(s.route, route)
      && |route.flows| == |s.route.flows|
      && forall i :: 0 <= i < |route.flows| && i != s.running[e.id].flow ==> route.flows[i] == s.route.flows[i]
  {
    var Paying(quote, authorization, flow) := s.running[e.id];
    assert ExecutionSound(registry, s.route, s.running[e.id]);
    assert FlowSound(task, s.route, s.route.flows[flow]);
    if e.PaymentSucceeded? && AuthorizationMatchesQuote(quote, authorization) {
      FulfilInvariant(task, s.route, flow, ReceiptFor(quote, authorization, e.responseHash, e.now));
    } else {
      FailInvariant(task, s.route, flow);
    }
  }

  lemma SettledStep(task: Task, registry: map<string, string>, s: System, e: Event)
    requires Invariant(task, registry, s) && e.Settled?
    ensures Invariant(task, registry, Step(task, registry, s, e))
    ensures Grows(s.route, Step(task, registry, s, e).route)
  {
    SettlementInvariant(task, s.route, e.record);
    forall id | id in s.running && s.running[id].Paying?
      ensures WithSettlement(s.route, e.record).flows[s.running[id].flow] == s.route.flows[s.running[id].flow]
    {
      assert ExecutionSound(registry, s.route, s.running[id]);
    }
    RunningFrame(registry, s.route, WithSettlement(s.route, e.record), s.running);
  }

  lemma StepInvariant(task: Task, registry: map<string, string>, s: System, e: Event)
    requires Invariant(task, registry, s)
    ensures Invariant(task, registry, Step(task, registry, s, e))
    ensures Grows(s.route, Step(task, registry, s, e).route)
  {
    match e
    case Launch(_, _, _, _) => LaunchStep(task, registry, s, e);
    case Quoted(_, _, _) => QuotedStep(task, registry, s, e);
    case PaymentFailed(_) => PaymentStep(task, registry, s, e);
    case PaymentSucceeded(_, _, _) => PaymentStep(task, registry, s, e);
    case Settled(_) => SettledStep(task, registry, s, e);
    case QuoteFailed(id) => RunningWithout(registry, s, id);
  }

  /** Every interleaving keeps the invariant, and nothing authorized or settled is ever taken back. */
  lemma {:induction false} ResumeInvariant(task: Task, registry: map<string, string>, s: System, events: seq<Event>)
    requires Invariant(task, registry, s)
    ensures Invariant(task, registry, Resume(task, registry, s, events))
    ensures Grows(s.route, Resume(task, registry, s, events).route)
  {
    if events == [] {
    } else {
      var front := events[..|events| - 1];
      ResumeInvariant(task, registry, s, front);
      var mid := Resume(task, registry, s, front);
      StepInvariant(task, registry, mid, events[|events| - 1]);
      GrowsTransitive(s.route, mid.route, Resume(task, registry, s, events).route);
    }
  }

  lemma GrowsTransitive(a: Route, b: Route, c: Route)
    requires Grows(a, b) && Grows(b, c)
    ensures Grows(a, c)
  {
    forall p ensures LinksOf(a.flows, p) <= LinksOf(c.flows, p) {
      assert LinksOf(a.flows, p) <= LinksOf(b.flows, p) <= LinksOf(c.flows, p);
    }
  }
}
