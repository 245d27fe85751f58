/** Which reservations open a route, and what the opened route grants for as long as it runs. */
module RouteOpening {
  import opened Basics
  import opened Sums
  import opened Domain
  import opened SpendPolicy
  import opened Routing
  import opened RoutingProofs
  import opened RoutingTheorems

  function Ceiling(): ChannelReservation -> int {
    (c: ChannelReservation) => c.ceilingAtomic
  }

  /** What each error says is wrong with the i-th reservation, each on its own. */
  predicate Broken(task: Task, registry: map<string, string>, cs: seq<ChannelReservation>, i: nat, e: ReservationError)
    requires i < |cs|
  {
    var c := cs[i];
    match e
    case DuplicateReservation => exists j :: 0 <= j < i && cs[j].providerId == c.providerId
    case CeilingNotPositive => c.ceilingAtomic <= 0
    case UnknownProvider => c.providerId !in registry
    case BlockedProvider => c.providerId in task.policy.blockedProviderIds
    case OutsideAllowlist => c.providerId !in task.policy.allowedProviderIds
    case CeilingAboveCap =>
      && c.providerId in task.policy.providerCapsAtomic
      && c.ceilingAtomic > task.policy.providerCapsAtomic[c.providerId]
    case CeilingsAboveBudget => SumBy(cs[..i + 1], Ceiling()) > task.budget.totalAtomic
  }

  /** The order in which one reservation is checked. */
  function Place(e: ReservationError): nat {
    match e
    case DuplicateReservation => 0 case CeilingNotPositive => 1 case UnknownProvider => 2 case BlockedProvider => 3
    case OutsideAllowlist => 4 case CeilingAboveCap => 5 case CeilingsAboveBudget => 6
  }

  ghost predicate Clean(task: Task, registry: map<string, string>, cs: seq<ChannelReservation>, n: nat)
    requires n <= |cs|
  {
    forall i, e :: 0 <= i < n ==> !Broken(task, registry, cs, i, e)
  }

  /** The first thing wrong with the list, reservation by reservation and check by check. */
  ghost predicate FirstBroken(
    task: Task, registry: map<string, string>, cs: seq<ChannelReservation>, i: nat, e: ReservationError)
    requires i < |cs|
  {
    && Clean(task, registry, cs, i)
    && Broken(task, registry, cs, i, e)
    && forall d :: Place(d) < Place(e) ==> !Broken(task, registry, cs, i, d)
  }

  lemma BrokenPrefix(
    task: Task, registry: map<string, string>, cs: seq<ChannelReservation>, n: nat, i: nat, e: ReservationError)
    requires i < n <= |cs|
    ensures Broken(task, registry, cs[..n], i, e) == Broken(task, registry, cs, i, e)
  {
    assert cs[..n][..i + 1] == cs[..i + 1];
  }

  lemma CleanPrefix(task: Task, registry: map<string, string>, cs: seq<ChannelReservation>, n: nat)
    requires n <= |cs|
    ensures Clean(task, registry, cs[..n], n) == Clean(task, registry, cs, n)
  {
    forall i, e | 0 <= i < n ensures Broken(task, registry, cs[..n], i, e) == Broken(task, registry, cs, i, e) {
      BrokenPrefix(task, registry, cs, n, i, e);
    }
  }

  /** The reservations, as a book. */
  ghost predicate Booked(cs: seq<ChannelReservation>, b: Book) {
    && |b.order| == |cs|
    && (forall i :: 0 <= i < |cs| ==>
          && b.order[i] == cs[i].providerId && cs[i].providerId in b.states
          && b.states[cs[i].providerId] == ProviderState(cs[i].ceilingAtomic, 0, 0))
    && (forall p :: p in b.states ==> p in b.order)
    && b.totalReserved == SumBy(cs, Ceiling())
  }

  lemma InOrder(cs: seq<ChannelReservation>, b: Book, p: string)
    requires Booked(cs, b)
    ensures p in b.order <==> exists j :: 0 <= j < |cs| && cs[j].providerId == p
  {
    if p in b.order {
      var j :| 0 <= j < |b.order| && b.order[j] == p;
      assert cs[j].providerId == p;
    }
  }

  /** The checks of one reservation after a clean list. */
  lemma CheckedNext(task: Task, registry: map<string, string>, cs: seq<ChannelReservation>, b: Book)
    requires cs != [] && Booked(cs[..|cs| - 1], b)
    ensures var n := |cs| - 1;
      match CheckReservation(task, registry, b.order, b.totalReserved, cs[n])
      case None => forall e :: !Broken(task, registry, cs, n, e)
      case Some(e) =>
        && Broken(task, registry, cs, n, e)
        && forall d :: Place(d) < Place(e) ==> !Broken(task, registry, cs, n, d)
  {
    var n := |cs| - 1;
    InOrder(cs[..n], b, cs[n].providerId);
    assert cs[..n + 1] == cs == cs[..n] + [cs[n]];
    SumSnoc(cs[..n], cs[n], Ceiling());
  }

  lemma BookNext(cs: seq<ChannelReservation>, b: Book)
    requires cs != [] && Booked(cs[..|cs| - 1], b) && cs[|cs| - 1].providerId !in b.order
    ensures var c := cs[|cs| - 1];
      Booked(cs, Book(b.order + [c.providerId], b.states[c.providerId := ProviderState(c.ceilingAtomic, 0, 0)],
                      b.totalReserved + c.ceilingAtomic))
  {
    var n := |cs| - 1;
    assert cs == cs[..n] + [cs[n]];
    SumSnoc(cs[..n], cs[n], Ceiling());
  }

  lemma FirstBrokenPrefix(
    task: Task, registry: map<string, string>, cs: seq<ChannelReservation>, n: nat, i: nat, e: ReservationError)
    requires i < n <= |cs| && FirstBroken(task, registry, cs[..n], i, e)
    ensures FirstBroken(task, registry, cs, i, e)
  {
    forall j, d | 0 <= j <= i ensures Broken(task, registry, cs[..n], j, d) == Broken(task, registry, cs, j, d) {
      BrokenPrefix(task, registry, cs, n, j, d);
    }
  }

  /** What booking a list makes of it. */
  ghost predicate Settles(
    task: Task, registry: map<string, string>, cs: seq<ChannelReservation>, r: Result<Book, ReservationError>)
  {
    match r
    case Ok(b) => Clean(task, registry, cs, |cs|) && Booked(cs, b)
    case Err(e) => exists i :: 0 <= i < |cs| && FirstBroken(task, registry, cs, i, e)
  }

  lemma SettlesNext(task: Task, registry: map<string, string>, cs: seq<ChannelReservation>, b: Book)
    requires cs != [] && Settles(task, registry, cs[..|cs| - 1], Ok(b))
    requires BookReservations(task, registry, cs[..|cs| - 1]) == Ok(b)
    ensures Settles(task, registry, cs, BookReservations(task, registry, cs))
  {
    var n := |cs| - 1;
    CleanPrefix(task, registry, cs, n);
    CheckedNext(task, registry, cs, b);
    var checked := CheckReservation(task, registry, b.order, b.totalReserved, cs[n]);
    if checked.None? {
      BookNext(cs, b);
    } else {
      assert FirstBroken(task, registry, cs, n, checked.value);
    }
  }

  lemma StaysBroken(task: Task, registry: map<string, string>, cs: seq<ChannelReservation>, e: ReservationError)
    requires cs != [] && Settles(task, registry, cs[..|cs| - 1], Err(e))
    ensures Settles(task, registry, cs, Err(e))
  {
    var n := |cs| - 1;
    var i :| 0 <= i < n && FirstBroken(task, registry, cs[..n], i, e);
    FirstBrokenPrefix(task, registry, cs, n, i, e);
  }

  lemma {:induction false} BookOutcome(task: Task, registry: map<string, string>, cs: seq<ChannelReservation>)
    ensures Settles(task, registry, cs, BookReservations(task, registry, cs))
  {
    if cs == [] {
    } else {
      var front := cs[..|cs| - 1];
      BookOutcome(task, registry, front);
      match BookReservations(task, registry, front)
      case Ok(b) => SettlesNext(task, registry, cs, b);
      case Err(e) => StaysBroken(task, registry, cs, e);
    }
  }

  lemma FirstBrokenIsUnique(
    task: Task, registry: map<string, string>, cs: seq<ChannelReservation>, i: nat, e: ReservationError, j: nat,
    d: ReservationError)
    requires i < |cs| && j < |cs| && FirstBroken(task, registry, cs, i, e) && FirstBroken(task, registry, cs, j, d)
    ensures i == j && e == d
  {
    assert !(i < j) && !(j < i);
    assert !(Place(d) < Place(e)) && !(Place(e) < Place(d));
  }

  /**
    Opening succeeds exactly when nothing is wrong with any reservation, and fails with the first thing wrong. The
    opened route lists the providers in the order of their reservations, each with its reserved ceiling and nothing
    spent, and knows no other provider.
   */
  lemma OpensExactly(task: Task, registry: map<string, string>, cs: seq<ChannelReservation>, e: ReservationError)
    ensures Open(task, registry, cs).Ok? <==> Clean(task, registry, cs, |cs|)
    ensures Open(task, registry, cs) == Err(e) <==> exists i :: 0 <= i < |cs| && FirstBroken(task, registry, cs, i, e)
    ensures Open(task, registry, cs).Ok? ==>
      var r := Open(task, registry, cs).value;
      && r.ledger.taskId == task.id && r.ledger.spentAtomic == 0 && r.ledger.providerSpentAtomic == map[]
      && r.flows == [] && r.settlements == []
      && |r.order| == |cs|
      && (forall i :: 0 <= i < |cs| ==>
            && r.order[i] == cs[i].providerId && cs[i].providerId in r.states
            && r.states[cs[i].providerId].channelCeilingAtomic == cs[i].ceilingAtomic
            && r.states[cs[i].providerId].cumulativeAuthorizedAtomic == 0
            && r.states[cs[i].providerId].spentAtomic == 0)
      && (forall p :: p in r.states ==> p in r.order)
  {
    BookOutcome(task, registry, cs);
    if Open(task, registry, cs).Err? {
      var d := Open(task, registry, cs).error;
      var i :| 0 <= i < |cs| && FirstBroken(task, registry, cs, i, d);
      if j :| 0 <= j < |cs| && FirstBroken(task, registry, cs, j, e) {
        FirstBrokenIsUnique(task, registry, cs, i, d, j, e);
      }
    }
  }

  /** What a reservation grants lasts: after every run the route has the same providers with the same ceilings. */
  lemma CeilingsLast(
    task: Task, registry: map<string, string>, cs: seq<ChannelReservation>, start: Route, events: seq<Event>)
    requires Accepted(task, registry, cs, start)
    ensures var r := Run(task, registry, start, events);
      && |r.order| == |cs|
      && (forall i :: 0 <= i < |cs| ==>
            && r.order[i] == cs[i].providerId && cs[i].providerId in r.states
            && r.states[cs[i].providerId].channelCeilingAtomic == cs[i].ceilingAtomic)
      && (forall p :: p in r.states ==> p in r.order)
  {
    OpensExactly(task, registry, cs, DuplicateReservation);
    RunInvariant(task, registry, cs, start, events);
  }

  /**
    After every run, a positive quote of a reserved provider is charged exactly when its mint is the budget's, the
    policy admits it, and the provider's charges so far plus its price stay within the reserved ceiling.
   */
  lemma ChargedWithinReservation(
    task: Task, registry: map<string, string>, cs: seq<ChannelReservation>, start: Route, events: seq<Event>, i: nat,
    requestId: string, quote: ProviderQuote, now: int)
    requires Accepted(task, registry, cs, start) && i < |cs| && quote.priceAtomic > 0
    ensures var r, p := Run(task, registry, start, events), cs[i].providerId;
      && p in r.states
      && (Authorize(task, r, p, requestId, quote, now).1.Ok? <==>
            && quote.mint == task.budget.mint
            && QuoteAdmissible(task, quote, now)
            && Charges(r.flows, p) + quote.priceAtomic <= cs[i].ceilingAtomic)
  {
    var r, p := Run(task, registry, start, events), cs[i].providerId;
    CeilingsLast(task, registry, cs, start, events);
    RunInvariant(task, registry, cs, start, events);
    ChargesFormAChain(task, registry, cs, start, events, p);
    DecideExactly(task, r, p, quote, now);
  }
}
