/** The promises of allocateReservations, and when its result can be executed. */
module ReservationTheorems {
  import opened Basics
  import opened Sums
  import opened Domain
  import opened Routing
  import RoutingProofs
  import opened Reservations
  import opened ReservationProofs

  function Ceiling(): ChannelReservation -> int {
    (c: ChannelReservation) => c.ceilingAtomic
  }

  function Total(rs: seq<ChannelReservation>): int {
    SumBy(rs, Ceiling())
  }

  lemma {:induction false} TotalOfReservations(ids: seq<string>, alloc: Amounts)
    ensures Total(ReservationsFor(ids, alloc)) == SumBy(ids, At(alloc))
  {
    if ids == [] {
    } else {
      assert ReservationsFor(ids, alloc)[1..] == ReservationsFor(ids[1..], alloc);
      TotalOfReservations(ids[1..], alloc);
    }
  }

  lemma {:induction false} UnitsSum(ids: seq<string>, all: seq<string>)
    requires forall p :: p in ids ==> p in all
    ensures SumBy(ids, At(Units(all))) == |ids|
  {
    if ids == [] {
    } else {
      UnitsSum(ids[1..], all);
    }
  }

  /** What the checks before the loop establish. */
  ghost predicate Fillable(ids: seq<string>, caps: Amounts, budget: int) {
    Distinct(ids) && |ids| <= budget <= SumBy(ids, At(caps)) && forall p :: p in ids ==> Get(caps, p) >= 1
  }

  lemma StartingLevel(ids: seq<string>, caps: Amounts, budget: int)
    requires Fillable(ids, caps, budget)
    ensures AtLevel(ids, caps, Units(ids), 1)
    ensures Water(ids, caps, 1) == |ids|
  {
    AtLevelSum(ids, caps, Units(ids), 1);
    UnitsSum(ids, ids);
  }

  lemma FilledWell(ids: seq<string>, caps: Amounts, budget: int, alloc: Amounts, level: int, remaining: int)
    requires Fillable(ids, caps, budget) && level == 1 && alloc == Units(ids) && remaining == budget - |ids|
    ensures WellFilled(ids, caps, Rounds(ids, caps, alloc, remaining).0,
                       budget, level, Overfills(ids, caps, budget, level))
  {
    StartingLevel(ids, caps, budget);
    RoundsSound(ids, caps, alloc, level, remaining, budget);
  }

  lemma AllocationWellFilled(budget: int, ids: seq<string>, policyCaps: Amounts)
    requires Distinct(ids) && Allocate(budget, ids, policyCaps).Ok?
    ensures var caps := CapsFor(budget, ids, policyCaps);
            && Fillable(ids, caps, budget)
            && WellFilled(ids, caps, Rounds(ids, caps, Units(ids), budget - |ids|).0, budget, 1,
                          Overfills(ids, caps, budget, 1))
  {
    FilledWell(ids, CapsFor(budget, ids, policyCaps), budget, Units(ids), 1, budget - |ids|);
  }

  /** Every provider is listed once, in order, with at least one unit and at most its cap. */
  lemma AllocationWithinCaps(budget: int, ids: seq<string>, policyCaps: Amounts)
    requires Distinct(ids) && Allocate(budget, ids, policyCaps).Ok?
    ensures var rs, caps := Allocate(budget, ids, policyCaps).value, CapsFor(budget, ids, policyCaps);
            && |rs| == |ids|
            && forall i :: 0 <= i < |ids| ==> rs[i].providerId == ids[i] && 1 <= rs[i].ceilingAtomic <= caps[ids[i]]
  {
    var caps := CapsFor(budget, ids, policyCaps);
    var final := Rounds(ids, caps, Units(ids), budget - |ids|).0;
    AllocationWellFilled(budget, ids, policyCaps);
    forall i | 0 <= i < |ids| ensures 1 <= Get(final, ids[i]) <= caps[ids[i]] {
      assert ids[i] in ids && Get(caps, ids[i]) >= 1;
    }
  }

  /**
    The total is at least the budget, at most two less than the number of providers above it, and exactly
    the budget unless the task overfills.
   */
  lemma AllocationTotal(budget: int, ids: seq<string>, policyCaps: Amounts)
    requires Distinct(ids) && Allocate(budget, ids, policyCaps).Ok?
    ensures var total := Total(Allocate(budget, ids, policyCaps).value);
            && budget <= total <= budget + Max(0, |ids| - 2)
            && (total == budget <==> !Overfills(ids, CapsFor(budget, ids, policyCaps), budget, 1))
  {
    AllocationWellFilled(budget, ids, policyCaps);
    TotalOfReservations(ids, Rounds(ids, CapsFor(budget, ids, policyCaps), Units(ids), budget - |ids|).0);
  }

  /** Whoever ends below its cap is at most one less than the number of providers behind anybody else. */
  lemma AllocationFair(budget: int, ids: seq<string>, policyCaps: Amounts, i: nat, j: nat)
    requires Distinct(ids) && Allocate(budget, ids, policyCaps).Ok? && i < |ids| && j < |ids|
    ensures var rs := Allocate(budget, ids, policyCaps).value;
            rs[i].ceilingAtomic < CapsFor(budget, ids, policyCaps)[ids[i]] ==>
              rs[j].ceilingAtomic - rs[i].ceilingAtomic <= |ids| - 1
  {
    AllocationWellFilled(budget, ids, policyCaps);
    assert ids[i] in ids && ids[j] in ids;
  }

  /** Providers with room for the whole share cannot make a pass spill. */
  lemma RoomyPassIsExact(ids: seq<string>, caps: Amounts, budget: int)
    requires ids != [] && budget >= |ids| == Water(ids, caps, 1)
    requires forall p :: p in ids ==> Get(caps, p) > 1 && Get(caps, p) >= 1 + CeilDiv(budget - |ids|, |ids|)
    ensures !Overfills(ids, caps, budget, 1)
  {
    if budget > |ids| {
      var remaining := budget - |ids|;
      var share := CeilDiv(remaining, |ids|);
      AboveAll(ids, caps, 1);
      CeilDivBounds(remaining, |ids|);
      DemandWhenRoomy(ids, caps, 1, share);
      OverfillsNow(ids, caps, budget, 1, share);
      forall j | 0 <= j < |ids| ensures !SpillsAt(ids, caps, 1, share, remaining, j) {
        assert ids[j] in ids;
      }
    }
  }

  /** With no cap below the first share, one pass suffices and hands out exactly the budget. */
  lemma RoomyCapsAreExact(budget: int, ids: seq<string>, policyCaps: Amounts)
    requires Distinct(ids) && ids != [] && Allocate(budget, ids, policyCaps).Ok?
    requires forall p :: p in ids ==> CapsFor(budget, ids, policyCaps)[p] >= 1 + CeilDiv(budget - |ids|, |ids|)
    ensures Total(Allocate(budget, ids, policyCaps).value) == budget
  {
    AllocationTotal(budget, ids, policyCaps);
    var caps := CapsFor(budget, ids, policyCaps);
    StartingLevel(ids, caps, budget);
    if budget > |ids| {
      RoomyPassIsExact(ids, caps, budget);
    } else {
      RestingOverfills(ids, caps, budget, 1);
    }
  }

  lemma {:induction false} AboveAll(ids: seq<string>, caps: Amounts, level: int)
    requires forall p :: p in ids ==> level < Get(caps, p)
    ensures Above(ids, caps, level) == ids
  {
    if ids == [] {
    } else {
      AboveAll(ids[1..], caps, level);
    }
  }

  // ----- The bound is reached -----

  /** All providers but the last take a full share of n; the last has room for n - 1 and takes it. */
  lemma {:induction false} StepPass(
    ids: seq<string>, caps: Amounts, alloc: Amounts, n: nat, remaining: int, last: string)
    requires Distinct(ids) && ids != [] && ids[|ids| - 1] == last && n >= 3
    requires forall p :: p in ids ==> Get(alloc, p) == 1
    requires forall p :: p in ids && p != last ==> Get(caps, p) > n
    requires Get(caps, last) == n
    requires remaining == Portions(|ids| - 1, n) + 1
    ensures Pass(ids, caps, alloc, n, remaining).1 == 2 - n
  {
    var p, rest := ids[0], ids[1..];
    DistinctTail(ids);
    if rest == [] {
      assert Pass(rest, caps, alloc[p := n], n, 2 - n).1 == 2 - n;
    } else {
      assert p != last;
      PortionsAtLeast(|ids| - 1, n);
      StepPass(rest, caps, alloc[p := 1 + n], n, remaining - n, last);
    }
  }

  lemma StepRounds(ids: seq<string>, caps: Amounts, n: nat, remaining: int)
    requires Distinct(ids) && |ids| == n >= 3 && remaining == Portions(n - 1, n) + 1
    requires forall p :: p in ids && p != ids[n - 1] ==> Get(caps, p) > n
    requires Get(caps, ids[n - 1]) == n
    ensures SumBy(ids, At(Rounds(ids, caps, Units(ids), remaining).0)) == n + remaining + (n - 2)
  {
    PortionsAtLeast(n - 1, n);
    ShareIs(remaining, n, n);
    AboveAll(ids, caps, 1);
    StepPass(ids, caps, Units(ids), n, remaining, ids[n - 1]);
    PassConserves(ids, ids, caps, Units(ids), n, remaining);
    UnitsSum(ids, ids);
    RoundsStep(ids, caps, Units(ids), 1, remaining);
  }

  lemma StepAllocation(ids: seq<string>, n: nat, budget: int)
    requires Distinct(ids) && |ids| == n >= 3 && budget == Portions(n, n) + 1
    ensures var r := Allocate(budget, ids, map[ids[n - 1] := n]);
            r.Ok? && Total(r.value) == budget + (n - 2)
  {
    var caps := CapsFor(budget, ids, map[ids[n - 1] := n]);
    PortionsAtLeast(n, n);
    assert ids[0] != ids[n - 1];
    SumAtLeast(ids, At(caps), ids[0]);
    StepRounds(ids, caps, n, budget - n);
    TotalOfReservations(ids, Rounds(ids, caps, Units(ids), budget - n).0);
  }

  /**
    For every number n >= 3 of providers the overshoot n - 2 occurs: budget n*n + 1, the last provider
    capped at n and the others uncapped. With n = 3 that is 10 units shared 4, 4, 3.
   */
  lemma OvershootIsReached(ids: seq<string>)
    requires Distinct(ids) && |ids| >= 3
    ensures var n := |ids|;
            var r := Allocate(n * n + 1, ids, map[ids[n - 1] := n]);
            r.Ok? && Total(r.value) == n * n + 1 + (n - 2)
  {
    PortionsIsProduct(|ids|, |ids|);
    StepAllocation(ids, |ids|, |ids| * |ids| + 1);
  }

  lemma ShareIs(n: int, d: nat, q: nat)
    requires d > 0 && q > 0 && Portions(d, q) - (d - 1) <= n <= Portions(d, q)
    ensures n > 0 ==> CeilDiv(n, d) == q
  {
    if n > 0 {
      CeilDivBounds(n, d);
      if CeilDiv(n, d) < q { PortionsMonotone(d, CeilDiv(n, d), q); }
      if q < CeilDiv(n, d) { PortionsMonotone(d, q, CeilDiv(n, d)); }
    }
  }

  lemma {:induction false} PortionsMonotone(n: nat, s: int, t: int)
    requires s < t
    ensures Portions(n, s) + n <= Portions(n, t)
  {
    if n == 0 {
    } else {
      PortionsMonotone(n - 1, s, t);
    }
  }

  // ----- From creation to execution -----

  /** A task as createTask builds it: its reservations come from its own allowlist, caps and budget. */
  ghost predicate CreatedWith(task: Task, rs: seq<ChannelReservation>) {
    && Distinct(task.policy.allowedProviderIds)
    && (forall p :: p in task.policy.allowedProviderIds ==> p !in task.policy.blockedProviderIds)
    && Allocate(task.budget.totalAtomic, task.policy.allowedProviderIds, task.policy.providerCapsAtomic) == Ok(rs)
  }

  lemma {:induction false} BookTotals(task: Task, registry: map<string, string>, rs: seq<ChannelReservation>)
    requires BookReservations(task, registry, rs).Ok?
    ensures BookReservations(task, registry, rs).value.totalReserved == Total(rs)
  {
    if rs == [] {
    } else {
      var front, c := rs[..|rs| - 1], rs[|rs| - 1];
      BookTotals(task, registry, front);
      assert rs == front + [c];
      SumSnoc(front, c, Ceiling());
    }
  }

  lemma {:induction false} BookAccepts(
    task: Task, registry: map<string, string>, ids: seq<string>, rs: seq<ChannelReservation>)
    requires |rs| == |ids| && Distinct(ids) && (forall i :: 0 <= i < |ids| ==> rs[i].providerId == ids[i])
    requires forall i :: 0 <= i < |ids| ==>
               && rs[i].ceilingAtomic > 0 && ids[i] in registry
               && ids[i] in task.policy.allowedProviderIds && ids[i] !in task.policy.blockedProviderIds
               && (ids[i] in task.policy.providerCapsAtomic ==>
                     rs[i].ceilingAtomic <= task.policy.providerCapsAtomic[ids[i]])
    requires Total(rs) <= task.budget.totalAtomic
    ensures BookReservations(task, registry, rs).Ok?
    ensures BookReservations(task, registry, rs).value.order == ids
  {
    if rs == [] {
    } else {
      var n := |rs| - 1;
      assert rs == rs[..n] + [rs[n]] && ids == ids[..n] + [ids[n]];
      SumSnoc(rs[..n], rs[n], Ceiling());
      BookAccepts(task, registry, ids[..n], rs[..n]);
      BookTotals(task, registry, rs[..n]);
    }
  }

  /**
    A created task whose providers are all registered can be opened for execution exactly when its
    allocation does not overfill; an overfilled task is refused by the orchestrator every time.
   */
  lemma CreatedTasksOpenExactly(task: Task, registry: map<string, string>, rs: seq<ChannelReservation>)
    requires CreatedWith(task, rs)
    requires forall p :: p in task.policy.allowedProviderIds ==> p in registry
    ensures var ids, budget := task.policy.allowedProviderIds, task.budget.totalAtomic;
            && (Open(task, registry, rs).Ok? <==>
                !Overfills(ids, CapsFor(budget, ids, task.policy.providerCapsAtomic), budget, 1))
            && (|ids| <= 2 ==> Open(task, registry, rs).Ok?)
  {
    var ids, budget := task.policy.allowedProviderIds, task.budget.totalAtomic;
    AllocationWithinCaps(budget, ids, task.policy.providerCapsAtomic);
    AllocationTotal(budget, ids, task.policy.providerCapsAtomic);
    if Total(rs) <= budget {
      BookAccepts(task, registry, ids, rs);
    } else if BookReservations(task, registry, rs).Ok? {
      BookTotals(task, registry, rs);
      RoutingProofs.BookIsSound(task, registry, rs);
    }
  }

  // ----- refusals -----

  /** What a provider may be reserved: its cap, or the budget where it has none. */
  function CapOr(policyCaps: Amounts, budget: int): string -> int {
    p => if p in policyCaps then policyCaps[p] else budget
  }

  /**
    Reserving is refused for a budget below one unit per provider, else for a cap that is not positive, else for caps
    that together cannot hold the budget, and for nothing else.
   */
  lemma RefusalsExactly(budget: int, ids: seq<string>, policyCaps: Amounts)
    ensures var r := Allocate(budget, ids, policyCaps);
      && (r == Err(BudgetTooSmall) <==> budget < |ids|)
      && (r == Err(CapNotPositive) <==> budget >= |ids| && exists p :: p in ids && CapOr(policyCaps, budget)(p) <= 0)
      && (r == Err(CapacityTooSmall) <==>
            && budget >= |ids| && SumBy(ids, CapOr(policyCaps, budget)) < budget
            && forall p :: p in ids ==> CapOr(policyCaps, budget)(p) > 0)
  {
    SumExt(ids, At(CapsFor(budget, ids, policyCaps)), CapOr(policyCaps, budget));
    assert forall p :: p in ids ==> Get(CapsFor(budget, ids, policyCaps), p) == CapOr(policyCaps, budget)(p);
  }
}
