/** The loop of packages/application/src/service.ts:38-95, proved equal to module Reservations. */
module Allocator {
  import opened Basics
  import opened Sums
  import opened Routing
  import opened Reservations
  import opened ReservationProofs
  import ReservationTheorems

  /** Prefix version of Eligible, in the order the filter visits the providers. */
  lemma {:induction false} EligibleSnoc(ids: seq<string>, p: string, caps: Amounts, alloc: Amounts)
    ensures Eligible(ids + [p], caps, alloc)
            == Eligible(ids, caps, alloc) + if Get(alloc, p) < Get(caps, p) then [p] else []
  {
    if ids == [] {
      assert ids + [p] == [p];
    } else {
      assert (ids + [p])[1..] == ids[1..] + [p];
      EligibleSnoc(ids[1..], p, caps, alloc);
    }
  }

  method FilterEligible(ids: seq<string>, caps: Amounts, alloc: Amounts) returns (eligible: seq<string>)
    ensures eligible == Eligible(ids, caps, alloc)
  {
    eligible := [];
    assert ids[..0] == [];
    for i := 0 to |ids|
      invariant eligible == Eligible(ids[..i], caps, alloc)
    {
      assert ids[..i + 1] == ids[..i] + [ids[i]];
      EligibleSnoc(ids[..i], ids[i], caps, alloc);
      if Get(alloc, ids[i]) < Get(caps, ids[i]) { eligible := eligible + [ids[i]]; }
    }
    assert ids[..|ids|] == ids;
  }

  /** The inner loop: one pass over the eligible providers. */
  method RunPass(eligible: seq<string>, caps: Amounts, alloc: Amounts, share: int, whole: int)
    returns (allocations: Amounts, remaining: int, progressed: bool)
    ensures (allocations, remaining) == Pass(eligible, caps, alloc, share, whole)
    ensures progressed <==> remaining < whole
  {
    allocations, remaining, progressed := alloc, whole, false;
    var i := 0;
    assert eligible[0..] == eligible;
    while i < |eligible|
      invariant 0 <= i <= |eligible|
      invariant Pass(eligible[i..], caps, allocations, share, remaining) == Pass(eligible, caps, alloc, share, whole)
      invariant remaining <= whole && (progressed <==> remaining < whole)
    {
      if remaining == 0 { break; }
      var p := eligible[i];
      var available := Get(caps, p) - Get(allocations, p);
      var add := if available < share then available else if share < remaining then share else remaining;
      assert eligible[i..][1..] == eligible[i + 1..];
      if add > 0 {
        allocations := allocations[p := Get(allocations, p) + add];
        remaining := remaining - add;
        progressed := true;
      }
      i := i + 1;
    }
  }

  /** The state before a pass: everybody at one level, and something left to hand out. */
  ghost predicate Standing(ids: seq<string>, caps: Amounts, alloc: Amounts, level: int, remaining: int, budget: int) {
    AtLevel(ids, caps, alloc, level) && 0 < remaining == budget - Water(ids, caps, level)
  }

  lemma SomebodyEligible(ids: seq<string>, caps: Amounts, alloc: Amounts, level: int, remaining: int, budget: int)
    requires ReservationTheorems.Fillable(ids, caps, budget) && Standing(ids, caps, alloc, level, remaining, budget)
    ensures Eligible(ids, caps, alloc) == Above(ids, caps, level) != []
  {
    EligibleIsAbove(ids, caps, alloc, level);
    if Above(ids, caps, level) == [] { RestingLevel(ids, caps, alloc, level, budget); }
  }

  lemma OnePass(
    ids: seq<string>, caps: Amounts, alloc: Amounts, level: int, remaining: int, budget: int,
    eligible: seq<string>, share: int, next: Amounts, left: int)
    requires ReservationTheorems.Fillable(ids, caps, budget) && Standing(ids, caps, alloc, level, remaining, budget)
    requires eligible == Eligible(ids, caps, alloc) && eligible != [] && share == CeilDiv(remaining, |eligible|)
    requires (next, left) == Pass(eligible, caps, alloc, share, remaining)
    ensures left < remaining
    ensures left > 0 ==> Standing(ids, caps, next, level + share, left, budget)
    ensures Rounds(ids, caps, alloc, remaining)
      == (Rounds(ids, caps, next, left).0, Rounds(ids, caps, next, left).1 + 1)
  {
    EligibleIsAbove(ids, caps, alloc, level);
    RoundsStep(ids, caps, alloc, level, remaining);
    if left > 0 { UnfinishedRound(ids, caps, alloc, level, share, remaining, budget); }
  }

  lemma FirstLevel(ids: seq<string>, caps: Amounts, budget: int) returns (level: int)
    requires ReservationTheorems.Fillable(ids, caps, budget)
    ensures var remaining := budget - |ids|;
      && (remaining > 0 ==> Standing(ids, caps, Units(ids), level, remaining, budget))
      && Rounds(ids, caps, Units(ids), remaining).1 <= |ids|
  {
    level := 1;
    ReservationTheorems.StartingLevel(ids, caps, budget);
    AboveShorter(ids, caps, level);
    RoundsCount(ids, caps, Units(ids), level, budget - |ids|, budget);
  }

  /** The outer loop. Its two failures are unreachable, and it makes at most as many passes as there are providers. */
  method Fill(ids: seq<string>, caps: Amounts, budget: int) returns (allocations: Amounts, ghost passes: nat)
    requires ReservationTheorems.Fillable(ids, caps, budget)
    ensures allocations == Rounds(ids, caps, Units(ids), budget - |ids|).0
    ensures passes == Rounds(ids, caps, Units(ids), budget - |ids|).1 <= |ids|
  {
    allocations, passes := Units(ids), 0;
    var remaining := budget - |ids|;
    ghost var level := FirstLevel(ids, caps, budget);
    ghost var final, total := Rounds(ids, caps, allocations, remaining).0, Rounds(ids, caps, allocations, remaining).1;
    while remaining > 0
      invariant remaining > 0 ==> Standing(ids, caps, allocations, level, remaining, budget)
      invariant final == Rounds(ids, caps, allocations, remaining).0
      invariant total == passes + Rounds(ids, caps, allocations, remaining).1
      decreases remaining
    {
      var eligible := FilterEligible(ids, caps, allocations);
      SomebodyEligible(ids, caps, allocations, level, remaining, budget);
      if eligible == [] {
        assert false; // service.ts:74 would throw here
      }
      var divisor := |eligible|;
      var share := (remaining + divisor - 1) / divisor;
      CeilDivIsDivision(remaining, divisor);
      var next, left, progressed := RunPass(eligible, caps, allocations, share, remaining);
      OnePass(ids, caps, allocations, level, remaining, budget, eligible, share, next, left);
      if !progressed {
        assert false; // service.ts:90 would throw here
      }
      allocations, remaining, level, passes := next, left, level + share, passes + 1;
    }
  }

  method CheckCaps(ids: seq<string>, caps: Amounts) returns (positive: bool)
    ensures positive <==> forall p :: p in ids ==> Get(caps, p) > 0
  {
    for i := 0 to |ids|
      invariant forall k :: 0 <= k < i ==> Get(caps, ids[k]) > 0
    {
      if Get(caps, ids[i]) <= 0 {
        assert ids[i] in ids;
        return false;
      }
    }
    return true;
  }

  method Capacity(ids: seq<string>, caps: Amounts) returns (capacity: int)
    ensures capacity == SumBy(ids, At(caps))
  {
    capacity := 0;
    for i := 0 to |ids|
      invariant capacity == SumBy(ids[..i], At(caps))
    {
      SumPrefix(ids, i, At(caps));
      capacity := capacity + Get(caps, ids[i]);
    }
    assert ids[..|ids|] == ids;
  }

  method AllocateReservations(budget: int, ids: seq<string>, policyCaps: Amounts)
    returns (r: Result<seq<ChannelReservation>, AllocationError>, ghost passes: nat)
    requires Distinct(ids)
    ensures r == Allocate(budget, ids, policyCaps)
    ensures passes <= |ids|
  {
    if budget < |ids| { return Err(BudgetTooSmall), 0; }
    var caps := CapsFor(budget, ids, policyCaps);
    var checked := CheckCaps(ids, caps);
    if !checked { return Err(CapNotPositive), 0; }
    var capacity := Capacity(ids, caps);
    if capacity < budget { return Err(CapacityTooSmall), 0; }
    var allocations;
    allocations, passes := Fill(ids, caps, budget);
    r := Ok(ReservationsFor(ids, allocations));
  }
}
