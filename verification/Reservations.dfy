/**
  Splitting a task budget into provider ceilings: allocateReservations in packages/application/src/service.ts.
  Everybody starts at one unit; each pass offers every provider below its cap an equal share of what remains.
 */
module Reservations {
  import opened Basics
  import opened Sums
  import opened Routing

  datatype AllocationError =
    | BudgetTooSmall
    | CapNotPositive
    | CapacityTooSmall

  type Amounts = map<string, int>

  function Get(m: Amounts, p: string): int {
    if p in m then m[p] else 0
  }

  function At(m: Amounts): string -> int {
    p => Get(m, p)
  }

  // ----- Specification -----

  /** A provider without a policy cap may take the whole budget. */
  function CapsFor(budget: int, ids: seq<string>, policyCaps: Amounts): Amounts {
    map p | p in ids :: if p in policyCaps then policyCaps[p] else budget
  }

  function Eligible(ids: seq<string>, caps: Amounts, alloc: Amounts): seq<string> {
    if ids == [] then []
    else (if Get(alloc, ids[0]) < Get(caps, ids[0]) then [ids[0]] else []) + Eligible(ids[1..], caps, alloc)
  }

  /** The amount one provider takes. The first case is not limited to what remains. */
  function Take(available: int, share: int, remaining: int): int {
    if available < share then available else if share < remaining then share else remaining
  }

  /** One pass: the new allocations and what remains, negative when the pass took too much. */
  function Pass(eligible: seq<string>, caps: Amounts, alloc: Amounts, share: int, remaining: int): (Amounts, int) {
    if eligible == [] || remaining == 0 then (alloc, remaining)
    else
      var p := eligible[0];
      var add := Take(Get(caps, p) - Get(alloc, p), share, remaining);
      if add > 0 then Pass(eligible[1..], caps, alloc[p := Get(alloc, p) + add], share, remaining - add)
      else Pass(eligible[1..], caps, alloc, share, remaining)
  }

  lemma {:induction false} PassNeverAdds(
    eligible: seq<string>, caps: Amounts, alloc: Amounts, share: int, remaining: int)
    ensures Pass(eligible, caps, alloc, share, remaining).1 <= remaining
  {
    if eligible == [] || remaining == 0 {
    } else {
      var p := eligible[0];
      var add := Take(Get(caps, p) - Get(alloc, p), share, remaining);
      if add > 0 {
        PassNeverAdds(eligible[1..], caps, alloc[p := Get(alloc, p) + add], share, remaining - add);
      } else {
        PassNeverAdds(eligible[1..], caps, alloc, share, remaining);
      }
    }
  }

  lemma {:induction false} EligibleMembers(ids: seq<string>, caps: Amounts, alloc: Amounts)
    ensures forall p :: p in Eligible(ids, caps, alloc) <==> p in ids && Get(alloc, p) < Get(caps, p)
  {
    if ids == [] {
    } else {
      EligibleMembers(ids[1..], caps, alloc);
    }
  }

  /** The first eligible provider always takes something, so a pass always makes progress. */
  lemma PassProgresses(ids: seq<string>, caps: Amounts, alloc: Amounts, remaining: int)
    requires remaining > 0 && Eligible(ids, caps, alloc) != []
    ensures var eligible := Eligible(ids, caps, alloc);
            Pass(eligible, caps, alloc, CeilDiv(remaining, |eligible|), remaining).1 < remaining
  {
    var eligible := Eligible(ids, caps, alloc);
    EligibleMembers(ids, caps, alloc);
    var p, share := eligible[0], CeilDiv(remaining, |eligible|);
    assert p in eligible;
    var add := Take(Get(caps, p) - Get(alloc, p), share, remaining);
    PassNeverAdds(eligible[1..], caps, alloc[p := Get(alloc, p) + add], share, remaining - add);
  }

  /** All passes, and how many there were. */
  function Rounds(ids: seq<string>, caps: Amounts, alloc: Amounts, remaining: int): (Amounts, nat)
    decreases remaining
  {
    var eligible := Eligible(ids, caps, alloc);
    if remaining <= 0 || eligible == [] then (alloc, 0)
    else
      var (next, left) := Pass(eligible, caps, alloc, CeilDiv(remaining, |eligible|), remaining);
      PassProgresses(ids, caps, alloc, remaining);
      var (final, passes) := Rounds(ids, caps, next, left);
      (final, passes + 1)
  }

  function ReservationsFor(ids: seq<string>, alloc: Amounts): seq<ChannelReservation> {
    seq(|ids|, i requires 0 <= i < |ids| => ChannelReservation(ids[i], Get(alloc, ids[i])))
  }

  function Units(ids: seq<string>): Amounts {
    map p | p in ids :: 1
  }

  function Allocate(budget: int, ids: seq<string>, policyCaps: Amounts)
    : Result<seq<ChannelReservation>, AllocationError>
  {
    var caps := CapsFor(budget, ids, policyCaps);
    if budget < |ids| then Err(BudgetTooSmall)
    else if exists p :: p in ids && Get(caps, p) <= 0 then Err(CapNotPositive)
    else if SumBy(ids, At(caps)) < budget then Err(CapacityTooSmall)
    else Ok(ReservationsFor(ids, Rounds(ids, caps, Units(ids), budget - |ids|).0))
  }
}
