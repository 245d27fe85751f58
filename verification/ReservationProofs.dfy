/**
  What the water-filling of module Reservations guarantees.

  Before every pass all providers stand at a common level: each holds the smaller of its cap and the level.
  A pass that leaves something over raises the level by its share; the last pass may stop anywhere, or
  run past the budget.
 */
module ReservationProofs {
  import opened Basics
  import opened Sums
  import opened Routing
  import opened Reservations

  ghost predicate AtLevel(ids: seq<string>, caps: Amounts, alloc: Amounts, level: int) {
    forall p :: p in ids ==> Get(alloc, p) == Min(Get(caps, p), level)
  }

  /** What one provider standing at `level` takes of a share that is not limited by the remainder. */
  function Wants(caps: Amounts, level: int, share: int): string -> int {
    p => Min(Get(caps, p) - level, share)
  }

  function Demand(eligible: seq<string>, caps: Amounts, level: int, share: int): int {
    SumBy(eligible, Wants(caps, level, share))
  }

  // ----- One pass -----

  /** Nobody leaves its bounds, and providers outside the list keep what they have. */
  lemma {:induction false} PassRange(
    eligible: seq<string>, caps: Amounts, alloc: Amounts, level: int, share: int, remaining: int)
    requires Distinct(eligible)
    requires forall p :: p in eligible ==> Get(alloc, p) == level < Get(caps, p)
    requires share >= 1
    ensures var next := Pass(eligible, caps, alloc, share, remaining).0;
            && (forall q :: q !in eligible ==> Get(next, q) == Get(alloc, q))
            && (forall p :: p in eligible ==> level <= Get(next, p) <= Min(Get(caps, p), level + share))
  {
    if eligible == [] || remaining == 0 {
    } else {
      DistinctTail(eligible);
      var p := eligible[0];
      var add := Take(Get(caps, p) - Get(alloc, p), share, remaining);
      if add > 0 {
        PassRange(eligible[1..], caps, alloc[p := Get(alloc, p) + add], level, share, remaining - add);
      } else {
        PassRange(eligible[1..], caps, alloc, level, share, remaining);
      }
    }
  }

  /**
    When the remainder is at least one share per listed provider less `slack`: it never drops below the
    slack, and a provider that ends below both its cap and the new level misses it by at most the slack.
   */
  lemma {:induction false} PassShortfall(
    eligible: seq<string>, caps: Amounts, alloc: Amounts, level: int, share: int, remaining: int, slack: int)
    requires Distinct(eligible)
    requires forall p :: p in eligible ==> Get(alloc, p) == level < Get(caps, p)
    requires share >= 1 && slack >= 0
    requires remaining >= Portions(|eligible|, share) - slack
    ensures var (next, left) := Pass(eligible, caps, alloc, share, remaining);
            && (forall p :: p in eligible && Get(next, p) < Get(caps, p) ==> Get(next, p) >= level + share - slack)
            && left >= -slack
            && (remaining > 0 && left < 0 ==> left >= 1 - slack)
  {
    if eligible == [] {
    } else {
      DistinctTail(eligible);
      PortionsAtLeast(|eligible|, share);
      var p, rest := eligible[0], eligible[1..];
      if remaining != 0 {
        var add := Take(Get(caps, p) - Get(alloc, p), share, remaining);
        if add > 0 {
          var slack' := if remaining > 0 && Get(caps, p) - Get(alloc, p) < share && slack > 0 then slack - 1 else slack;
          var alloc' := alloc[p := Get(alloc, p) + add];
          PassShortfall(rest, caps, alloc', level, share, remaining - add, slack');
          PassFrame(rest, caps, alloc', share, remaining - add, p);
        } else {
          PassShortfall(rest, caps, alloc, level, share, remaining, slack);
          PassFrame(rest, caps, alloc, share, remaining, p);
        }
      }
    }
  }

  /** A pass only moves units from the remainder into the allocations. */
  lemma {:induction false} PassConserves(
    ids: seq<string>, eligible: seq<string>, caps: Amounts, alloc: Amounts, share: int, remaining: int)
    requires Distinct(ids) && (forall p :: p in eligible ==> p in ids)
    ensures var (next, left) := Pass(eligible, caps, alloc, share, remaining);
            SumBy(ids, At(next)) + left == SumBy(ids, At(alloc)) + remaining
  {
    if eligible == [] || remaining == 0 {
    } else {
      var p := eligible[0];
      var add := Take(Get(caps, p) - Get(alloc, p), share, remaining);
      if add > 0 {
        var alloc' := alloc[p := Get(alloc, p) + add];
        SumChange(ids, At(alloc), At(alloc'), p);
        PassConserves(ids, eligible[1..], caps, alloc', share, remaining - add);
      } else {
        PassConserves(ids, eligible[1..], caps, alloc, share, remaining);
      }
    }
  }

  /**
    The pass spills: it reaches a provider whose room is below the share but above what remains, and
    still fills it to its cap.
   */
  predicate SpillsAt(eligible: seq<string>, caps: Amounts, level: int, share: int, remaining: int, j: nat)
    requires j < |eligible|
  {
    var room := Get(caps, eligible[j]) - level;
    room < share && 0 < remaining - Demand(eligible[..j], caps, level, share) < room
  }

  predicate Spills(eligible: seq<string>, caps: Amounts, level: int, share: int, remaining: int) {
    exists j :: 0 <= j < |eligible| && SpillsAt(eligible, caps, level, share, remaining, j)
  }

  lemma SpillsHeadOrTail(eligible: seq<string>, caps: Amounts, level: int, share: int, remaining: int)
    requires eligible != []
    ensures var want := Wants(caps, level, share)(eligible[0]);
            Spills(eligible, caps, level, share, remaining) <==>
            || (Get(caps, eligible[0]) - level < share && 0 < remaining < Get(caps, eligible[0]) - level)
            || Spills(eligible[1..], caps, level, share, remaining - want)
  {
    var rest, want := eligible[1..], Wants(caps, level, share)(eligible[0]);
    assert eligible[..0] == [];
    assert SpillsAt(eligible, caps, level, share, remaining, 0) <==>
           Get(caps, eligible[0]) - level < share && 0 < remaining < Get(caps, eligible[0]) - level;
    if Spills(eligible, caps, level, share, remaining) && !SpillsAt(eligible, caps, level, share, remaining, 0) {
      var j :| 0 <= j < |eligible| && SpillsAt(eligible, caps, level, share, remaining, j);
      SpillShift(eligible, caps, level, share, remaining, j - 1);
    }
    if Spills(rest, caps, level, share, remaining - want) {
      var j :| 0 <= j < |rest| && SpillsAt(rest, caps, level, share, remaining - want, j);
      SpillShift(eligible, caps, level, share, remaining, j);
    }
  }

  lemma SpillShift(eligible: seq<string>, caps: Amounts, level: int, share: int, remaining: int, j: nat)
    requires j + 1 < |eligible|
    ensures var want := Wants(caps, level, share)(eligible[0]);
            SpillsAt(eligible[1..], caps, level, share, remaining - want, j) <==>
            SpillsAt(eligible, caps, level, share, remaining, j + 1)
  {
    assert eligible[..j + 1] == [eligible[0]] + eligible[1..][..j];
  }

  lemma NothingLeftNoSpill(eligible: seq<string>, caps: Amounts, level: int, share: int, remaining: int)
    requires remaining <= 0 && share >= 0
    requires forall p :: p in eligible ==> level < Get(caps, p)
    ensures !Spills(eligible, caps, level, share, remaining)
  {
    forall j | 0 <= j < |eligible| ensures !SpillsAt(eligible, caps, level, share, remaining, j) {
      SumNonNegative(eligible[..j], Wants(caps, level, share));
    }
  }

  /** With enough in hand everybody gets what it wants. */
  lemma {:induction false} PassSatisfies(
    eligible: seq<string>, caps: Amounts, alloc: Amounts, level: int, share: int, remaining: int)
    requires Distinct(eligible)
    requires forall p :: p in eligible ==> Get(alloc, p) == level < Get(caps, p)
    requires share >= 1 && Demand(eligible, caps, level, share) < remaining
    ensures var (next, left) := Pass(eligible, caps, alloc, share, remaining);
            && left == remaining - Demand(eligible, caps, level, share)
            && forall p :: p in eligible ==> Get(next, p) == Min(Get(caps, p), level + share)
  {
    if eligible != [] {
      var p, rest := eligible[0], eligible[1..];
      DistinctTail(eligible);
      SumNonNegative(rest, Wants(caps, level, share));
      var add := Min(Get(caps, p) - level, share);
      var alloc' := alloc[p := level + add];
      assert Take(Get(caps, p) - Get(alloc, p), share, remaining) == add;
      PassSatisfies(rest, caps, alloc', level, share, remaining - add);
      PassFrame(rest, caps, alloc', share, remaining - add, p);
    } else {
      assert Demand(eligible, caps, level, share) == 0;
    }
  }

  /** Otherwise the pass ends at or below zero, and strictly below exactly when it spills. */
  lemma {:induction false} PassExhausts(
    eligible: seq<string>, caps: Amounts, alloc: Amounts, level: int, share: int, remaining: int)
    requires Distinct(eligible)
    requires forall p :: p in eligible ==> Get(alloc, p) == level < Get(caps, p)
    requires share >= 1 && 0 < remaining <= Demand(eligible, caps, level, share)
    ensures var left := Pass(eligible, caps, alloc, share, remaining).1;
            left <= 0 && (left < 0 <==> Spills(eligible, caps, level, share, remaining))
  {
    var p, rest := eligible[0], eligible[1..];
    DistinctTail(eligible);
    SpillsHeadOrTail(eligible, caps, level, share, remaining);
    var want := Wants(caps, level, share)(p);
    var add := Take(Get(caps, p) - Get(alloc, p), share, remaining);
    var alloc' := alloc[p := Get(alloc, p) + add];
    if remaining - add > 0 {
      PassExhausts(rest, caps, alloc', level, share, remaining - add);
    } else {
      NothingLeftNoSpill(rest, caps, level, share, remaining - want);
      PassNeverAdds(rest, caps, alloc', share, remaining - add);
    }
  }

  lemma {:induction false} PassFrame(
    eligible: seq<string>, caps: Amounts, alloc: Amounts, share: int, remaining: int, q: string)
    requires q !in eligible
    ensures Get(Pass(eligible, caps, alloc, share, remaining).0, q) == Get(alloc, q)
  {
    if eligible == [] || remaining == 0 {
    } else {
      var p := eligible[0];
      var add := Take(Get(caps, p) - Get(alloc, p), share, remaining);
      if add > 0 {
        PassFrame(eligible[1..], caps, alloc[p := Get(alloc, p) + add], share, remaining - add, q);
      } else {
        PassFrame(eligible[1..], caps, alloc, share, remaining, q);
      }
    }
  }

  // ----- All passes -----

  /** The providers whose cap lies above a level; for providers standing at that level, the eligible ones. */
  function Above(ids: seq<string>, caps: Amounts, level: int): seq<string>
  {
    if ids == [] then []
    else (if level < Get(caps, ids[0]) then [ids[0]] else []) + Above(ids[1..], caps, level)
  }

  lemma {:induction false} AboveMembers(ids: seq<string>, caps: Amounts, level: int)
    ensures forall p :: p in Above(ids, caps, level) <==> p in ids && level < Get(caps, p)
  {
    if ids == [] {
    } else {
      AboveMembers(ids[1..], caps, level);
    }
  }

  lemma {:induction false} AboveDistinct(ids: seq<string>, caps: Amounts, level: int)
    requires Distinct(ids)
    ensures Distinct(Above(ids, caps, level))
  {
    if ids == [] {
    } else {
      DistinctTail(ids);
      AboveMembers(ids[1..], caps, level);
      AboveDistinct(ids[1..], caps, level);
    }
  }

  lemma {:induction false} EligibleIsAbove(ids: seq<string>, caps: Amounts, alloc: Amounts, level: int)
    requires AtLevel(ids, caps, alloc, level)
    ensures Eligible(ids, caps, alloc) == Above(ids, caps, level)
  {
    if ids == [] {
    } else {
      EligibleIsAbove(ids[1..], caps, alloc, level);
    }
  }

  /** How much is handed out when everybody stands at a level. */
  function Water(ids: seq<string>, caps: Amounts, level: int): int {
    SumBy(ids, StandingAt(caps, level))
  }

  function StandingAt(caps: Amounts, level: int): string -> int {
    p => Min(Get(caps, p), level)
  }

  lemma {:induction false} RaiseLevel(ids: seq<string>, caps: Amounts, level: int, share: int)
    requires share >= 0
    ensures Water(ids, caps, level + share)
      == Water(ids, caps, level) + Demand(Above(ids, caps, level), caps, level, share)
  {
    if ids == [] {
    } else {
      var rest := Above(ids[1..], caps, level);
      RaiseLevel(ids[1..], caps, level, share);
      if level < Get(caps, ids[0]) { assert Above(ids, caps, level)[1..] == rest; }
      else { assert Above(ids, caps, level) == rest; }
    }
  }

  lemma {:induction false} DemandAtLeastCount(eligible: seq<string>, caps: Amounts, level: int, share: int)
    requires (forall p :: p in eligible ==> level < Get(caps, p)) && share >= 1
    ensures Demand(eligible, caps, level, share) >= |eligible|
  {
    if eligible == [] {
    } else {
      DemandAtLeastCount(eligible[1..], caps, level, share);
    }
  }

  lemma {:induction false} DemandWhenRoomy(eligible: seq<string>, caps: Amounts, level: int, share: int)
    requires (forall p :: p in eligible ==> level + share <= Get(caps, p))
    ensures Demand(eligible, caps, level, share) == Portions(|eligible|, share)
  {
    if eligible == [] {
    } else {
      DemandWhenRoomy(eligible[1..], caps, level, share);
    }
  }

  /** A level raised past some cap leaves fewer providers above it. */
  lemma {:induction false} AboveShrinks(ids: seq<string>, caps: Amounts, low: int, high: int, p: string)
    requires p in ids && low < Get(caps, p) <= high
    ensures |Above(ids, caps, high)| < |Above(ids, caps, low)|
  {
    AboveMonotone(ids[1..], caps, low, high);
    if ids[0] == p {
    } else {
      AboveShrinks(ids[1..], caps, low, high, p);
    }
  }

  lemma {:induction false} AboveMonotone(ids: seq<string>, caps: Amounts, low: int, high: int)
    requires low <= high
    ensures |Above(ids, caps, high)| <= |Above(ids, caps, low)|
  {
    if ids == [] {
    } else {
      AboveMonotone(ids[1..], caps, low, high);
    }
  }

  /**
    The task is overfilled when the last pass spills. It needs nothing but the inputs: starting from a
    level, raise it by the share while the budget lasts, and look at the pass in which it gives out.
   */
  predicate Overfills(ids: seq<string>, caps: Amounts, budget: int, level: int)
    decreases budget - Water(ids, caps, level)
  {
    var eligible := Above(ids, caps, level);
    var remaining := budget - Water(ids, caps, level);
    AboveMembers(ids, caps, level);
    remaining > 0 && eligible != [] &&
    var share := CeilDiv(remaining, |eligible|);
    CeilDivBounds(remaining, |eligible|);
    DemandAtLeastCount(eligible, caps, level, share);
    RaiseLevel(ids, caps, level, share);
    if Demand(eligible, caps, level, share) < remaining then Overfills(ids, caps, budget, level + share)
    else Spills(eligible, caps, level, share, remaining)
  }

  ghost predicate Bounded(ids: seq<string>, caps: Amounts, final: Amounts, level: int) {
    forall p :: p in ids ==> Min(Get(caps, p), level) <= Get(final, p) <= Get(caps, p)
  }

  /** Whoever ends below its cap is at most `gap` behind anybody else. */
  ghost predicate NearlyFair(ids: seq<string>, caps: Amounts, final: Amounts, gap: int) {
    forall p, q :: p in ids && q in ids && Get(final, p) < Get(caps, p) ==> Get(final, q) - Get(final, p) <= gap
  }

  lemma AtLevelSum(ids: seq<string>, caps: Amounts, alloc: Amounts, level: int)
    requires AtLevel(ids, caps, alloc, level)
    ensures SumBy(ids, At(alloc)) == Water(ids, caps, level)
  {
    SumExt(ids, At(alloc), StandingAt(caps, level));
  }

  /** When the wants fall short of the remainder, some cap lies below the next level. */
  lemma SomeCapReached(eligible: seq<string>, caps: Amounts, level: int, share: int, remaining: int) returns (p: string)
    requires Demand(eligible, caps, level, share) < remaining <= Portions(|eligible|, share)
    ensures p in eligible && Get(caps, p) < level + share
  {
    if forall q :: q in eligible ==> level + share <= Get(caps, q) { DemandWhenRoomy(eligible, caps, level, share); }
    p :| p in eligible && Get(caps, p) < level + share;
  }

  /** A pass that leaves something over raises everybody to the next level. */
  lemma UnfinishedPass(ids: seq<string>, caps: Amounts, alloc: Amounts, level: int, share: int, remaining: int)
    requires Distinct(ids) && AtLevel(ids, caps, alloc, level) && share >= 1 && remaining > 0
    requires Pass(Above(ids, caps, level), caps, alloc, share, remaining).1 > 0
    ensures Demand(Above(ids, caps, level), caps, level, share) < remaining
    ensures AtLevel(ids, caps, Pass(Above(ids, caps, level), caps, alloc, share, remaining).0, level + share)
  {
    var eligible := Above(ids, caps, level);
    AboveDistinct(ids, caps, level);
    AboveMembers(ids, caps, level);
    if Demand(eligible, caps, level, share) >= remaining {
      PassExhausts(eligible, caps, alloc, level, share, remaining);
    }
    PassSatisfies(eligible, caps, alloc, level, share, remaining);
    var next := Pass(eligible, caps, alloc, share, remaining).0;
    forall p | p in ids ensures Get(next, p) == Min(Get(caps, p), level + share) {
      if p !in eligible { PassFrame(eligible, caps, alloc, share, remaining, p); }
    }
  }

  /** ... and it fills some cap, so fewer providers are left above the new level. */
  lemma UnfinishedFills(ids: seq<string>, caps: Amounts, level: int, share: int, remaining: int)
    requires Demand(Above(ids, caps, level), caps, level, share) < remaining
    requires remaining <= Portions(|Above(ids, caps, level)|, share)
    ensures |Above(ids, caps, level + share)| < |Above(ids, caps, level)|
  {
    AboveMembers(ids, caps, level);
    var reached := SomeCapReached(Above(ids, caps, level), caps, level, share, remaining);
    AboveShrinks(ids, caps, level, level + share, reached);
  }

  /** The last pass overshoots exactly when it spills, by at most two less than the number of providers. */
  lemma LastPass(ids: seq<string>, caps: Amounts, alloc: Amounts, level: int, share: int, remaining: int)
    requires Distinct(ids) && AtLevel(ids, caps, alloc, level) && remaining > 0
    requires Above(ids, caps, level) != [] && share == CeilDiv(remaining, |Above(ids, caps, level)|)
    requires Pass(Above(ids, caps, level), caps, alloc, share, remaining).1 <= 0
    ensures var left := Pass(Above(ids, caps, level), caps, alloc, share, remaining).1;
            && Demand(Above(ids, caps, level), caps, level, share) >= remaining
            && left >= -Max(0, |Above(ids, caps, level)| - 2)
            && (left < 0 <==> Spills(Above(ids, caps, level), caps, level, share, remaining))
  {
    var eligible := Above(ids, caps, level);
    AboveDistinct(ids, caps, level);
    AboveMembers(ids, caps, level);
    CeilDivBounds(remaining, |eligible|);
    if Demand(eligible, caps, level, share) < remaining {
      PassSatisfies(eligible, caps, alloc, level, share, remaining);
    }
    PassExhausts(eligible, caps, alloc, level, share, remaining);
    PassShortfall(eligible, caps, alloc, level, share, remaining, |eligible| - 1);
  }

  /** Any pass keeps everybody within bounds and nearly level. */
  lemma PassIsFair(ids: seq<string>, caps: Amounts, alloc: Amounts, level: int, share: int, remaining: int)
    requires Distinct(ids) && AtLevel(ids, caps, alloc, level) && remaining > 0
    requires Above(ids, caps, level) != [] && share == CeilDiv(remaining, |Above(ids, caps, level)|)
    ensures var next := Pass(Above(ids, caps, level), caps, alloc, share, remaining).0;
            Bounded(ids, caps, next, level) && NearlyFair(ids, caps, next, |Above(ids, caps, level)| - 1)
  {
    var eligible := Above(ids, caps, level);
    AboveDistinct(ids, caps, level);
    AboveMembers(ids, caps, level);
    CeilDivBounds(remaining, |eligible|);
    PassRange(eligible, caps, alloc, level, share, remaining);
    PassShortfall(eligible, caps, alloc, level, share, remaining, |eligible| - 1);
  }

  lemma {:induction false} AboveShorter(ids: seq<string>, caps: Amounts, level: int)
    ensures |Above(ids, caps, level)| <= |ids|
  {
    if ids == [] {
    } else {
      AboveShorter(ids[1..], caps, level);
    }
  }

  /** What holds of the final allocations, given the level they were reached from. */
  ghost predicate WellFilled(ids: seq<string>, caps: Amounts, final: Amounts, budget: int,
                             level: int, overfilled: bool) {
    && budget <= SumBy(ids, At(final)) <= budget + Max(0, |ids| - 2)
    && (SumBy(ids, At(final)) > budget <==> overfilled)
    && Bounded(ids, caps, final, level)
    && NearlyFair(ids, caps, final, Max(0, |ids| - 1))
  }

  /** With nothing to hand out, or everybody at its cap, the common level is the result. */
  lemma RestingLevel(ids: seq<string>, caps: Amounts, alloc: Amounts, level: int, budget: int)
    requires AtLevel(ids, caps, alloc, level) && budget >= Water(ids, caps, level)
    requires budget == Water(ids, caps, level) || (Above(ids, caps, level) == [] && budget <= SumBy(ids, At(caps)))
    ensures WellFilled(ids, caps, alloc, budget, level, false)
    ensures budget == Water(ids, caps, level)
  {
    AtLevelSum(ids, caps, alloc, level);
    AboveMembers(ids, caps, level);
    if Above(ids, caps, level) == [] {
      forall p | p in ids ensures At(caps)(p) == StandingAt(caps, level)(p) {
        assert p !in Above(ids, caps, level);
      }
      SumExt(ids, At(caps), StandingAt(caps, level));
    }
  }

  lemma OverfillsLater(ids: seq<string>, caps: Amounts, budget: int, level: int, share: int)
    requires 0 < budget - Water(ids, caps, level)
    requires Above(ids, caps, level) != []
    requires share == CeilDiv(budget - Water(ids, caps, level), |Above(ids, caps, level)|)
    requires Demand(Above(ids, caps, level), caps, level, share) < budget - Water(ids, caps, level)
    ensures Overfills(ids, caps, budget, level) == Overfills(ids, caps, budget, level + share)
  {
  }

  lemma OverfillsNow(ids: seq<string>, caps: Amounts, budget: int, level: int, share: int)
    requires 0 < budget - Water(ids, caps, level)
    requires Above(ids, caps, level) != []
    requires share == CeilDiv(budget - Water(ids, caps, level), |Above(ids, caps, level)|)
    requires Demand(Above(ids, caps, level), caps, level, share) >= budget - Water(ids, caps, level)
    ensures Overfills(ids, caps, budget, level)
            == Spills(Above(ids, caps, level), caps, level, share, budget - Water(ids, caps, level))
  {
  }

  lemma RoundsStep(ids: seq<string>, caps: Amounts, alloc: Amounts, level: int, remaining: int)
    requires AtLevel(ids, caps, alloc, level) && remaining > 0 && Above(ids, caps, level) != []
    ensures var eligible := Above(ids, caps, level);
            var (next, left) := Pass(eligible, caps, alloc, CeilDiv(remaining, |eligible|), remaining);
            && left < remaining
            && Rounds(ids, caps, alloc, remaining).0 == Rounds(ids, caps, next, left).0
            && Rounds(ids, caps, alloc, remaining).1 == Rounds(ids, caps, next, left).1 + 1
            && (left <= 0 ==> Rounds(ids, caps, next, left) == (next, 0))
  {
    EligibleIsAbove(ids, caps, alloc, level);
    PassProgresses(ids, caps, alloc, remaining);
  }

  lemma UnfinishedRound(
    ids: seq<string>, caps: Amounts, alloc: Amounts, level: int, share: int, remaining: int, budget: int)
    requires Distinct(ids) && AtLevel(ids, caps, alloc, level)
    requires 0 < remaining == budget - Water(ids, caps, level)
    requires Above(ids, caps, level) != [] && share == CeilDiv(remaining, |Above(ids, caps, level)|)
    requires Pass(Above(ids, caps, level), caps, alloc, share, remaining).1 > 0
    ensures var (next, left) := Pass(Above(ids, caps, level), caps, alloc, share, remaining);
            && AtLevel(ids, caps, next, level + share)
            && left == budget - Water(ids, caps, level + share)
            && Demand(Above(ids, caps, level), caps, level, share) < remaining
            && |Above(ids, caps, level + share)| < |Above(ids, caps, level)|
  {
    var eligible := Above(ids, caps, level);
    AboveMembers(ids, caps, level);
    CeilDivBounds(remaining, |eligible|);
    UnfinishedPass(ids, caps, alloc, level, share, remaining);
    UnfinishedFills(ids, caps, level, share, remaining);
    PassConserves(ids, eligible, caps, alloc, share, remaining);
    AtLevelSum(ids, caps, alloc, level);
    AtLevelSum(ids, caps, Pass(eligible, caps, alloc, share, remaining).0, level + share);
  }

  lemma FinishedRound(
    ids: seq<string>, caps: Amounts, alloc: Amounts, level: int, share: int, remaining: int, budget: int)
    requires Distinct(ids) && AtLevel(ids, caps, alloc, level)
    requires 0 < remaining == budget - Water(ids, caps, level)
    requires Above(ids, caps, level) != [] && share == CeilDiv(remaining, |Above(ids, caps, level)|)
    requires Pass(Above(ids, caps, level), caps, alloc, share, remaining).1 <= 0
    ensures WellFilled(ids, caps, Pass(Above(ids, caps, level), caps, alloc, share, remaining).0, budget, level,
                       Overfills(ids, caps, budget, level))
  {
    var eligible := Above(ids, caps, level);
    AboveMembers(ids, caps, level);
    LastPass(ids, caps, alloc, level, share, remaining);
    PassIsFair(ids, caps, alloc, level, share, remaining);
    PassConserves(ids, eligible, caps, alloc, share, remaining);
    AtLevelSum(ids, caps, alloc, level);
    AboveShorter(ids, caps, level);
    OverfillsNow(ids, caps, budget, level, share);
  }

  lemma RestingOverfills(ids: seq<string>, caps: Amounts, budget: int, level: int)
    requires budget <= Water(ids, caps, level)
    ensures !Overfills(ids, caps, budget, level)
  {
  }

  lemma LowerLevel(ids: seq<string>, caps: Amounts, final: Amounts, budget: int, low: int, high: int, over: bool)
    requires low <= high && WellFilled(ids, caps, final, budget, high, over)
    ensures WellFilled(ids, caps, final, budget, low, over)
  {
  }

  /** All passes together, from any common level. */
  lemma {:induction false} RoundsSound(
    ids: seq<string>, caps: Amounts, alloc: Amounts, level: int, remaining: int, budget: int)
    requires Distinct(ids) && AtLevel(ids, caps, alloc, level)
    requires remaining == budget - Water(ids, caps, level) >= 0
    requires budget <= SumBy(ids, At(caps))
    ensures WellFilled(ids, caps, Rounds(ids, caps, alloc, remaining).0, budget, level,
                       Overfills(ids, caps, budget, level))
    decreases remaining
  {
    if remaining == 0 || Above(ids, caps, level) == [] {
      RestingLevel(ids, caps, alloc, level, budget);
      RestingOverfills(ids, caps, budget, level);
    } else {
      var share := CeilDiv(remaining, |Above(ids, caps, level)|);
      var (next, left) := Pass(Above(ids, caps, level), caps, alloc, share, remaining);
      RoundsStep(ids, caps, alloc, level, remaining);
      if left > 0 {
        UnfinishedRound(ids, caps, alloc, level, share, remaining, budget);
        OverfillsLater(ids, caps, budget, level, share);
        RoundsSound(ids, caps, next, level + share, left, budget);
        LowerLevel(ids, caps, Rounds(ids, caps, next, left).0, budget, level, level + share,
                   Overfills(ids, caps, budget, level));
      } else {
        FinishedRound(ids, caps, alloc, level, share, remaining, budget);
      }
    }
  }

  /** Every unfinished pass fills a cap, so there are at most as many passes as providers above the level. */
  lemma {:induction false} RoundsCount(
    ids: seq<string>, caps: Amounts, alloc: Amounts, level: int, remaining: int, budget: int)
    requires Distinct(ids) && AtLevel(ids, caps, alloc, level)
    requires remaining == budget - Water(ids, caps, level) >= 0
    requires budget <= SumBy(ids, At(caps))
    ensures Rounds(ids, caps, alloc, remaining).1 <= |Above(ids, caps, level)|
    decreases remaining
  {
    EligibleIsAbove(ids, caps, alloc, level);
    if remaining <= 0 || Above(ids, caps, level) == [] {
    } else {
      var share := CeilDiv(remaining, |Above(ids, caps, level)|);
      var (next, left) := Pass(Above(ids, caps, level), caps, alloc, share, remaining);
      RoundsStep(ids, caps, alloc, level, remaining);
      if left > 0 {
        UnfinishedRound(ids, caps, alloc, level, share, remaining, budget);
        RoundsCount(ids, caps, next, level + share, left, budget);
      }
    }
  }
}
