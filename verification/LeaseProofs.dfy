/** Mutual exclusion, replay and expiry in every run of the lease protocol. */
module LeaseProofs {
  import opened Basics
  import opened SecurityTables
  import opened LeaseProtocol

  /** The record a live holder relies on: its own claim, not expiring and not reclaimable before the lease ends. */
  predicate Backed(s: System, id: nat)
    requires HoldsLease(s, id)
  {
    var Caller(r, phase) := s.callers[id];
    && r.identity in s.records
    && s.records[r.identity].requestHash == r.requestHash
    && s.records[r.identity].expiresAt >= phase.leaseEnd
    && (s.records[r.identity].response.None? ==> s.records[r.identity].leaseExpiresAt >= phase.leaseEnd)
  }

  ghost predicate LeasesShort(s: System) {
    forall id :: id in s.callers && s.callers[id].phase.Leased() ==>
      s.callers[id].phase.leaseEnd <= s.now + 300 * SECOND
  }

  ghost predicate LeasesBacked(s: System) {
    forall id :: HoldsLease(s, id) ==> Backed(s, id)
  }

  ghost predicate LeasesExclusive(s: System) {
    forall a, b :: HoldsLease(s, a) && HoldsLease(s, b) && a != b
      ==> s.callers[a].request.identity != s.callers[b].request.identity
  }

  ghost predicate LeaseInvariant(s: System) {
    LeasesShort(s) && LeasesBacked(s) && LeasesExclusive(s)
  }

  /** A step in which no caller gains a lease, and every live lease stays backed. */
  lemma NoNewLease(s: System, s': System)
    requires LeaseInvariant(s) && s.now <= s'.now
    requires forall id :: id in s'.callers && s'.callers[id].phase.Leased() ==>
               && id in s.callers && s.callers[id].phase.Leased()
               && s'.callers[id].request == s.callers[id].request
               && s'.callers[id].phase.leaseEnd == s.callers[id].phase.leaseEnd
    requires forall id :: HoldsLease(s, id) && HoldsLease(s', id) && Backed(s, id) ==> Backed(s', id)
    ensures LeaseInvariant(s')
  {
    forall id | HoldsLease(s', id) ensures HoldsLease(s, id) && Backed(s', id) {
      assert HoldsLease(s, id) && Backed(s, id);
    }
  }

  /** A step in which one caller gains a lease on an identity nobody else holds. */
  lemma OneNewLease(s: System, s': System, id: nat)
    requires LeaseInvariant(s) && s.now == s'.now && id in s.callers && !s.callers[id].phase.Leased()
    requires s'.callers == s.callers[id := Caller(s.callers[id].request,
      Acquired(LeaseEnd(s.callers[id].request, s.now)))]
    requires Backed(s', id)
    requires forall k :: k != s.callers[id].request.identity && k in s.records ==>
      k in s'.records && s'.records[k] == s.records[k]
    requires forall other :: HoldsLease(s, other) ==>
      s.callers[other].request.identity != s.callers[id].request.identity
    ensures LeaseInvariant(s')
  {
    forall other | HoldsLease(s', other) && other != id ensures HoldsLease(s, other) && Backed(s', other) {
      assert HoldsLease(s, other) && Backed(s, other);
    }
  }

  lemma AdvanceBegin(s: System, id: nat, reply: Response)
    requires LeaseInvariant(s) && id in s.callers && !s.callers[id].phase.Leased()
    ensures LeaseInvariant(Advance(s, id, reply))
  {
    var Caller(r, phase) := s.callers[id];
    var s' := Advance(s, id, reply);
    if phase.Inserting? && r.identity !in s.records {
      forall other | HoldsLease(s, other) ensures s.callers[other].request.identity != r.identity {
        assert Backed(s, other);
      }
      OneNewLease(s, s', id);
    } else if phase.Reclaiming? && Reclaimable(s.records, r.identity, r.requestHash, s.now) {
      forall other | HoldsLease(s, other) ensures s.callers[other].request.identity != r.identity {
        assert Backed(s, other);
      }
      OneNewLease(s, s', id);
    } else {
      NoNewLease(s, s');
    }
  }

  lemma AdvanceLeased(s: System, id: nat, reply: Response)
    requires LeaseInvariant(s) && id in s.callers && s.callers[id].phase.Leased()
    requires s.callers[id].phase.LockDenied? ==> !RemovesLiveClaim(s, id)
    ensures LeaseInvariant(Advance(s, id, reply))
  {
    var s' := Advance(s, id, reply);
    forall other | HoldsLease(s, other) && HoldsLease(s', other) && Backed(s, other) ensures Backed(s', other) {
    }
    NoNewLease(s, s');
  }

  lemma LeaseStep(s: System, e: Event)
    requires LeaseInvariant(s) && SafeAbandon(s, e)
    ensures LeaseInvariant(Step(s, e))
  {
    match e
    case Run(id, reply) =>
      if id in s.callers {
        if s.callers[id].phase.Leased() { AdvanceLeased(s, id, reply); } else { AdvanceBegin(s, id, reply); }
      }
    case Tick(_) => NoNewLease(s, Step(s, e));
    case Arrive(_, _) => NoNewLease(s, Step(s, e));
    case CompletionFails(_, _) =>
      forall other | HoldsLease(s, other) && Backed(s, other) ensures Backed(Step(s, e), other) {
      }
      NoNewLease(s, Step(s, e));
    case Die(_) => NoNewLease(s, Step(s, e));
  }

  /** While leases are exclusive, a caller that still holds its lease abandons nobody else's claim. */
  lemma PromptAbandonIsSafe(s: System, e: Event)
    requires LeaseInvariant(s) && PromptAbandon(s, e)
    ensures SafeAbandon(s, e)
  {
    if e.Run? && e.id in s.callers && s.callers[e.id].phase.LockDenied? { assert HoldsLease(s, e.id); }
  }

  lemma AlwaysFront(s: System, events: seq<Event>, good: (System, Event) -> bool)
    requires Always(s, events, good) && events != []
    ensures Always(s, events[..|events| - 1], good)
    ensures good(Play(s, events[..|events| - 1]), events[|events| - 1])
  {
    var front := events[..|events| - 1];
    forall i | 0 <= i < |front| ensures good(Play(s, front[..i]), front[i]) {
      assert front[..i] == events[..i];
    }
  }

  lemma AlwaysSnoc(s: System, events: seq<Event>, e: Event, good: (System, Event) -> bool)
    requires Always(s, events, good) && good(Play(s, events), e)
    ensures Always(s, events + [e], good)
  {
    var all := events + [e];
    forall i | 0 <= i < |all| ensures good(Play(s, all[..i]), all[i]) {
      assert all[..i] == events[..i];
      assert events[..|events|] == events;
    }
  }

  lemma {:induction false} LeaseRun(s: System, events: seq<Event>)
    requires LeaseInvariant(s) && Always(s, events, SafeAbandon)
    ensures LeaseInvariant(Play(s, events))
  {
    if events == [] {
    } else {
      AlwaysFront(s, events, SafeAbandon);
      LeaseRun(s, events[..|events| - 1]);
      LeaseStep(Play(s, events[..|events| - 1]), events[|events| - 1]);
    }
  }

  /** Runs whose abandons come in time are among those whose abandons are safe. */
  lemma {:induction false} PromptRunsAreSafe(s: System, events: seq<Event>)
    requires LeaseInvariant(s) && Always(s, events, PromptAbandon)
    ensures Always(s, events, SafeAbandon)
  {
    if events == [] {
    } else {
      var front, e := events[..|events| - 1], events[|events| - 1];
      AlwaysFront(s, events, PromptAbandon);
      PromptRunsAreSafe(s, front);
      LeaseRun(s, front);
      PromptAbandonIsSafe(Play(s, front), e);
      AlwaysSnoc(s, front, e, SafeAbandon);
      assert events == front + [e];
    }
  }

  /**
    In every run in which no abandon removes another live holder's claim, no two callers hold a live lease on
    the same owner, operation and key, and the expiry sweep leaves every live lease's record alone. Completions
    may come late, and so may abandons that are safe.
   */
  lemma LeasesAreExclusive(now: int, events: seq<Event>, a: nat, b: nat)
    requires Always(Start(now), events, SafeAbandon)
    ensures var s := Play(Start(now), events);
            && (HoldsLease(s, a) && HoldsLease(s, b) && a != b ==>
                  s.callers[a].request.identity != s.callers[b].request.identity)
            && (HoldsLease(s, a) ==>
                  var k := s.callers[a].request.identity;
                  k in Swept(s.records, s.now) && Swept(s.records, s.now)[k] == s.records[k])
  {
    LeaseRun(Start(now), events);
    var s := Play(Start(now), events);
    if HoldsLease(s, a) { assert Backed(s, a); }
  }

  // ----- Which abandons are safe -----

  /**
    From any state of a run, the abandon of one caller that removes the record another live holder relies on lets
    the next caller with that identity acquire a second live lease.
   */
  lemma LateAbandonBreaksExclusion(s: System, late: nat, holder: nat, newcomer: nat, request: Request, reply: Response)
    requires LeaseInvariant(s) && HoldsLease(s, holder) && late != holder
    requires late in s.callers && s.callers[late].phase.LockDenied?
    requires s.callers[late].request.identity == s.callers[holder].request.identity == request.identity
    requires OpenFor(s.records, request.identity, s.callers[late].request.requestHash)
    requires newcomer !in s.callers
    ensures !PromptAbandon(s, Run(late, reply)) && !SafeAbandon(s, Run(late, reply))
    ensures var s' := Play(Step(s, Run(late, reply)), Claiming(newcomer, request, reply));
            HoldsLease(s', holder) && HoldsLease(s', newcomer) && !LeasesExclusive(s')
  {
    assert RemovesLiveClaim(s, late);
    if PromptAbandon(s, Run(late, reply)) { PromptAbandonIsSafe(s, Run(late, reply)); }
    var s1 := Step(s, Run(late, reply));
    Claims(s1, newcomer, request, reply);
    var s' := Play(s1, Claiming(newcomer, request, reply));
    assert HoldsLease(s', holder) && HoldsLease(s', newcomer);
  }

  /** Arrival, sweep and insert. */
  function Claiming(id: nat, r: Request, reply: Response): seq<Event> {
    [Arrive(id, r), Run(id, reply), Run(id, reply)]
  }

  /** A newcomer whose identity has no record, or an expired one, acquires the lease. */
  lemma Claims(s: System, id: nat, r: Request, reply: Response)
    requires id !in s.callers && r.identity !in Swept(s.records, s.now)
    ensures Play(s, Claiming(id, r, reply)) == System(
      s.now,
      Claimed(Swept(s.records, s.now), r.identity, r.requestHash, r.leaseSeconds, r.ttlSeconds, s.now),
      s.locks,
      s.callers[id := Caller(r, Acquired(LeaseEnd(r, s.now)))])
  {
    PlayThree(s, Arrive(id, r), Run(id, reply), Run(id, reply));
    var s1 := Step(s, Arrive(id, r));
    var s2 := Step(s1, Run(id, reply));
    assert s2.callers == s.callers[id := Caller(r, Inserting)];
    var s3 := Step(s2, Run(id, reply));
    assert s3.callers == s.callers[id := Caller(r, Acquired(LeaseEnd(r, s.now)))];
  }

  /** Whatever happens from here on, as long as further abandons are prompt, leases stay exclusive. */
  ghost predicate ExclusiveForever(s: System) {
    forall events :: Always(s, events, PromptAbandon) ==> LeasesExclusive(Play(s, events))
  }

  lemma InvariantLasts(s: System)
    requires LeaseInvariant(s)
    ensures ExclusiveForever(s)
  {
    forall events | Always(s, events, PromptAbandon) ensures LeasesExclusive(Play(s, events)) {
      PromptRunsAreSafe(s, events);
      LeaseRun(s, events);
    }
  }

  /**
    An abandon, late or not, leaves exclusion intact in every continuation if and only if it does not remove the
    open claim another live holder relies on.
   */
  lemma AbandonIsSafeExactly(s: System, id: nat, reply: Response)
    requires LeaseInvariant(s) && id in s.callers && s.callers[id].phase.LockDenied?
    ensures ExclusiveForever(Step(s, Run(id, reply))) <==> !RemovesLiveClaim(s, id)
  {
    var s' := Step(s, Run(id, reply));
    if RemovesLiveClaim(s, id) {
      var r := s.callers[id].request;
      var holder :| holder in s.callers && holder != id && HoldsLease(s, holder)
                    && s.callers[holder].request.identity == r.identity;
      var newcomer := FreshId(s.callers.Keys);
      LateAbandonBreaksExclusion(s, id, holder, newcomer, r, reply);
      ClaimingIsPrompt(s', newcomer, r, reply);
    } else {
      LeaseStep(s, Run(id, reply));
      InvariantLasts(s');
    }
  }

  /** The statements of a caller that has no lease: they neither abandon, nor lock, nor complete, nor release. */
  predicate Unleased(s: System, e: Event) {
    !e.CompletionFails? && (e.Run? && e.id in s.callers ==> !s.callers[e.id].phase.Leased())
  }

  lemma ClaimingIsUnleased(s: System, id: nat, r: Request, reply: Response)
    requires id !in s.callers
    ensures Always(s, Claiming(id, r, reply), Unleased)
  {
    NewcomerIsUnleased(s, id, r, reply);
    AlwaysThree(s, Arrive(id, r), Run(id, reply), Run(id, reply), Unleased);
  }

  lemma NewcomerIsUnleased(s: System, id: nat, r: Request, reply: Response)
    requires id !in s.callers
    ensures var s1 := Step(s, Arrive(id, r));
      Unleased(s, Arrive(id, r)) && Unleased(s1, Run(id, reply)) && Unleased(Step(s1, Run(id, reply)), Run(id, reply))
  {
  }

  lemma AlwaysThree(s: System, a: Event, b: Event, c: Event, good: (System, Event) -> bool)
    requires good(s, a) && good(Step(s, a), b) && good(Step(Step(s, a), b), c)
    ensures Always(s, [a, b, c], good)
  {
    AlwaysSnoc(s, [], a, good);
    PlaySnoc(s, [], a);
    assert [] + [a] == [a];
    AlwaysSnoc(s, [a], b, good);
    PlaySnoc(s, [a], b);
    AlwaysSnoc(s, [a] + [b], c, good);
    assert [a] + [b] + [c] == [a, b, c];
  }

  /** A stronger requirement on every step is a requirement on every step. */
  lemma AlwaysWeaker(s: System, events: seq<Event>, good: (System, Event) -> bool, fair: (System, Event) -> bool)
    requires Always(s, events, good)
    requires forall i :: 0 <= i < |events| && good(Play(s, events[..i]), events[i]) ==>
      fair(Play(s, events[..i]), events[i])
    ensures Always(s, events, fair)
  {
    forall i | 0 <= i < |events| ensures fair(Play(s, events[..i]), events[i]) {
      assert good(Play(s, events[..i]), events[i]);
    }
  }

  lemma ClaimingIsPrompt(s: System, id: nat, r: Request, reply: Response)
    requires id !in s.callers
    ensures Always(s, Claiming(id, r, reply), PromptAbandon)
  {
    ClaimingIsUnleased(s, id, r, reply);
    AlwaysWeaker(s, Claiming(id, r, reply), Unleased, PromptAbandon);
  }

  lemma UnleasedRun(s: System, events: seq<Event>)
    requires LeaseInvariant(s) && Always(s, events, Unleased)
    ensures LeaseInvariant(Play(s, events))
  {
    AlwaysWeaker(s, events, Unleased, SafeAbandon);
    LeaseRun(s, events);
  }

  lemma FreshId(ids: set<nat>) returns (n: nat)
    ensures n !in ids && forall i :: i in ids ==> i < n
  {
    if ids == {} {
      n := 0;
    } else {
      var i :| i in ids;
      var m := FreshId(ids - {i});
      n := Max(m, i + 1);
      assert forall j :: j in ids ==> j == i || j in ids - {i};
    }
  }

  // ----- Playing events -----

  lemma PlaySnoc(s: System, events: seq<Event>, e: Event)
    ensures Play(s, events + [e]) == Step(Play(s, events), e)
  {
    assert (events + [e])[..|events|] == events;
  }

  lemma {:induction false} PlayConcat(s: System, before: seq<Event>, after: seq<Event>)
    ensures Play(s, before + after) == Play(Play(s, before), after)
  {
    if after == [] {
      assert before + after == before;
    } else {
      PlayConcat(s, before, after[..|after| - 1]);
      assert (before + after)[..|before + after| - 1] == before + after[..|after| - 1];
    }
  }

  lemma PlayTwo(s: System, a: Event, b: Event)
    ensures Play(s, [a, b]) == Step(Step(s, a), b)
  {
    PlaySnoc(s, [], a);
    PlaySnoc(s, [a], b);
    assert [] + [a] == [a] && [a] + [b] == [a, b];
  }

  lemma PlayThree(s: System, a: Event, b: Event, c: Event)
    ensures Play(s, [a, b, c]) == Step(Step(Step(s, a), b), c)
  {
    PlayTwo(s, a, b);
    PlaySnoc(s, [a, b], c);
    assert [a, b] + [c] == [a, b, c];
  }

  // ----- Completed records -----

  /** A completed record is never changed; it can only be swept once it has expired. */
  lemma StepKeepsCompleted(s: System, e: Event, k: Identity)
    requires k in s.records && s.records[k].response.Some?
    ensures var s' := Step(s, e);
            if k in s'.records then s'.records[k] == s.records[k] else s.records[k].expiresAt < s.now
  {
  }

  lemma {:induction false} TimeMovesForward(s: System, events: seq<Event>)
    ensures Play(s, events).now >= s.now
  {
    if events == [] {
    } else {
      TimeMovesForward(s, events[..|events| - 1]);
    }
  }

  lemma {:induction false} CompletedRecordStays(s: System, events: seq<Event>, k: Identity)
    requires k in s.records && s.records[k].response.Some?
    requires Play(s, events).now <= s.records[k].expiresAt
    ensures k in Play(s, events).records && Play(s, events).records[k] == s.records[k]
  {
    if events == [] {
    } else {
      var front := events[..|events| - 1];
      TimeMovesForward(s, front);
      assert Play(s, front).now <= Play(s, events).now;
      CompletedRecordStays(s, front, k);
      StepKeepsCompleted(Play(s, front), events[|events| - 1], k);
    }
  }

  /**
    Until a completed record expires, in any run whatever, every caller that looks it up with the same
    request gets exactly its response, and with a different request a conflict.
   */
  lemma ReplaysAreExact(s: System, events: seq<Event>, k: Identity, id: nat, reply: Response)
    requires k in s.records && s.records[k].response.Some?
    requires Play(s, events).now <= s.records[k].expiresAt
    requires var mid := Play(s, events);
             id in mid.callers && mid.callers[id].phase.Selecting? && mid.callers[id].request.identity == k
    ensures var mid := Play(s, events);
            Step(mid, Run(id, reply)).callers[id].phase ==
            Done(if mid.callers[id].request.requestHash == s.records[k].requestHash
                 then Replayed(s.records[k].response.value) else Conflict)
  {
    CompletedRecordStays(s, events, k);
  }
}
