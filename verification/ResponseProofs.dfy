/** Which responses are recorded, and what later callers are given. */
module ResponseProofs {
  import opened Basics
  import opened SecurityTables
  import opened LeaseProtocol
  import opened LeaseProofs

  /** The completing statement: the caller returns its response whether or not the claim is still open. */
  lemma CompletingStep(s: System, id: nat, reply: Response)
    requires id in s.callers && s.callers[id].phase.Completing?
    ensures var Caller(r, Completing(leaseEnd, lockEnd, response)) := s.callers[id];
      var s' := Step(s, Run(id, reply));
      && s'.now == s.now
      && s'.callers[id] == Caller(r, Releasing(leaseEnd, lockEnd, Returned(response)))
      && s'.records == if OpenFor(s.records, r.identity, r.requestHash)
                       then s.records[r.identity := Record(r.requestHash, Some(response), s.now,
                                                           s.now + TtlSeconds(r.ttlSeconds) * SECOND)]
                       else s.records
  {
  }

  /**
    In every run whose abandons are safe, in time or late: the completing statement records something if and only if
    the claim is still open under the caller's hash, and the response the caller returns is the recorded one if and
    only if that is so or that very response is recorded already. A caller that completes in time always finds a record
    of its own request, open or answered.
   */
  lemma ReturnedIsRecordedExactly(now: int, events: seq<Event>, id: nat, reply: Response)
    requires Always(Start(now), events, SafeAbandon)
    requires var s := Play(Start(now), events); id in s.callers && s.callers[id].phase.Completing?
    ensures var s := Play(Start(now), events);
      var Caller(r, Completing(leaseEnd, lockEnd, response)) := s.callers[id];
      var s' := Step(s, Run(id, reply));
      && s'.callers[id].phase == Releasing(leaseEnd, lockEnd, Returned(response))
      && (s'.records != s.records <==> OpenFor(s.records, r.identity, r.requestHash))
      && (Answered(s'.records, r, response)
          <==> OpenFor(s.records, r.identity, r.requestHash) || Answered(s.records, r, response))
      && (HoldsLease(s, id) ==>
            r.identity in s.records && s.records[r.identity].requestHash == r.requestHash)
  {
    LeaseRun(Start(now), events);
    var s := Play(Start(now), events);
    CompletingStep(s, id, reply);
    var k, s' := s.callers[id].request.identity, Step(s, Run(id, reply));
    assert s'.records == s.records || (s.records[k].response.None? && s'.records[k].response.Some?);
    if HoldsLease(s, id) { assert Backed(s, id); }
  }

  /**
    What this means for replays, in any continuation until the record expires: a caller that repeats the request is
    given the response this caller returned if and only if the claim was open, or that response recorded already,
    when this caller completed.
   */
  lemma ReplaysAgreeExactly(s: System, id: nat, reply: Response, more: seq<Event>, other: nat, again: Response)
    requires id in s.callers && s.callers[id].phase.Completing?
    requires var r, s' := s.callers[id].request, Step(s, Run(id, reply));
      && r.identity in s'.records && s'.records[r.identity].response.Some?
      && Play(s', more).now <= s'.records[r.identity].expiresAt
    requires var r, mid := s.callers[id].request, Play(Step(s, Run(id, reply)), more);
      && other in mid.callers && mid.callers[other].phase.Selecting?
      && mid.callers[other].request.identity == r.identity && mid.callers[other].request.requestHash == r.requestHash
    ensures var Caller(r, Completing(_, _, response)) := s.callers[id];
      var mid := Play(Step(s, Run(id, reply)), more);
      Step(mid, Run(other, again)).callers[other].phase == Done(Replayed(response))
      <==> OpenFor(s.records, r.identity, r.requestHash) || Answered(s.records, r, response)
  {
    CompletingStep(s, id, reply);
    ReplaysAreExact(Step(s, Run(id, reply)), more, s.callers[id].request.identity, other, again);
  }

  // ----- Prompt callers -----

  ghost predicate InProgressWhileHeld(s: System) {
    forall id :: HoldsLease(s, id) && !s.callers[id].phase.Releasing? ==>
      Backed(s, id) && s.records[s.callers[id].request.identity].response.None?
  }

  lemma OtherCallersStay(s: System, e: Event, id: nat)
    requires e.Tick? || e.id != id
    ensures id in Step(s, e).callers <==> id in s.callers
    ensures id in s.callers ==> Step(s, e).callers[id] == s.callers[id]
  {
  }

  lemma TimeStep(s: System, e: Event)
    ensures s.now <= Step(s, e).now
  {
  }

  /** The caller's own statement keeps its claim in progress until it completes. */
  lemma HeldOwnStep(s: System, id: nat, reply: Response)
    requires id in s.callers && (HoldsLease(s, id) && !s.callers[id].phase.Releasing? ==>
      Backed(s, id) && s.records[s.callers[id].request.identity].response.None?)
    requires LeaseInvariant(Advance(s, id, reply))
    ensures var s' := Advance(s, id, reply);
      HoldsLease(s', id) && !s'.callers[id].phase.Releasing? ==>
        s'.records[s'.callers[id].request.identity].response.None?
  {
    var s' := Advance(s, id, reply);
    if HoldsLease(s', id) { assert Backed(s', id); }
  }

  /** Somebody else's prompt step leaves the claim of a live holder in progress. */
  lemma HeldOtherStep(s: System, e: Event, id: nat)
    requires LeaseInvariant(s) && Prompt(s, e) && (e.Tick? || e.id != id)
    requires HoldsLease(s, id) && s.records[s.callers[id].request.identity].response.None? && HoldsLease(Step(s, e), id)
    requires Backed(Step(s, e), id)
    ensures Step(s, e).records[s.callers[id].request.identity].response.None?
  {
    OtherCallersStay(s, e, id);
    if (e.Run? || e.CompletionFails?) && e.id in s.callers && s.callers[e.id].phase.Leased() {
      assert HoldsLease(s, e.id);
    }
  }

  lemma HeldStep(s: System, e: Event)
    requires LeaseInvariant(s) && InProgressWhileHeld(s) && Prompt(s, e)
    ensures InProgressWhileHeld(Step(s, e))
  {
    PromptAbandonIsSafe(s, e);
    LeaseStep(s, e);
    var s' := Step(s, e);
    forall id | HoldsLease(s', id) && !s'.callers[id].phase.Releasing?
      ensures Backed(s', id) && s'.records[s'.callers[id].request.identity].response.None?
    {
      assert Backed(s', id);
      if e.Tick? || e.id != id {
        OtherCallersStay(s, e, id);
        TimeStep(s, e);
        assert HoldsLease(s, id) && Backed(s, id);
        HeldOtherStep(s, e, id);
      } else if e.Run? {
        HeldOwnStep(s, id, e.reply);
      }
    }
  }

  lemma {:induction false} HeldRun(now: int, events: seq<Event>)
    requires Always(Start(now), events, Prompt)
    ensures LeaseInvariant(Play(Start(now), events)) && InProgressWhileHeld(Play(Start(now), events))
  {
    if events == [] {
    } else {
      AlwaysFront(Start(now), events, Prompt);
      HeldRun(now, events[..|events| - 1]);
      PromptAbandonIsSafe(Play(Start(now), events[..|events| - 1]), events[|events| - 1]);
      LeaseStep(Play(Start(now), events[..|events| - 1]), events[|events| - 1]);
      HeldStep(Play(Start(now), events[..|events| - 1]), events[|events| - 1]);
    }
  }

  lemma CompletionIsRecorded(s: System, id: nat, reply: Response)
    requires HoldsLease(s, id) && s.callers[id].phase.Completing?
    requires Backed(s, id) && s.records[s.callers[id].request.identity].response.None?
    ensures var Caller(r, Completing(leaseEnd, lockEnd, response)) := s.callers[id];
            var s' := Step(s, Run(id, reply));
            && s'.callers[id] == Caller(r, Releasing(leaseEnd, lockEnd, Returned(response)))
            && r.identity in s'.records
            && s'.records[r.identity] ==
               Record(r.requestHash, Some(response), s.now, s.now + TtlSeconds(r.ttlSeconds) * SECOND)
  {
  }

  /**
    In every run of prompt callers, the response a caller is about to return is the one its record keeps, so
    (by ReplaysAreExact) every replay until expiry answers with it.
   */
  lemma ReturnedResponseIsRecorded(now: int, events: seq<Event>, id: nat, reply: Response)
    requires Always(Start(now), events, Prompt)
    requires var s := Play(Start(now), events);
             id in s.callers && s.callers[id].phase.Completing? && Prompt(s, Run(id, reply))
    ensures var s := Play(Start(now), events);
            var Caller(r, Completing(leaseEnd, lockEnd, response)) := s.callers[id];
            var s' := Step(s, Run(id, reply));
            && s'.callers[id] == Caller(r, Releasing(leaseEnd, lockEnd, Returned(response)))
            && r.identity in s'.records
            && s'.records[r.identity] ==
               Record(r.requestHash, Some(response), s.now, s.now + TtlSeconds(r.ttlSeconds) * SECOND)
  {
    HeldRun(now, events);
    var s := Play(Start(now), events);
    assert HoldsLease(s, id);
    CompletionIsRecorded(s, id, reply);
  }

  // ----- At most one handler -----

  /** If the caller holds a lease on k later, it is one it had before, and past its handler it stays past it. */
  predicate SameHolder(s: System, s': System, k: Identity, id: nat) {
    (id in s'.callers && s'.callers[id].phase.Leased() && s'.callers[id].request.identity == k) ==>
      && id in s.callers && s.callers[id].phase.Leased() && s.callers[id].request == s'.callers[id].request
      && s.callers[id].phase.leaseEnd == s'.callers[id].phase.leaseEnd
      && (s.callers[id].phase.Releasing? ==> s'.callers[id].phase.Releasing?)
  }

  ghost predicate NoNewHolders(s: System, s': System, k: Identity) {
    forall id :: SameHolder(s, s', k, id)
  }

  lemma OwnStatement(s: System, id: nat, reply: Response, k: Identity)
    requires k in s.records && s.records[k].response.Some? && id in s.callers
    ensures SameHolder(s, Advance(s, id, reply), k, id)
  {
  }

  /** While a completed record stands, no statement acquires its identity. */
  lemma CompletedIsNotAcquired(s: System, e: Event, k: Identity)
    requires k in s.records && s.records[k].response.Some?
    ensures NoNewHolders(s, Step(s, e), k)
  {
    forall id ensures SameHolder(s, Step(s, e), k, id) {
      if e.Tick? || e.id != id {
        OtherCallersStay(s, e, id);
      } else if e.Run? && id in s.callers {
        OwnStatement(s, id, e.reply, k);
      }
    }
  }

  lemma HoldersTransitive(x: System, y: System, z: System, k: Identity)
    requires NoNewHolders(x, y, k) && NoNewHolders(y, z, k)
    ensures NoNewHolders(x, z, k)
  {
    forall id ensures SameHolder(x, z, k, id) {
      assert SameHolder(x, y, k, id) && SameHolder(y, z, k, id);
    }
  }

  /** In any run, from a completed record until it expires, nobody acquires its identity. */
  lemma {:induction false} NobodyAcquires(s: System, more: seq<Event>, k: Identity)
    requires k in s.records && s.records[k].response.Some? && Play(s, more).now <= s.records[k].expiresAt
    ensures NoNewHolders(s, Play(s, more), k)
  {
    if more == [] {
    } else {
      var front, e := more[..|more| - 1], more[|more| - 1];
      TimeStep(Play(s, front), e);
      NobodyAcquires(s, front, k);
      CompletedRecordStays(s, front, k);
      CompletedIsNotAcquired(Play(s, front), e, k);
      HoldersTransitive(s, Play(s, front), Play(s, more), k);
    }
  }

  /**
    At most once: in every run of prompt callers, once a caller has completed and until its record expires, no caller
    acquires its identity, and nobody but itself, on its way to the release, holds a lease on it, so whoever is in a
    handler for it then is late. What follows the completion need not be prompt.
   */
  lemma HandlersRunAtMostOnce(now: int, events: seq<Event>, id: nat, reply: Response, more: seq<Event>, other: nat)
    requires Always(Start(now), events, Prompt)
    requires var s := Play(Start(now), events);
      id in s.callers && s.callers[id].phase.Completing? && Prompt(s, Run(id, reply))
    requires var s := Play(Start(now), events);
      Play(Step(s, Run(id, reply)), more).now <= s.now + TtlSeconds(s.callers[id].request.ttlSeconds) * SECOND
    ensures var s := Play(Start(now), events);
      var s' := Step(s, Run(id, reply));
      var mid, k := Play(s', more), s.callers[id].request.identity;
      && NoNewHolders(s', mid, k)
      && (HoldsLease(mid, other) && mid.callers[other].request.identity == k ==>
            other == id && mid.callers[other].phase.Releasing?)
  {
    ReturnedResponseIsRecorded(now, events, id, reply);
    var s := Play(Start(now), events);
    var k := s.callers[id].request.identity;
    PromptStepKeepsLeases(now, events, Run(id, reply));
    NobodyAcquires(Step(s, Run(id, reply)), more, k);
    OnlyHolder(Step(s, Run(id, reply)), more, id, other);
  }

  lemma PromptStepKeepsLeases(now: int, events: seq<Event>, e: Event)
    requires Always(Start(now), events, Prompt) && Prompt(Play(Start(now), events), e)
    ensures LeaseInvariant(Step(Play(Start(now), events), e))
  {
    HeldRun(now, events);
    PromptAbandonIsSafe(Play(Start(now), events), e);
    LeaseStep(Play(Start(now), events), e);
  }

  /** If a live holder past its handler is the only one and nobody new comes, it stays so. */
  lemma OnlyHolder(s: System, more: seq<Event>, id: nat, other: nat)
    requires LeaseInvariant(s) && HoldsLease(s, id) && s.callers[id].phase.Releasing?
    requires NoNewHolders(s, Play(s, more), s.callers[id].request.identity)
    ensures var s' := Play(s, more);
      (HoldsLease(s', other) && s'.callers[other].request.identity == s.callers[id].request.identity) ==>
        other == id && s'.callers[other].phase.Releasing?
  {
    TimeMovesForward(s, more);
    var s' := Play(s, more);
    if HoldsLease(s', other) && s'.callers[other].request.identity == s.callers[id].request.identity {
      assert SameHolder(s, s', s.callers[id].request.identity, other);
      assert HoldsLease(s, other);
    }
  }
}
