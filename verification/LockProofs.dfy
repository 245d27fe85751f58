/** Who holds a mutation lock, in every run of the lease protocol. */
module LockProofs {
  import opened Basics
  import opened SecurityTables
  import opened LeaseProtocol
  import opened LeaseProofs

  /** A lock is granted for the longest time a lease may take, and only to a caller that wants one. */
  ghost predicate LocksGranted(s: System) {
    forall id :: id in s.callers && s.callers[id].phase.HasLock() ==>
      && WantsLock(s.callers[id].request)
      && s.callers[id].phase.leaseEnd <= s.callers[id].phase.lockEnd.value <= s.now + 300 * SECOND
  }

  /** The row a live lock holder relies on. */
  predicate LockBacked(s: System, id: nat)
    requires HoldsLock(s, id)
  {
    var Caller(r, phase) := s.callers[id];
    && r.resource.value in s.locks
    && s.locks[r.resource.value].holderKey == HolderKey(r)
    && s.locks[r.resource.value].expiresAt >= phase.lockEnd.value
  }

  ghost predicate LocksBacked(s: System) {
    forall id :: HoldsLock(s, id) ==> LockBacked(s, id)
  }

  ghost predicate LocksExclusive(s: System) {
    forall a, b :: HoldsLock(s, a) && HoldsLock(s, b) && a != b
      ==> s.callers[a].request.resource != s.callers[b].request.resource
  }

  ghost predicate LockInvariant(s: System) {
    LeaseInvariant(s) && LocksGranted(s) && LocksBacked(s) && LocksExclusive(s)
  }

  /** The grants of a caller's locks do not change. */
  predicate SameGrant(s: System, s': System, id: nat) {
    id in s'.callers && s'.callers[id].phase.HasLock() ==>
      && id in s.callers && s.callers[id].phase.HasLock()
      && s'.callers[id].request == s.callers[id].request
      && s'.callers[id].phase.lockEnd == s.callers[id].phase.lockEnd
      && s'.callers[id].phase.leaseEnd == s.callers[id].phase.leaseEnd
  }

  /** A step that grants no lock. */
  ghost predicate Quiet(s: System, s': System) {
    s.now <= s'.now && forall id :: SameGrant(s, s', id)
  }

  lemma QuietKeepsLocks(s: System, s': System)
    requires LockInvariant(s) && Quiet(s, s') && LeaseInvariant(s')
    requires forall id :: HoldsLock(s, id) && HoldsLock(s', id) && LockBacked(s, id) ==> LockBacked(s', id)
    ensures LockInvariant(s')
  {
    forall id | HoldsLock(s', id)
      ensures HoldsLock(s, id) && LockBacked(s', id) && s'.callers[id].request == s.callers[id].request
    {
      assert SameGrant(s, s', id);
      assert HoldsLock(s, id) && LockBacked(s, id);
    }
    QuietKeepsGrants(s, s');
  }

  lemma QuietKeepsGrants(s: System, s': System)
    requires LocksGranted(s) && Quiet(s, s')
    ensures LocksGranted(s')
  {
    forall id | id in s'.callers && s'.callers[id].phase.HasLock()
      ensures WantsLock(s'.callers[id].request)
      ensures s'.callers[id].phase.leaseEnd <= s'.callers[id].phase.lockEnd.value <= s'.now + 300 * SECOND
    {
      assert SameGrant(s, s', id);
    }
  }

  lemma QuietWithSameLocks(s: System, s': System)
    requires LockInvariant(s) && Quiet(s, s') && LeaseInvariant(s') && s'.locks == s.locks
    ensures LockInvariant(s')
  {
    forall id | HoldsLock(s, id) && HoldsLock(s', id) && LockBacked(s, id) ensures LockBacked(s', id) {
      assert SameGrant(s, s', id);
    }
    QuietKeepsLocks(s, s');
  }

  lemma AdvanceIsQuiet(s: System, id: nat, reply: Response)
    requires id in s.callers
    requires s.callers[id].phase.Acquired? ==> !WantsLock(s.callers[id].request)
    ensures Quiet(s, Advance(s, id, reply))
    ensures !s.callers[id].phase.Releasing? ==> Advance(s, id, reply).locks == s.locks
  {
    var s' := Advance(s, id, reply);
    if !s.callers[id].phase.Done? { QuietUpdate(s, s', id, s'.callers[id]); }
  }

  lemma QuietUpdate(s: System, s': System, id: nat, c: Caller)
    requires id in s.callers && s'.now == s.now && s'.callers == s.callers[id := c]
    requires c.request == s.callers[id].request && SameGrant(s, s', id)
    ensures Quiet(s, s')
  {
  }

  lemma OthersAreQuiet(s: System, e: Event)
    requires !e.Run?
    ensures Quiet(s, Step(s, e)) && Step(s, e).locks == s.locks
  {
  }

  // ----- Taking a lock -----

  /** The caller whose statement asks for the lock. */
  predicate Asks(s: System, id: nat) {
    id in s.callers && s.callers[id].phase.Acquired? && WantsLock(s.callers[id].request)
  }

  /** The lock statement of one caller in plain terms. */
  lemma AskedLock(s: System, id: nat, reply: Response)
    requires Asks(s, id)
    ensures var Caller(r, Acquired(leaseEnd)) := s.callers[id];
      var granted := Lockable(s.locks, r.resource.value, HolderKey(r), s.now);
      Advance(s, id, reply) == s.(
        locks := Locked(s.locks, r.resource.value, r.identity.ownerWallet, r.identity.operation,
                        HolderKey(r), None, s.now),
        callers := s.callers[id := Caller(r, if granted then Handling(leaseEnd, Some(s.now + 300 * SECOND))
                                             else LockDenied(leaseEnd))])
  {
    assert LockSeconds(None) == 300;
  }

  /** Whoever else holds the lock keeps its row: a grant needs the row's own holder key. */
  lemma AskKeepsRows(s: System, id: nat, reply: Response, other: nat)
    requires LockInvariant(s) && Asks(s, id) && other != id && HoldsLock(Advance(s, id, reply), other)
    ensures HoldsLock(s, other) && LockBacked(Advance(s, id, reply), other)
    ensures s.callers[other].request.resource == s.callers[id].request.resource
            && Lockable(s.locks, s.callers[id].request.resource.value, HolderKey(s.callers[id].request), s.now)
            ==> SameLock(s, id, other)
  {
    AskedLock(s, id, reply);
    assert HoldsLock(s, other) && LockBacked(s, other);
  }

  lemma AskKeepsLocks(s: System, id: nat, reply: Response)
    requires LockInvariant(s) && Asks(s, id) && LeaseInvariant(Advance(s, id, reply))
    requires HoldsLease(s, id) ==> !SharesHolderKey(s, id)
    ensures LockInvariant(Advance(s, id, reply))
  {
    AskedLock(s, id, reply);
    var s' := Advance(s, id, reply);
    forall other | HoldsLock(s', other) ensures LockBacked(s', other) {
      if other != id { AskKeepsRows(s, id, reply, other); }
    }
    forall a, b | HoldsLock(s', a) && HoldsLock(s', b) && a != b
      ensures s'.callers[a].request.resource != s'.callers[b].request.resource
    {
      if a == id {
        NewHolderIsAlone(s, id, reply, b);
      } else if b == id {
        NewHolderIsAlone(s, id, reply, a);
      } else {
        AskKeepsRows(s, id, reply, a);
        AskKeepsRows(s, id, reply, b);
      }
    }
  }

  lemma NewHolderIsAlone(s: System, id: nat, reply: Response, other: nat)
    requires LockInvariant(s) && Asks(s, id) && (HoldsLease(s, id) ==> !SharesHolderKey(s, id))
    requires var s' := Advance(s, id, reply); other != id && HoldsLock(s', id) && HoldsLock(s', other)
    ensures s.callers[other].request.resource != s.callers[id].request.resource
  {
    AskedLock(s, id, reply);
    AskKeepsRows(s, id, reply, other);
    assert HoldsLease(s, id) && HoldsLease(s, other);
  }

  /**
    A caller's lock statement keeps every resource with at most one live holder if and only if the caller's own
    lease has run out or no other live holder of the resource has the same holder key under another identity.
   */
  lemma AcquisitionIsSafeExactly(s: System, id: nat, reply: Response)
    requires LockInvariant(s) && Asks(s, id)
    ensures LocksExclusive(Step(s, Run(id, reply))) <==> (HoldsLease(s, id) ==> !SharesHolderKey(s, id))
  {
    var s' := Step(s, Run(id, reply));
    if HoldsLease(s, id) && SharesHolderKey(s, id) {
      var other :| other in s.callers && SameLock(s, id, other)
                   && s.callers[other].request.identity != s.callers[id].request.identity;
      assert LockBacked(s, other);
      AskedLock(s, id, reply);
      assert HoldsLock(s', id) && HoldsLock(s', other);
    } else {
      LeaseStep(s, Run(id, reply));
      AskKeepsLocks(s, id, reply);
    }
  }

  // ----- Releasing a lock -----

  lemma ReleaseKeepsLocks(s: System, id: nat, reply: Response)
    requires LockInvariant(s) && id in s.callers && s.callers[id].phase.Releasing?
    requires LeaseInvariant(Advance(s, id, reply))
    requires s.callers[id].phase.HasLock() ==> !DropsLiveLock(s, id)
    ensures LockInvariant(Advance(s, id, reply))
  {
    var s' := Advance(s, id, reply);
    forall other | HoldsLock(s, other) && HoldsLock(s', other) && LockBacked(s, other) ensures LockBacked(s', other) {
      assert other != id;
      if s.callers[id].phase.HasLock() { assert !SameLock(s, id, other); }
    }
    AdvanceIsQuiet(s, id, reply);
    QuietKeepsLocks(s, s');
  }

  /** A caller that releases before its lease ends is the one live holder, so it deletes nobody else's row. */
  lemma PromptReleaseIsSafe(s: System, e: Event)
    requires LockInvariant(s) && Prompt(s, e)
    ensures SafeRelease(s, e)
  {
    if e.Run? && e.id in s.callers && s.callers[e.id].phase.Releasing? && s.callers[e.id].phase.HasLock() {
      assert HoldsLock(s, e.id);
    }
  }

  // ----- Runs -----

  lemma LockStep(s: System, e: Event)
    requires LockInvariant(s) && Careful(s, e)
    ensures LockInvariant(Step(s, e))
  {
    LeaseStep(s, e);
    if !e.Run? {
      OthersAreQuiet(s, e);
      QuietWithSameLocks(s, Step(s, e));
    } else if e.id in s.callers {
      if Asks(s, e.id) {
        AskKeepsLocks(s, e.id, e.reply);
      } else if s.callers[e.id].phase.Releasing? {
        ReleaseKeepsLocks(s, e.id, e.reply);
      } else {
        AdvanceIsQuiet(s, e.id, e.reply);
        QuietWithSameLocks(s, Step(s, e));
      }
    }
  }

  lemma {:induction false} LockRun(s: System, events: seq<Event>)
    requires LockInvariant(s) && Always(s, events, Careful)
    ensures LockInvariant(Play(s, events))
  {
    if events == [] {
    } else {
      AlwaysFront(s, events, Careful);
      LockRun(s, events[..|events| - 1]);
      LockStep(Play(s, events[..|events| - 1]), events[|events| - 1]);
    }
  }

  /**
    In every run whose abandons, lock statements and releases are safe, at most one caller holds a resource at a
    time. Promptness is not needed.
   */
  lemma LocksAreExclusive(now: int, events: seq<Event>, a: nat, b: nat)
    requires Always(Start(now), events, Careful)
    requires var s := Play(Start(now), events); HoldsLock(s, a) && HoldsLock(s, b) && a != b
    ensures var s := Play(Start(now), events); s.callers[a].request.resource != s.callers[b].request.resource
  {
    LockRun(Start(now), events);
  }

  /** A prompt caller abandons and releases safely; only its lock statement depends on the others. */
  lemma PromptIsCareful(s: System, e: Event)
    requires LockInvariant(s) && Prompt(s, e) && UnsharedLock(s, e)
    ensures Careful(s, e)
  {
    PromptAbandonIsSafe(s, e);
    PromptReleaseIsSafe(s, e);
  }

  ghost predicate ExclusiveThroughout(s: System, events: seq<Event>) {
    forall i :: 0 <= i <= |events| ==> LocksExclusive(Play(s, events[..i]))
  }

  lemma {:induction false} PromptRunsAreCareful(s: System, events: seq<Event>)
    requires LockInvariant(s) && Always(s, events, Prompt) && Always(s, events, UnsharedLock)
    ensures Always(s, events, Careful) && LockInvariant(Play(s, events))
  {
    if events == [] {
    } else {
      var front, e := events[..|events| - 1], events[|events| - 1];
      AlwaysFront(s, events, Prompt);
      AlwaysFront(s, events, UnsharedLock);
      PromptRunsAreCareful(s, front);
      PromptIsCareful(Play(s, front), e);
      AlwaysSnoc(s, front, e, Careful);
      LockStep(Play(s, front), e);
      assert events == front + [e];
    }
  }

  lemma {:induction false} ExclusiveRunsAreUnshared(s: System, events: seq<Event>)
    requires LockInvariant(s) && Always(s, events, Prompt) && ExclusiveThroughout(s, events)
    ensures Always(s, events, UnsharedLock)
  {
    if events == [] {
    } else {
      var front, e := events[..|events| - 1], events[|events| - 1];
      AlwaysFront(s, events, Prompt);
      assert forall i :: 0 <= i <= |front| ==> front[..i] == events[..i];
      ExclusiveRunsAreUnshared(s, front);
      PromptRunsAreCareful(s, front);
      assert events[..|events|] == events;
      if e.Run? && Asks(Play(s, front), e.id) { AcquisitionIsSafeExactly(Play(s, front), e.id, e.reply); }
      AlwaysSnoc(s, front, e, UnsharedLock);
      assert events == front + [e];
    }
  }

  /**
    In every run in which callers act before their leases end: at most one caller holds each resource at every
    moment if and only if no caller takes a lock that another live holder has under the same holder key and another
    identity.
   */
  lemma PromptLocksAreExclusiveExactly(now: int, events: seq<Event>)
    requires Always(Start(now), events, Prompt)
    ensures ExclusiveThroughout(Start(now), events) <==> Always(Start(now), events, UnsharedLock)
  {
    var s := Start(now);
    if Always(s, events, UnsharedLock) {
      forall i | 0 <= i <= |events| ensures LocksExclusive(Play(s, events[..i])) {
        AlwaysPrefix(s, events, i, Prompt);
        AlwaysPrefix(s, events, i, UnsharedLock);
        PromptRunsAreCareful(s, events[..i]);
      }
    }
    if ExclusiveThroughout(s, events) { ExclusiveRunsAreUnshared(s, events); }
  }

  lemma AlwaysPrefix(s: System, events: seq<Event>, n: nat, good: (System, Event) -> bool)
    requires Always(s, events, good) && n <= |events|
    ensures Always(s, events[..n], good)
  {
    forall i | 0 <= i < n ensures good(Play(s, events[..n][..i]), events[..n][i]) {
      assert events[..n][..i] == events[..i];
    }
  }

  // ----- Which releases are safe -----

  /** A safe step; newcomers send requests the server accepts. */
  predicate Legitimate(s: System, e: Event) {
    Careful(s, e) && (e.Arrive? ==> LegalRequest(e.request))
  }

  /** Whatever legitimate steps follow, every resource keeps at most one live holder. */
  ghost predicate LocksExclusiveForever(s: System) {
    forall events :: Always(s, events, Legitimate) ==> LocksExclusive(Play(s, events))
  }

  /**
    Once a release has deleted another live holder's row, any newcomer with a free identity and another holder key
    is granted the lock as well.
   */
  lemma UnsafeReleaseBreaksLocks(s: System, id: nat, holder: nat, newcomer: nat, request: Request, reply: Response)
    requires LockInvariant(s) && id in s.callers && s.callers[id].phase.Releasing? && s.callers[id].phase.HasLock()
    requires SameLock(s, id, holder) && newcomer !in s.callers
    requires request.resource
      == s.callers[id].request.resource && HolderKey(request) != HolderKey(s.callers[holder].request)
    requires request.identity !in Swept(s.records, s.now)
    ensures var s' := Step(s, Run(id, reply));
      var events := Claiming(newcomer, request, reply) + [Run(newcomer, reply)];
      && Always(s', events, Careful)
      && HoldsLock(Play(s', events), holder) && HoldsLock(Play(s', events), newcomer)
      && !LocksExclusive(Play(s', events))
  {
    var s' := Step(s, Run(id, reply));
    var claiming := Claiming(newcomer, request, reply);
    ReleasedRow(s, id, holder, reply);
    ClaimingIsCareful(s', newcomer, request, reply);
    Claims(s', newcomer, request, reply);
    var s3 := Play(s', claiming);
    StrangerTakesLock(s, s3, id, holder, newcomer, reply);
    PlaySnoc(s', claiming, Run(newcomer, reply));
    AlwaysSnoc(s', claiming, Run(newcomer, reply), Careful);
  }

  /** A leased newcomer with a holder key of its own takes the lock whose row is gone. */
  lemma StrangerTakesLock(s: System, s3: System, id: nat, holder: nat, newcomer: nat, reply: Response)
    requires LocksExclusive(s) && id in s.callers && SameLock(s, id, holder) && newcomer != holder
    requires Asks(s3, newcomer) && HoldsLease(s3, newcomer) && HoldsLock(s3, holder)
    requires forall other :: other in s3.callers && other != newcomer && HoldsLock(s3, other) ==>
      HoldsLock(s, other) && s3.callers[other] == s.callers[other]
    requires s3.callers[newcomer].request.resource == s.callers[holder].request.resource
    requires HolderKey(s3.callers[newcomer].request) != HolderKey(s.callers[holder].request)
    requires s3.callers[newcomer].request.resource.value !in s3.locks
    ensures Careful(s3, Run(newcomer, reply))
    ensures var s4 := Step(s3, Run(newcomer, reply));
      HoldsLock(s4, holder) && HoldsLock(s4, newcomer) && !LocksExclusive(s4)
  {
    AskedLock(s3, newcomer, reply);
    forall other | other in s3.callers ensures !SameLock(s3, newcomer, other) {
      if HoldsLock(s3, other) && other != newcomer && other != holder { assert HoldsLock(s, other); }
    }
    var s4 := Step(s3, Run(newcomer, reply));
    assert HoldsLock(s4, holder) && HoldsLock(s4, newcomer);
  }

  lemma ReleasedRow(s: System, id: nat, holder: nat, reply: Response)
    requires LockInvariant(s) && id in s.callers && s.callers[id].phase.Releasing? && s.callers[id].phase.HasLock()
    requires SameLock(s, id, holder)
    ensures var s' := Step(s, Run(id, reply));
      && s'.now == s.now && s'.records == s.records && HoldsLock(s', holder)
      && s.callers[id].request.resource.value !in s'.locks
      && forall other :: HoldsLock(s', other) ==> HoldsLock(s, other)
  {
    assert LockBacked(s, holder);
  }

  lemma ClaimingIsCareful(s: System, id: nat, r: Request, reply: Response)
    requires id !in s.callers
    ensures Always(s, Claiming(id, r, reply), Careful)
  {
    ClaimingIsUnleased(s, id, r, reply);
    AlwaysWeaker(s, Claiming(id, r, reply), Unleased, Careful);
  }

  lemma ClaimerIsLegitimate(s: System, id: nat, r: Request, reply: Response)
    requires LegalRequest(r) && Always(s, Claiming(id, r, reply) + [Run(id, reply)], Careful)
    ensures Always(s, Claiming(id, r, reply) + [Run(id, reply)], Legitimate)
  {
    var events := Claiming(id, r, reply) + [Run(id, reply)];
    forall i | 0 <= i < |events| ensures Legitimate(Play(s, events[..i]), events[i]) {
      assert Careful(Play(s, events[..i]), events[i]);
    }
  }

  /**
    A release, late or not, leaves lock exclusion intact in every continuation of legitimate steps if and only if it
    does not delete the row of another live holder; `request` is any acceptable request for the resource that comes
    with a free identity and a holder key of its own.
   */
  lemma ReleaseIsSafeExactly(s: System, id: nat, reply: Response, request: Request)
    requires LockInvariant(s) && id in s.callers && s.callers[id].phase.Releasing? && s.callers[id].phase.HasLock()
    requires LegalRequest(request) && request.identity !in Swept(s.records, s.now)
    requires request.resource == s.callers[id].request.resource
    requires HolderKey(request) != HolderKey(s.callers[id].request)
    ensures LocksExclusiveForever(Step(s, Run(id, reply))) <==> !DropsLiveLock(s, id)
  {
    var s' := Step(s, Run(id, reply));
    if DropsLiveLock(s, id) {
      var holder :| holder in s.callers && SameLock(s, id, holder);
      var newcomer := FreshId(s.callers.Keys);
      UnsafeReleaseBreaksLocks(s, id, holder, newcomer, request, reply);
      ClaimerIsLegitimate(s', newcomer, request, reply);
    } else {
      LeaseStep(s, Run(id, reply));
      ReleaseKeepsLocks(s, id, reply);
      forall events | Always(s', events, Legitimate) ensures LocksExclusive(Play(s', events)) {
        assert Always(s', events, Careful) by { LegitimateIsCareful(s', events); }
        LockRun(s', events);
      }
    }
  }

  lemma LegitimateIsCareful(s: System, events: seq<Event>)
    requires Always(s, events, Legitimate)
    ensures Always(s, events, Careful)
  {
    AlwaysWeaker(s, events, Legitimate, Careful);
  }
}
