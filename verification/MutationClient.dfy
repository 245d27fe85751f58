/**
  runIdempotentMutation (apps/web/src/server/security.ts) as the sequence of store calls it is, for one caller whose
  statements run at the times of its `Env`. Module LeaseProtocol interleaves many such callers.
 */
module MutationClient {
  import opened Basics
  import opened SecurityTables
  import opened SecurityStore
  import opened LeaseProtocol

  function Rank(p: Phase): nat {
    match p
    case Sweeping => 9
    case Inserting => 8
    case Selecting => 7
    case Reclaiming => 6
    case Acquired(_) => 5
    case LockDenied(_) => 4
    case Handling(_, _) => 3
    case Completing(_, _, _) => 2
    case Releasing(_, _, _) => 1
    case Done(_) => 0
  }

  /** What becomes of the completing statement. */
  datatype Completion = Succeeds | FailsBefore | FailsAfter

  /** What the handler answers if it is called, how the completion ends, and when each statement runs. */
  datatype Env = Env(reply: Response, completion: Completion, clock: nat -> int)

  /** One caller's next statement, the i-th, at its time. */
  function Next(s: System, id: nat, env: Env, i: nat): System
    requires id in s.callers
  {
    var s := s.(now := env.clock(i));
    if s.callers[id].phase.Completing? && !env.completion.Succeeds?
    then Step(s, CompletionFails(id, env.completion.FailsAfter?))
    else Advance(s, id, env.reply)
  }

  lemma NextRank(s: System, id: nat, env: Env, i: nat)
    requires id in s.callers && !s.callers[id].phase.Done?
    ensures id in Next(s, id, env, i).callers
    ensures Rank(Next(s, id, env, i).callers[id].phase) < Rank(s.callers[id].phase)
    ensures Next(s, id, env, i).callers[id].request == s.callers[id].request
  {
  }

  /** All statements of one caller with nobody in between. */
  function Finish(s: System, id: nat, env: Env, i: nat): (f: System)
    requires id in s.callers
    ensures id in f.callers && f.callers[id].phase.Done? && f.callers[id].request == s.callers[id].request
    decreases Rank(s.callers[id].phase)
  {
    if s.callers[id].phase.Done? then s
    else
      NextRank(s, id, env, i);
      Finish(Next(s, id, env, i), id, env, i + 1)
  }

  /** What a caller that is alone leaves behind, and what it answers. */
  function Effect(s: System): (Records, Locks, Phase)
    requires 0 in s.callers
  {
    (s.records, s.locks, s.callers[0].phase)
  }

  lemma Unfold(s: System, id: nat, env: Env, i: nat)
    requires id in s.callers && !s.callers[id].phase.Done?
    ensures id in Next(s, id, env, i).callers
    ensures Finish(s, id, env, i) == Finish(Next(s, id, env, i), id, env, i + 1)
  {
    NextRank(s, id, env, i);
  }

  /** The state in which the only caller is in `phase`. */
  function At(now: int, records: Records, locks: Locks, r: Request, phase: Phase): System {
    System(now, records, locks, map[0 := Caller(r, phase)])
  }

  /** The caller's statement in `phase` leads from one state to the other. */
  ghost predicate Leads(now: int, records: Records, locks: Locks, r: Request, phase: Phase, env: Env,
                        i: nat, next: System)
    requires !phase.Done?
  {
    var s := At(now, records, locks, r, phase);
    && 0 in next.callers
    && Next(s, 0, env, i) == next
    && Finish(s, 0, env, i) == Finish(next, 0, env, i + 1)
  }

  /** Only the next state has to be found; the rest of the run follows. */
  lemma LeadsTo(now: int, t: Records, l: Locks, r: Request, phase: Phase, env: Env, i: nat,
                records: Records, locks: Locks,
                next: Phase)
    requires !phase.Done?
    requires Next(At(now, t, l, r, phase), 0, env, i) == At(env.clock(i), records, locks, r, next)
    ensures Leads(now, t, l, r, phase, env, i, At(env.clock(i), records, locks, r, next))
  {
    Unfold(At(now, t, l, r, phase), 0, env, i);
  }

  lemma SweepLeads(now: int, t: Records, l: Locks, r: Request, env: Env, i: nat)
    ensures Leads(now, t, l, r, Sweeping, env, i, At(env.clock(i), Swept(t, env.clock(i)), l, r, Inserting))
  {
    Unfold(At(now, t, l, r, Sweeping), 0, env, i);
  }

  lemma InsertLeads(now: int, t: Records, l: Locks, r: Request, env: Env, i: nat)
    ensures Leads(now, t, l, r, Inserting, env, i,
                  At(env.clock(i), Claimed(t, r.identity, r.requestHash,
                                               r.leaseSeconds, r.ttlSeconds, env.clock(i)), l, r,
                     if r.identity in t then Selecting else Acquired(LeaseEnd(r, env.clock(i)))))
  {
    Unfold(At(now, t, l, r, Inserting), 0, env, i);
  }

  lemma SelectLeads(now: int, t: Records, l: Locks, r: Request, env: Env, i: nat)
    ensures var seen := Inspect(t, r.identity, r.requestHash);
      Leads(now, t, l, r, Selecting, env, i,
            At(env.clock(i), t, l, r, if seen.Some? then Done(Outcomes(seen.value)) else Reclaiming))
  {
    Unfold(At(now, t, l, r, Selecting), 0, env, i);
  }

  lemma ReclaimLeads(now: int, t: Records, l: Locks, r: Request, env: Env, i: nat)
    ensures Leads(now, t, l, r, Reclaiming, env, i,
                  At(env.clock(i), Reclaimed(t, r.identity, r.requestHash,
                                                 r.leaseSeconds, r.ttlSeconds, env.clock(i)), l, r,
                     if Reclaimable(t, r.identity, r.requestHash, env.clock(i))
                     then Acquired(LeaseEnd(r, env.clock(i))) else Done(InProgress)))
  {
    Unfold(At(now, t, l, r, Reclaiming), 0, env, i);
  }

  lemma NoLockLeads(now: int, t: Records, l: Locks, r: Request, env: Env, i: nat, leaseEnd: int)
    requires !WantsLock(r)
    ensures Leads(now, t, l, r, Acquired(leaseEnd), env, i, At(env.clock(i), t, l, r, Handling(leaseEnd, None)))
  {
    Unfold(At(now, t, l, r, Acquired(leaseEnd)), 0, env, i);
  }

  lemma LockLeads(now: int, t: Records, l: Locks, r: Request, env: Env, i: nat, leaseEnd: int)
    requires WantsLock(r)
    ensures
      var locks := Locked(l, r.resource.value, r.identity.ownerWallet, r.identity.operation,
                          HolderKey(r), None, env.clock(i));
      var phase := if Lockable(l, r.resource.value, HolderKey(r), env.clock(i))
                   then Handling(leaseEnd, Some(env.clock(i) + LockSeconds(None) * SECOND)) else LockDenied(leaseEnd);
      Leads(now, t, l, r, Acquired(leaseEnd), env, i, At(env.clock(i), t, locks, r, phase))
  {
    var at := env.clock(i);
    LockMoves(at, t, l, r, leaseEnd, env.reply);
    LeadsTo(now, t, l, r, Acquired(leaseEnd), env, i, t,
            Locked(l, r.resource.value, r.identity.ownerWallet, r.identity.operation, HolderKey(r), None, at),
            if Lockable(l, r.resource.value, HolderKey(r), at)
            then Handling(leaseEnd, Some(at + LockSeconds(None) * SECOND)) else LockDenied(leaseEnd));
  }

  lemma LockMoves(at: int, t: Records, l: Locks, r: Request, leaseEnd: int, reply: Response)
    requires WantsLock(r)
    ensures
      var locks := Locked(l, r.resource.value, r.identity.ownerWallet, r.identity.operation, HolderKey(r), None, at);
      var phase := if Lockable(l, r.resource.value, HolderKey(r), at)
                   then Handling(leaseEnd, Some(at + LockSeconds(None) * SECOND)) else LockDenied(leaseEnd);
      Advance(At(at, t, l, r, Acquired(leaseEnd)), 0, reply) == At(at, t, locks, r, phase)
  {
  }

  lemma DenyLeads(now: int, t: Records, l: Locks, r: Request, env: Env, i: nat, leaseEnd: int)
    ensures Leads(now, t, l, r, LockDenied(leaseEnd), env, i,
                  At(env.clock(i), Abandoned(t, r.identity, r.requestHash), l, r, Done(ConcurrentMutation)))
  {
    Unfold(At(now, t, l, r, LockDenied(leaseEnd)), 0, env, i);
  }

  lemma HandleLeads(now: int, t: Records, l: Locks, r: Request, env: Env, i: nat, leaseEnd: int, lockEnd: Option<int>)
    ensures Leads(now, t, l, r, Handling(leaseEnd, lockEnd), env, i,
                  At(env.clock(i), t, l, r, Completing(leaseEnd, lockEnd, env.reply)))
  {
    Unfold(At(now, t, l, r, Handling(leaseEnd, lockEnd)), 0, env, i);
  }

  lemma CompleteLeads(now: int, t: Records, l: Locks, r: Request, env: Env, i: nat, leaseEnd: int, lockEnd: Option<int>,
                      response: Response)
    ensures
      var records := if env.completion.FailsBefore? then t
                     else Completed(t, r.identity, r.requestHash, response, r.ttlSeconds, env.clock(i));
      var outcome := if env.completion.Succeeds? then Returned(response) else CompletionFailed;
      Leads(now, t, l, r, Completing(leaseEnd, lockEnd, response), env, i,
            At(env.clock(i), records, l, r, Releasing(leaseEnd, lockEnd, outcome)))
  {
    Unfold(At(now, t, l, r, Completing(leaseEnd, lockEnd, response)), 0, env, i);
  }

  lemma ReleaseLeads(now: int, t: Records, l: Locks, r: Request, env: Env, i: nat,
                     leaseEnd: int, lockEnd: Option<int>, outcome: Outcome)
    ensures Leads(now, t, l, r, Releasing(leaseEnd, lockEnd, outcome), env, i,
                  At(env.clock(i), t,
                     if lockEnd.Some? && r.resource.Some? then Released(l, r.resource.value, HolderKey(r)) else l,
                     r, Done(outcome)))
  {
    Unfold(At(now, t, l, r, Releasing(leaseEnd, lockEnd, outcome)), 0, env, i);
  }

  /** The store after some statements is the protocol's state after the same ones. */
  ghost function StateOf(store: SecurityRepository, now: int, r: Request, phase: Phase): System
    reads store
  {
    At(now, store.records, store.locks, r, phase)
  }

  /** beginIdempotency: acquired with the end of the lease, or an answer that needs no handler. */
  method Begin(store: SecurityRepository, r: Request, env: Env)
    returns (phase: Phase, i: nat, ghost now: int)
    modifies store`records
    ensures phase.Acquired? || phase.Done?
    ensures Finish(old(StateOf(store, 0, r, Sweeping)), 0, env, 0)
      == Finish(StateOf(store, now, r, phase), 0, env, i)
  {
    var k := r.identity;
    SweepLeads(0, store.records, store.locks, r, env, 0);
    store.SweepExpired(env.clock(0));

    InsertLeads(env.clock(0), store.records, store.locks, r, env, 1);
    var inserted := store.InsertClaim(k, r.requestHash, r.leaseSeconds, r.ttlSeconds, env.clock(1));
    if inserted {
      return Acquired(LeaseEnd(r, env.clock(1))), 2, env.clock(1);
    }

    SelectLeads(env.clock(1), store.records, store.locks, r, env, 2);
    var seen := Inspect(store.records, k, r.requestHash);
    if seen.Some? {
      return Done(Outcomes(seen.value)), 3, env.clock(2);
    }

    ReclaimLeads(env.clock(2), store.records, store.locks, r, env, 3);
    var reclaimed := store.ReclaimLease(k, r.requestHash, r.leaseSeconds, r.ttlSeconds, env.clock(3));
    return if reclaimed then Acquired(LeaseEnd(r, env.clock(3))) else Done(InProgress), 4, env.clock(3);
  }

  /** The handler's answer, the completion, and the release in `finally`, whether or not the completion fails. */
  method Handle(store: SecurityRepository, r: Request, env: Env, locked: bool, i: nat,
                ghost now: int, ghost leaseEnd: int, ghost lockEnd: Option<int>)
    returns (outcome: Outcome)
    requires locked == lockEnd.Some? && (locked ==> r.resource.Some?)
    modifies store
    ensures Finish(old(StateOf(store, now, r, Handling(leaseEnd, lockEnd))), 0, env, i)
      == StateOf(store, env.clock(i + 2), r, Done(outcome))
  {
    HandleLeads(now, store.records, store.locks, r, env, i, leaseEnd, lockEnd);
    CompleteLeads(env.clock(i), store.records, store.locks, r, env, i + 1, leaseEnd, lockEnd, env.reply);
    match env.completion {
      case Succeeds =>
        store.CompleteIdempotency(r.identity, r.requestHash, env.reply, r.ttlSeconds, env.clock(i + 1));
        outcome := Returned(env.reply);
      case FailsBefore =>
        outcome := CompletionFailed;
      case FailsAfter =>
        store.CompleteIdempotency(r.identity, r.requestHash, env.reply, r.ttlSeconds, env.clock(i + 1));
        outcome := CompletionFailed;
    }
    ReleaseLeads(env.clock(i + 1), store.records, store.locks, r, env, i + 2, leaseEnd, lockEnd, outcome);
    if locked {
      store.ReleaseMutationLock(r.resource.value, HolderKey(r));
    }
  }

  /** From the acquired lease on: the lock, then the handler or the abandoned claim. */
  method Mutate(store: SecurityRepository, r: Request, env: Env, i: nat,
                ghost now: int, ghost leaseEnd: int)
    returns (outcome: Outcome, ghost end: int)
    modifies store
    ensures Finish(old(StateOf(store, now, r, Acquired(leaseEnd))), 0, env, i)
      == StateOf(store, end, r, Done(outcome))
  {
    var locked := false;
    if r.resource.Some? && r.resource.value != "" {
      LockLeads(now, store.records, store.locks, r, env, i, leaseEnd);
      locked := store.AcquireMutationLock(r.resource.value, r.identity.ownerWallet, r.identity.operation,
                                          HolderKey(r), None, env.clock(i));
      if !locked {
        DenyLeads(env.clock(i), store.records, store.locks, r, env, i + 1, leaseEnd);
        store.AbandonIdempotency(r.identity, r.requestHash);
        return ConcurrentMutation, env.clock(i + 1);
      }
    } else {
      NoLockLeads(now, store.records, store.locks, r, env, i, leaseEnd);
    }
    outcome := Handle(store, r, env, locked, i + 1, env.clock(i), leaseEnd,
                      if locked then Some(env.clock(i) + LockSeconds(None) * SECOND) else None);
    end := env.clock(i + 3);
  }

  /** runIdempotentMutation. */
  method RunIdempotentMutation(store: SecurityRepository, r: Request, env: Env)
    returns (outcome: Outcome)
    modifies store
    ensures Effect(Finish(old(StateOf(store, 0, r, Sweeping)), 0, env, 0))
      == (store.records, store.locks, Done(outcome))
  {
    var phase, i;
    ghost var now;
    phase, i, now := Begin(store, r, env);
    if phase.Done? {
      return phase.outcome;
    }
    outcome, now := Mutate(store, r, env, i, now, phase.leaseEnd);
  }

  // ----- calling twice -----

  /**
    The claim an undisturbed caller works under is its own, and then holds its response unless completing had no
    effect.
   */
  predicate Tracked(s: System, r: Request, env: Env) {
    && 0 in s.callers && s.callers[0].request == r
    && match s.callers[0].phase
       case Acquired(_) => OpenFor(s.records, r.identity, r.requestHash)
       case Handling(_, _) => OpenFor(s.records, r.identity, r.requestHash)
       case Completing(_, _, response) => OpenFor(s.records, r.identity, r.requestHash) && response == env.reply
       case Releasing(_, _, outcome) => Settled(s.records, r, env, outcome)
       case Done(outcome) => Settled(s.records, r, env, outcome)
       case _ => true
  }

  /** What the record holds once its caller was answered. */
  predicate Settled(records: Records, r: Request, env: Env, outcome: Outcome) {
    && (outcome.Returned? ==> outcome.response == env.reply && env.completion.Succeeds?)
    && (outcome.CompletionFailed? ==> !env.completion.Succeeds?)
    && (outcome.Returned? || outcome.CompletionFailed? ==>
          if env.completion.FailsBefore? then OpenFor(records, r.identity, r.requestHash)
          else Answered(records, r, env.reply))
  }

  lemma NextKeepsTracked(s: System, r: Request, env: Env, i: nat)
    requires Tracked(s, r, env)
    ensures Tracked(Next(s, 0, env, i), r, env)
  {
  }

  lemma {:induction false} FinishKeepsTracked(s: System, r: Request, env: Env, i: nat)
    requires Tracked(s, r, env)
    ensures Tracked(Finish(s, 0, env, i), r, env)
    decreases Rank(s.callers[0].phase)
  {
    if s.callers[0].phase.Done? {
    } else {
      NextKeepsTracked(s, r, env, i);
      NextRank(s, 0, env, i);
      FinishKeepsTracked(Next(s, 0, env, i), r, env, i + 1);
    }
  }

  /** The handler ran: its answer was returned, or completing failed. */
  predicate Handled(outcome: Outcome) {
    outcome.Returned? || outcome.CompletionFailed?
  }

  /**
    A mutation whose completion took effect is not run again, even if the caller was told that completing failed:
    whatever the handler would answer the second time, the same request gets the first response back, and the tables
    stay as the sweep leaves them, until the record expires.
   */
  lemma RepeatIsReplayed(records: Records, locks: Locks, r: Request, env: Env, again: Env)
    requires var s := Finish(At(0, records, locks, r, Sweeping), 0, env, 0);
      && 0 in s.callers && s.callers[0].phase.Done? && Handled(s.callers[0].phase.outcome)
      && !env.completion.FailsBefore?
      && r.identity in s.records && again.clock(0) <= s.records[r.identity].expiresAt
    ensures var s := Finish(At(0, records, locks, r, Sweeping), 0, env, 0);
      Effect(Finish(At(0, s.records, s.locks, r, Sweeping), 0, again, 0))
      == (Swept(s.records, again.clock(0)), s.locks, Done(Replayed(env.reply)))
  {
    var s := Finish(At(0, records, locks, r, Sweeping), 0, env, 0);
    FinishKeepsTracked(At(0, records, locks, r, Sweeping), r, env, 0);
    ReplayFrom(s.records, s.locks, r, env.reply, again);
  }

  lemma ReplayFrom(records: Records, locks: Locks, r: Request, response: Response, again: Env)
    requires Answered(records, r, response) && again.clock(0) <= records[r.identity].expiresAt
    ensures Effect(Finish(At(0, records, locks, r, Sweeping), 0, again, 0))
      == (Swept(records, again.clock(0)), locks, Done(Replayed(response)))
  {
    var s1 := Next(At(0, records, locks, r, Sweeping), 0, again, 0);
    var s2 := Next(s1, 0, again, 1);
    assert s2.callers[0] == Caller(r, Selecting) && s2.records == Swept(records, again.clock(0));
    var s3 := Next(s2, 0, again, 2);
    assert s3.callers[0] == Caller(r, Done(Replayed(response)));
    assert Finish(s2, 0, again, 2) == Finish(s3, 0, again, 3) == s3;
    assert Finish(s1, 0, again, 1) == s3;
  }

  /** A caller that acquired the claim is not told that somebody else is at work. */
  predicate Engaged(phase: Phase) {
    || (phase.Leased() && (phase.Releasing? ==> Handled(phase.outcome)))
    || (phase.Done? && !phase.outcome.InProgress?)
  }

  lemma {:induction false} EngagedIsNotTurnedAway(s: System, env: Env, i: nat)
    requires 0 in s.callers && Engaged(s.callers[0].phase)
    ensures Engaged(Finish(s, 0, env, i).callers[0].phase)
    decreases Rank(s.callers[0].phase)
  {
    if s.callers[0].phase.Done? {
    } else {
      NextRank(s, 0, env, i);
      EngagedIsNotTurnedAway(Next(s, 0, env, i), env, i + 1);
    }
  }

  /**
    A mutation whose completion had no effect stays claimed: until the record expires a repetition is turned away
    exactly while the lease lasts, and takes the claim over afterwards.
   */
  lemma UnrecordedIsRetried(records: Records, locks: Locks, r: Request, env: Env, again: Env)
    requires var s := Finish(At(0, records, locks, r, Sweeping), 0, env, 0);
      && 0 in s.callers && s.callers[0].phase.Done? && Handled(s.callers[0].phase.outcome)
      && env.completion.FailsBefore?
      && r.identity in s.records && again.clock(0) <= s.records[r.identity].expiresAt
    ensures var s := Finish(At(0, records, locks, r, Sweeping), 0, env, 0);
      Effect(Finish(At(0, s.records, s.locks, r, Sweeping), 0, again, 0)).2 == Done(InProgress)
      <==> again.clock(3) < s.records[r.identity].leaseExpiresAt
  {
    var s := Finish(At(0, records, locks, r, Sweeping), 0, env, 0);
    FinishKeepsTracked(At(0, records, locks, r, Sweeping), r, env, 0);
    RetryFrom(s.records, s.locks, r, again);
  }

  lemma RetryFrom(records: Records, locks: Locks, r: Request, again: Env)
    requires OpenFor(records, r.identity, r.requestHash) && again.clock(0) <= records[r.identity].expiresAt
    ensures Effect(Finish(At(0, records, locks, r, Sweeping), 0, again, 0)).2 == Done(InProgress)
      <==> again.clock(3) < records[r.identity].leaseExpiresAt
  {
    var t := Swept(records, again.clock(0));
    SweepLeads(0, records, locks, r, again, 0);
    InsertLeads(again.clock(0), t, locks, r, again, 1);
    SelectLeads(again.clock(1), t, locks, r, again, 2);
    ReclaimLeads(again.clock(2), t, locks, r, again, 3);
    if again.clock(3) >= records[r.identity].leaseExpiresAt {
      var end := again.clock(3);
      var s := At(end, Reclaimed(t, r.identity, r.requestHash, r.leaseSeconds, r.ttlSeconds, end), locks, r,
                  Acquired(LeaseEnd(r, end)));
      EngagedIsNotTurnedAway(s, again, 4);
    }
  }

  // ----- the lock after the call -----

  /** A caller past its handler leaves no row of its own behind. */
  predicate Unlocks(s: System, r: Request)
    requires WantsLock(r)
  {
    && 0 in s.callers && s.callers[0].request == r
    && match s.callers[0].phase
       case Handling(_, lockEnd) => lockEnd.Some?
       case Completing(_, lockEnd, _) => lockEnd.Some?
       case Releasing(_, lockEnd, outcome) => lockEnd.Some?
       case Done(outcome) =>
         Handled(outcome) ==> r.resource.value in s.locks ==> s.locks[r.resource.value].holderKey != HolderKey(r)
       case _ => true
  }

  lemma {:induction false} FinishUnlocks(s: System, r: Request, env: Env, i: nat)
    requires WantsLock(r) && Unlocks(s, r)
    ensures Unlocks(Finish(s, 0, env, i), r)
    decreases Rank(s.callers[0].phase)
  {
    if s.callers[0].phase.Done? {
    } else {
      NextRank(s, 0, env, i);
      FinishUnlocks(Next(s, 0, env, i), r, env, i + 1);
    }
  }

  /** However completing ends, a caller that ran its handler under a lock leaves no lock of its own behind. */
  lemma LockIsReleased(records: Records, locks: Locks, r: Request, env: Env)
    requires WantsLock(r)
    requires var s := Finish(At(0, records, locks, r, Sweeping), 0, env, 0);
      0 in s.callers && s.callers[0].phase.Done? && Handled(s.callers[0].phase.outcome)
    ensures var s := Finish(At(0, records, locks, r, Sweeping), 0, env, 0);
      r.resource.value in s.locks ==> s.locks[r.resource.value].holderKey != HolderKey(r)
  {
    FinishUnlocks(At(0, records, locks, r, Sweeping), r, env, 0);
  }

  // ----- what one call answers -----

  /** The record the call finds: none once it has expired. */
  predicate Found(records: Records, r: Request, env: Env) {
    r.identity in records && env.clock(0) <= records[r.identity].expiresAt
  }

  /** The resource is held under another holder key when the lock statement runs. */
  predicate Blocked(locks: Locks, r: Request, at: int) {
    && r.resource.Some? && r.resource.value != "" && r.resource.value in locks
    && at < locks[r.resource.value].expiresAt && locks[r.resource.value].holderKey != HolderKey(r)
  }

  /** The answer of a caller that holds the claim, from its lock statement on. */
  function AnswerOf(locks: Locks, r: Request, env: Env, i: nat): Outcome {
    if Blocked(locks, r, env.clock(i)) then ConcurrentMutation
    else if env.completion.Succeeds? then Returned(env.reply)
    else CompletionFailed
  }

  lemma ClaimedAnswer(now: int, t: Records, l: Locks, r: Request, env: Env, i: nat, leaseEnd: int)
    requires OpenFor(t, r.identity, r.requestHash)
    ensures var f := Finish(At(now, t, l, r, Acquired(leaseEnd)), 0, env, i);
      && f.callers[0].phase == Done(AnswerOf(l, r, env, i))
      && (Blocked(l, r, env.clock(i)) ==> f.records == t - {r.identity} && f.locks == l)
      && (!Blocked(l, r, env.clock(i)) && !env.completion.FailsBefore? ==> Answered(f.records, r, env.reply))
      && (!Blocked(l, r, env.clock(i)) && env.completion.FailsBefore? ==> f.records == t)
  {
    if !WantsLock(r) {
      NoLockLeads(now, t, l, r, env, i, leaseEnd);
      HandledAnswer(env.clock(i), t, l, r, env, i + 1, leaseEnd, None);
    } else {
      var at := env.clock(i);
      LockLeads(now, t, l, r, env, i, leaseEnd);
      if Blocked(l, r, at) {
        DenyLeads(at, t, l, r, env, i + 1, leaseEnd);
      } else {
        var locks := Locked(l, r.resource.value, r.identity.ownerWallet, r.identity.operation, HolderKey(r), None, at);
        HandledAnswer(at, t, locks, r, env, i + 1, leaseEnd, Some(at + LockSeconds(None) * SECOND));
      }
    }
  }

  lemma HandledAnswer(now: int, t: Records, l: Locks, r: Request, env: Env, i: nat, leaseEnd: int, lockEnd: Option<int>)
    requires OpenFor(t, r.identity, r.requestHash)
    ensures var f := Finish(At(now, t, l, r, Handling(leaseEnd, lockEnd)), 0, env, i);
      && f.callers[0].phase == Done(if env.completion.Succeeds? then Returned(env.reply) else CompletionFailed)
      && (!env.completion.FailsBefore? ==> Answered(f.records, r, env.reply))
      && (env.completion.FailsBefore? ==> f.records == t)
  {
    HandleLeads(now, t, l, r, env, i, leaseEnd, lockEnd);
    CompleteLeads(env.clock(i), t, l, r, env, i + 1, leaseEnd, lockEnd, env.reply);
    var records := if env.completion.FailsBefore? then t
                   else Completed(t, r.identity, r.requestHash, env.reply, r.ttlSeconds, env.clock(i + 1));
    var outcome := if env.completion.Succeeds? then Returned(env.reply) else CompletionFailed;
    ReleaseLeads(env.clock(i + 1), records, l, r, env, i + 2, leaseEnd, lockEnd, outcome);
  }

  /**
    Every answer of a call that nobody interrupts: a conflict for another request under the same key, the recorded
    response of a completed one, a refusal while the lease of an open one lasts; otherwise the claim is its own, and it
    is refused while the resource is locked under another holder key, or answers what its handler did.
   */
  lemma CallAnswers(records: Records, locks: Locks, r: Request, env: Env)
    ensures Finish(At(0, records, locks, r, Sweeping), 0, env, 0).callers[0].phase == Done(
      if !Found(records, r, env) then AnswerOf(locks, r, env, 2)
      else if records[r.identity].requestHash != r.requestHash then Conflict
      else if records[r.identity].response.Some? then Replayed(records[r.identity].response.value)
      else if env.clock(3) < records[r.identity].leaseExpiresAt then InProgress
      else AnswerOf(locks, r, env, 4))
  {
    var t := Swept(records, env.clock(0));
    SweepLeads(0, records, locks, r, env, 0);
    InsertLeads(env.clock(0), t, locks, r, env, 1);
    if !Found(records, r, env) {
      var claimed := Claimed(t, r.identity, r.requestHash, r.leaseSeconds, r.ttlSeconds, env.clock(1));
      ClaimedAnswer(env.clock(1), claimed, locks, r, env, 2, LeaseEnd(r, env.clock(1)));
    } else {
      SelectLeads(env.clock(1), t, locks, r, env, 2);
      if Inspect(t, r.identity, r.requestHash).None? {
        ReclaimLeads(env.clock(2), t, locks, r, env, 3);
        if records[r.identity].leaseExpiresAt <= env.clock(3) {
          var reclaimed := Reclaimed(t, r.identity, r.requestHash, r.leaseSeconds, r.ttlSeconds, env.clock(3));
          ClaimedAnswer(env.clock(3), reclaimed, locks, r, env, 4, LeaseEnd(r, env.clock(3)));
        }
      }
    }
  }
}
