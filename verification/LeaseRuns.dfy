/**
  Runs from the empty store in which callers with requests the server accepts end up sharing a lease, a lock or a key
  with two answers.
 */
module LeaseRuns {
  import opened Basics
  import opened SecurityTables
  import opened LeaseProtocol
  import opened LeaseProofs
  import opened LockProofs
  import opened ResponseProofs
  import Base58
  import Numerals
  import Text

  // ----- Requests for one task -----

  /** Explicit keys are 8 to 128 letters, digits, dots, underscores, colons and hyphens. */
  lemma LegalKeysExactly(key: string)
    ensures LegalKey(key) <==>
      && 8 <= |key| && |key| <= 128
      && forall c :: c in key ==> c in Text.LOWER || c in Text.UPPER || c in Text.DIGITS || c in "._:-"
  {
    forall c: char
      ensures IsKeyChar(c) <==> c in Text.LOWER || c in Text.UPPER || c in Text.DIGITS || c in "._:-"
    {
      KeyCharExactly(c);
    }
    if LegalKey(key) {
      forall c | c in key ensures IsKeyChar(c) {
        var i :| 0 <= i < |key| && key[i] == c;
      }
    }
  }

  lemma KeyCharExactly(c: char)
    ensures IsKeyChar(c) <==> c in Text.LOWER || c in Text.UPPER || c in Text.DIGITS || c in "._:-"
  {
    Text.Runs();
    Text.InRun(Text.LOWER, 'a', c);
    Text.InRun(Text.UPPER, 'A', c);
    Text.InRun(Text.DIGITS, '0', c);
    assert c in "._:-" <==> c in {'.', '_', ':', '-'};
  }

  /** Legal holder keys are equal exactly when the keys and the first sixteen digits of the hashes are. */
  lemma HolderKeyExactly(a: Request, b: Request)
    requires LegalHash(a.requestHash) && LegalHash(b.requestHash)
    ensures HolderKey(a) == HolderKey(b)
      <==> a.identity.idempotencyKey == b.identity.idempotencyKey && a.requestHash[..16] == b.requestHash[..16]
  {
    if HolderKey(a) == HolderKey(b) {
      var n := |HolderKey(a)| - 17;
      assert a.identity.idempotencyKey == HolderKey(a)[..n] && b.identity.idempotencyKey == HolderKey(b)[..n];
      assert a.requestHash[..16] == HolderKey(a)[n + 1..] && b.requestHash[..16] == HolderKey(b)[n + 1..];
    }
  }

  /** apps/web/src/app/api/tasks/[id]/execute/route.ts. */
  function ExecuteTask(taskId: string, body: string): HttpCall {
    HttpCall("POST", "task.execute", Some("task:" + taskId + ":mutation"), body)
  }

  /** The request of the wallet with the given public key. */
  function Sent(server: Server, publicKey: seq<int>, key: string, call: HttpCall): Request
    requires Numerals.DigitsBelow(publicKey, 256)
  {
    RequestOf(server, Base58.Encode(publicKey), key, call)
  }

  lemma AddressIsNormal(publicKey: seq<int>)
    requires Numerals.DigitsBelow(publicKey, 256) && |publicKey| == Base58.KEY_BYTES
    ensures Base58.NormalizeWalletAddress(Base58.Encode(publicKey)) == Some(Base58.Encode(publicKey))
  {
    Base58.EveryKeyHasAnAddress(publicKey, "", "");
    var s := Base58.Encode(publicKey);
    assert "" + s + "" == s;
  }

  lemma SentIsLegal(server: Server, publicKey: seq<int>, key: string, taskId: string, body: string)
    requires LegalServer(server) && LegalKey(key)
    requires Numerals.DigitsBelow(publicKey, 256) && |publicKey| == Base58.KEY_BYTES
    ensures var r := Sent(server, publicKey, key, ExecuteTask(taskId, body)); LegalRequest(r) && WantsLock(r)
  {
    AddressIsNormal(publicKey);
    assert |"task:" + taskId + ":mutation"| > 0;
  }

  // ----- Building blocks -----

  lemma AlwaysConcat(s: System, a: seq<Event>, b: seq<Event>, good: (System, Event) -> bool)
    requires Always(s, a, good) && Always(Play(s, a), b, good)
    ensures Always(s, a + b, good)
  {
    forall i | 0 <= i < |a + b| ensures good(Play(s, (a + b)[..i]), (a + b)[i]) {
      if i < |a| {
        assert (a + b)[..i] == a[..i];
      } else {
        assert (a + b)[..i] == a + b[..i - |a|];
        PlayConcat(s, a, b[..i - |a|]);
      }
    }
  }

  lemma AlwaysOne(s: System, e: Event, good: (System, Event) -> bool)
    requires good(s, e)
    ensures Always(s, [e], good) && Play(s, [e]) == Step(s, e)
  {
    assert [e][..0] == [];
    PlaySnoc(s, [], e);
    assert [] + [e] == [e];
  }

  /** Arrival, sweep, failed insert, select and reclaim. */
  function TakingOver(id: nat, r: Request, reply: Response): seq<Event> {
    Claiming(id, r, reply) + [Run(id, reply), Run(id, reply)]
  }

  /** Arrival, sweep, failed insert and select. */
  function Repeating(id: nat, r: Request, reply: Response): seq<Event> {
    Claiming(id, r, reply) + [Run(id, reply)]
  }

  /** A newcomer that finds a record is about to look at it. */
  lemma Finds(s: System, id: nat, r: Request, reply: Response)
    requires id !in s.callers && r.identity in Swept(s.records, s.now)
    ensures Play(s, Claiming(id, r, reply))
      == System(s.now, Swept(s.records, s.now), s.locks, s.callers[id := Caller(r, Selecting)])
  {
    PlayThree(s, Arrive(id, r), Run(id, reply), Run(id, reply));
    var s1 := Step(s, Arrive(id, r));
    var s2 := Step(s1, Run(id, reply));
    assert s2.callers == s.callers[id := Caller(r, Inserting)];
    assert Step(s2, Run(id, reply)).callers == s.callers[id := Caller(r, Selecting)];
  }

  lemma TakesOver(s: System, id: nat, r: Request, reply: Response)
    requires id !in s.callers && Reclaimable(Swept(s.records, s.now), r.identity, r.requestHash, s.now)
    ensures Play(s, TakingOver(id, r, reply)) == System(
      s.now,
      Reclaimed(Swept(s.records, s.now), r.identity, r.requestHash, r.leaseSeconds, r.ttlSeconds, s.now),
      s.locks,
      s.callers[id := Caller(r, Acquired(LeaseEnd(r, s.now)))])
  {
    Finds(s, id, r, reply);
    var s3 := Play(s, Claiming(id, r, reply));
    PlayConcat(s, Claiming(id, r, reply), [Run(id, reply), Run(id, reply)]);
    PlayTwo(s3, Run(id, reply), Run(id, reply));
    var s4 := Step(s3, Run(id, reply));
    assert s4.callers == s.callers[id := Caller(r, Reclaiming)];
    assert Step(s4, Run(id, reply)).callers == s.callers[id := Caller(r, Acquired(LeaseEnd(r, s.now)))];
  }

  /** The same with the new table and the end of the lease given. */
  lemma TakesOverTo(s: System, id: nat, r: Request, reply: Response, end: int, records: Records)
    requires id !in s.callers && LeaseEnd(r, s.now) == end
    requires Swept(s.records, s.now) == s.records && Reclaimable(s.records, r.identity, r.requestHash, s.now)
    requires Reclaimed(s.records, r.identity, r.requestHash, r.leaseSeconds, r.ttlSeconds, s.now) == records
    ensures Play(s, TakingOver(id, r, reply))
      == System(s.now, records, s.locks, s.callers[id := Caller(r, Acquired(end))])
  {
    TakesOver(s, id, r, reply);
  }

  lemma Repeats(s: System, id: nat, r: Request, reply: Response, response: Response)
    requires id !in s.callers && Answered(Swept(s.records, s.now), r, response)
    ensures Play(s, Repeating(id, r, reply))
      == System(s.now, Swept(s.records, s.now), s.locks, s.callers[id := Caller(r, Done(Replayed(response)))])
  {
    Finds(s, id, r, reply);
    PlaySnoc(s, Claiming(id, r, reply), Run(id, reply));
    assert Step(Play(s, Claiming(id, r, reply)), Run(id, reply)).callers
      == s.callers[id := Caller(r, Done(Replayed(response)))];
  }

  lemma TakingOverIsUnleased(s: System, id: nat, r: Request, reply: Response)
    requires id !in s.callers && r.identity in Swept(s.records, s.now)
    ensures Always(s, TakingOver(id, r, reply), Unleased)
  {
    ClaimingIsUnleased(s, id, r, reply);
    Finds(s, id, r, reply);
    var s3 := Play(s, Claiming(id, r, reply));
    AlwaysOne(s3, Run(id, reply), Unleased);
    AlwaysSnoc(s3, [Run(id, reply)], Run(id, reply), Unleased);
    assert [Run(id, reply)] + [Run(id, reply)] == [Run(id, reply), Run(id, reply)];
    AlwaysConcat(s, Claiming(id, r, reply), [Run(id, reply), Run(id, reply)], Unleased);
  }

  lemma ClaimingIsTimely(s: System, id: nat, r: Request, reply: Response)
    requires id !in s.callers
    ensures Always(s, Claiming(id, r, reply), Prompt)
  {
    ClaimingIsUnleased(s, id, r, reply);
    AlwaysWeaker(s, Claiming(id, r, reply), Unleased, Prompt);
  }

  lemma TakingOverIsTimely(s: System, id: nat, r: Request, reply: Response)
    requires id !in s.callers && r.identity in Swept(s.records, s.now)
    ensures Always(s, TakingOver(id, r, reply), Prompt)
  {
    TakingOverIsUnleased(s, id, r, reply);
    AlwaysWeaker(s, TakingOver(id, r, reply), Unleased, Prompt);
  }

  /** The statements up to the lock. */
  function Locking(id: nat, r: Request, reply: Response): seq<Event> {
    Claiming(id, r, reply) + [Run(id, reply)]
  }

  /** A newcomer with a free identity holds its lease, and its lock unless somebody else has it. */
  lemma LockingState(s: System, id: nat, r: Request, reply: Response)
    requires id !in s.callers && r.identity !in Swept(s.records, s.now) && WantsLock(r)
    ensures var granted := Lockable(s.locks, r.resource.value, HolderKey(r), s.now);
      Play(s, Locking(id, r, reply)) == System(
        s.now,
        Claimed(Swept(s.records, s.now), r.identity, r.requestHash, r.leaseSeconds, r.ttlSeconds, s.now),
        Locked(s.locks, r.resource.value, r.identity.ownerWallet, r.identity.operation, HolderKey(r), None, s.now),
        s.callers[id := Caller(r, if granted then Handling(LeaseEnd(r, s.now), Some(s.now + 300 * SECOND))
                                  else LockDenied(LeaseEnd(r, s.now)))])
  {
    Claims(s, id, r, reply);
    PlaySnoc(s, Claiming(id, r, reply), Run(id, reply));
    AskingFrom(
      s, Claimed(Swept(s.records, s.now), r.identity, r.requestHash, r.leaseSeconds, r.ttlSeconds, s.now),
      id, r, LeaseEnd(r, s.now), reply);
  }

  lemma AskingFrom(s: System, records: Records, id: nat, r: Request, leaseEnd: int, reply: Response)
    requires WantsLock(r)
    ensures var granted := Lockable(s.locks, r.resource.value, HolderKey(r), s.now);
      Step(System(s.now, records, s.locks, s.callers[id := Caller(r, Acquired(leaseEnd))]), Run(id, reply)) == System(
        s.now,
        records,
        Locked(s.locks, r.resource.value, r.identity.ownerWallet, r.identity.operation, HolderKey(r), None, s.now),
        s.callers[id := Caller(r, if granted then Handling(leaseEnd, Some(s.now + 300 * SECOND))
                                  else LockDenied(leaseEnd))])
  {
    AskingState(System(s.now, records, s.locks, s.callers[id := Caller(r, Acquired(leaseEnd))]), s.callers, id, r,
                leaseEnd, reply);
  }

  lemma AskingState(s: System, others: map<nat, Caller>, id: nat, r: Request, leaseEnd: int, reply: Response)
    requires WantsLock(r) && s.callers == others[id := Caller(r, Acquired(leaseEnd))]
    ensures var granted := Lockable(s.locks, r.resource.value, HolderKey(r), s.now);
      Step(s, Run(id, reply)) == System(
        s.now,
        s.records,
        Locked(s.locks, r.resource.value, r.identity.ownerWallet, r.identity.operation, HolderKey(r), None, s.now),
        others[id := Caller(r, if granted then Handling(leaseEnd, Some(s.now + 300 * SECOND))
                               else LockDenied(leaseEnd))])
  {
    AskedLock(s, id, reply);
    Overwritten(others, id, Caller(r, Acquired(leaseEnd)), Step(s, Run(id, reply)).callers[id]);
  }

  lemma Overwritten(callers: map<nat, Caller>, id: nat, a: Caller, b: Caller)
    ensures callers[id := a][id := b] == callers[id := b]
  {
  }

  lemma LockingIsPrompt(s: System, id: nat, r: Request, reply: Response)
    requires id !in s.callers && r.identity !in Swept(s.records, s.now)
    ensures Always(s, Locking(id, r, reply), Prompt)
  {
    Claims(s, id, r, reply);
    ClaimingIsTimely(s, id, r, reply);
    AlwaysSnoc(s, Claiming(id, r, reply), Run(id, reply), Prompt);
  }

  lemma LockingKeepsLeases(s: System, id: nat, r: Request, reply: Response)
    requires LeaseInvariant(s) && id !in s.callers && r.identity !in Swept(s.records, s.now)
    ensures LeaseInvariant(Play(s, Locking(id, r, reply)))
  {
    Claims(s, id, r, reply);
    ClaimingIsUnleased(s, id, r, reply);
    UnleasedRun(s, Claiming(id, r, reply));
    LeaseStep(Play(s, Claiming(id, r, reply)), Run(id, reply));
    PlaySnoc(s, Claiming(id, r, reply), Run(id, reply));
  }

  lemma TakingOverKeepsLeases(s: System, id: nat, r: Request, reply: Response)
    requires LeaseInvariant(s) && id !in s.callers && r.identity in Swept(s.records, s.now)
    ensures LeaseInvariant(Play(s, TakingOver(id, r, reply)))
  {
    TakingOverIsUnleased(s, id, r, reply);
    UnleasedRun(s, TakingOver(id, r, reply));
  }

  // ----- A shared holder key -----

  /** One caller after the other, at the same moment. */
  function BothLocking(a: Request, b: Request, reply: Response): seq<Event> {
    Locking(0, a, reply) + Locking(1, b, reply)
  }

  /**
    Two identities with one holder key hold the same lock at once, in a run from the empty store in which nobody is
    late.
   */
  lemma SharedHolderKeySharesLock(now: int, a: Request, b: Request, reply: Response)
    requires DefaultTimes(a) && DefaultTimes(b) && WantsLock(a) && a.resource == b.resource
    requires a.identity != b.identity && HolderKey(a) == HolderKey(b)
    ensures Always(Start(now), BothLocking(a, b, reply), Prompt)
    ensures var s := Play(Start(now), BothLocking(a, b, reply));
      && HoldsLock(s, 0) && HoldsLock(s, 1) && s.callers[0].request == a && s.callers[1].request == b
      && !LocksExclusive(s)
  {
    var s0 := Start(now);
    LockingState(s0, 0, a, reply);
    LockingIsPrompt(s0, 0, a, reply);
    var s1 := Play(s0, Locking(0, a, reply));
    LockingState(s1, 1, b, reply);
    LockingIsPrompt(s1, 1, b, reply);
    PlayConcat(s0, Locking(0, a, reply), Locking(1, b, reply));
    AlwaysConcat(s0, Locking(0, a, reply), Locking(1, b, reply), Prompt);
    var s := Play(s0, BothLocking(a, b, reply));
    assert HoldsLock(s, 0) && HoldsLock(s, 1);
  }

  /** Two wallets that execute one task with one body under one idempotency key: the fingerprint names no owner. */
  lemma TwoWalletsShareTheTaskLock(now: int, server: Server, alice: seq<int>, bob: seq<int>,
                                   key: string, taskId: string,
                                   body: string, reply: Response)
    requires LegalServer(server) && LegalKey(key)
    requires Numerals.DigitsBelow(alice, 256) && Numerals.DigitsBelow(bob, 256)
    requires |alice| == |bob| == Base58.KEY_BYTES && alice != bob
    ensures var call := ExecuteTask(taskId, body);
      var a, b := Sent(server, alice, key, call), Sent(server, bob, key, call);
      && LegalRequest(a) && LegalRequest(b)
      && Always(Start(now), BothLocking(a, b, reply), Prompt)
      && !LocksExclusive(Play(Start(now), BothLocking(a, b, reply)))
  {
    var call := ExecuteTask(taskId, body);
    var a, b := Sent(server, alice, key, call), Sent(server, bob, key, call);
    SentIsLegal(server, alice, key, taskId, body);
    SentIsLegal(server, bob, key, taskId, body);
    Base58.DecodeEncode(alice);
    Base58.DecodeEncode(bob);
    SharedHolderKeySharesLock(now, a, b, reply);
  }

  // ----- A late abandon -----

  /** Two requests for one resource under different holder keys; the second is tried again a lease later. */
  function Contending(busy: Request, slow: Request, reply: Response): seq<Event> {
    (Locking(0, busy, reply) + Locking(1, slow, reply)) + ([Tick(300 * SECOND)] + TakingOver(2, slow, reply))
  }

  /** The second caller is denied the lock, and neither claim is completed. */
  ghost predicate SlowIsDenied(s: System, now: int, slow: Request) {
    && LeaseInvariant(s) && s.now == now && s.callers.Keys == {0, 1}
    && s.callers[1] == Caller(slow, LockDenied(now + 300 * SECOND))
    && slow.identity in s.records
    && s.records[slow.identity]
       == Record(slow.requestHash, None, now + 300 * SECOND, now + TtlSeconds(slow.ttlSeconds) * SECOND)
  }

  lemma SlowComesSecond(now: int, busy: Request, slow: Request, reply: Response)
    requires DefaultTimes(busy) && DefaultTimes(slow) && WantsLock(busy) && busy.resource == slow.resource
    requires busy.identity != slow.identity && HolderKey(busy) != HolderKey(slow)
    ensures var events := Locking(0, busy, reply) + Locking(1, slow, reply);
      Always(Start(now), events, Prompt) && SlowIsDenied(Play(Start(now), events), now, slow)
  {
    var s0 := Start(now);
    LockingState(s0, 0, busy, reply);
    LockingKeepsLeases(s0, 0, busy, reply);
    FirstTables(now, busy);
    var s1 := Play(s0, Locking(0, busy, reply));
    PlayConcat(s0, Locking(0, busy, reply), Locking(1, slow, reply));
    BusyIsInTheWay(s1, now, slow, reply);
    LockingIsPrompt(s0, 0, busy, reply);
    LockingIsPrompt(s1, 1, slow, reply);
    AlwaysConcat(s0, Locking(0, busy, reply), Locking(1, slow, reply), Prompt);
  }

  lemma BusyIsInTheWay(s: System, now: int, slow: Request, reply: Response)
    requires DefaultTimes(slow) && WantsLock(slow) && slow.identity !in s.records
    requires LeaseInvariant(s) && s.now == now && s.callers.Keys == {0}
    requires !Lockable(s.locks, slow.resource.value, HolderKey(slow), now)
    ensures SlowIsDenied(Play(s, Locking(1, slow, reply)), now, slow)
  {
    LockingState(s, 1, slow, reply);
    LockingKeepsLeases(s, 1, slow, reply);
    NewClaim(Swept(s.records, now), slow, now);
  }

  lemma NewClaim(t: Records, r: Request, now: int)
    requires DefaultTimes(r) && r.identity !in t
    ensures var t' := Claimed(t, r.identity, r.requestHash, r.leaseSeconds, r.ttlSeconds, now);
      && r.identity in t'
      && t'[r.identity] == Record(r.requestHash, None, now + 300 * SECOND, now + TtlSeconds(r.ttlSeconds) * SECOND)
    ensures LeaseEnd(r, now) == now + 300 * SECOND
  {
  }

  /** A lease later the third caller takes the claim over while the second still believes in its lease. */
  lemma SlowIsTakenOver(s: System, now: int, slow: Request, reply: Response)
    requires SlowIsDenied(s, now, slow) && DefaultTimes(slow)
    ensures Always(s, [Tick(300 * SECOND)] + TakingOver(2, slow, reply), Prompt)
    ensures var s' := Play(s, [Tick(300 * SECOND)] + TakingOver(2, slow, reply));
      && LeaseInvariant(s') && s'.callers.Keys == {0, 1, 2} && HoldsLease(s', 2) && s'.callers[2].request == slow
      && s'.callers[1] == Caller(slow, LockDenied(now + 300 * SECOND))
      && OpenFor(s'.records, slow.identity, slow.requestHash)
  {
    var s3 := Step(s, Tick(300 * SECOND));
    AlwaysOne(s, Tick(300 * SECOND), Prompt);
    LeaseStep(s, Tick(300 * SECOND));
    TakesOver(s3, 2, slow, reply);
    TakingOverKeepsLeases(s3, 2, slow, reply);
    TakingOverIsTimely(s3, 2, slow, reply);
    PlayConcat(s, [Tick(300 * SECOND)], TakingOver(2, slow, reply));
    AlwaysConcat(s, [Tick(300 * SECOND)], TakingOver(2, slow, reply), Prompt);
  }

  lemma ContendingRun(now: int, busy: Request, slow: Request, reply: Response)
    requires DefaultTimes(busy) && DefaultTimes(slow) && WantsLock(busy) && busy.resource == slow.resource
    requires busy.identity != slow.identity && HolderKey(busy) != HolderKey(slow)
    ensures Always(Start(now), Contending(busy, slow, reply), Prompt)
    ensures var s := Play(Start(now), Contending(busy, slow, reply));
      && LeaseInvariant(s) && s.callers.Keys == {0, 1, 2} && HoldsLease(s, 2) && s.callers[2].request == slow
      && s.callers[1] == Caller(slow, LockDenied(now + 300 * SECOND))
      && OpenFor(s.records, slow.identity, slow.requestHash)
  {
    SlowComesSecond(now, busy, slow, reply);
    var first := Locking(0, busy, reply) + Locking(1, slow, reply);
    var second := [Tick(300 * SECOND)] + TakingOver(2, slow, reply);
    SlowIsTakenOver(Play(Start(now), first), now, slow, reply);
    PlayConcat(Start(now), first, second);
    AlwaysConcat(Start(now), first, second, Prompt);
  }

  /**
    For any two requests for one resource under different holder keys there is a run from the empty store whose only
    late step is one abandon, and in which two callers end up with a live lease on one identity.
   */
  lemma LateAbandonHappens(now: int, busy: Request, slow: Request, reply: Response)
    requires DefaultTimes(busy) && DefaultTimes(slow) && WantsLock(busy) && busy.resource == slow.resource
    requires busy.identity != slow.identity && HolderKey(busy) != HolderKey(slow)
    ensures var before := Contending(busy, slow, reply);
      var s := Play(Start(now), before + [Run(1, reply)]);
      && Always(Start(now), before, Prompt) && Always(s, Claiming(3, slow, reply), Prompt)
      && !LeasesExclusive(Play(Start(now), before + [Run(1, reply)] + Claiming(3, slow, reply)))
  {
    ContendingRun(now, busy, slow, reply);
    var s := Play(Start(now), Contending(busy, slow, reply));
    LateAbandonBreaksExclusion(s, 1, 2, 3, slow, reply);
    PlaySnoc(Start(now), Contending(busy, slow, reply), Run(1, reply));
    PlayConcat(Start(now), Contending(busy, slow, reply) + [Run(1, reply)], Claiming(3, slow, reply));
    ClaimingIsTimely(Step(s, Run(1, reply)), 3, slow, reply);
  }

  /** Two requests of one wallet for one task. */
  lemma LateAbandonOfATask(now: int, server: Server, wallet: seq<int>, key: string, other: string, taskId: string,
                           body: string, reply: Response)
    requires LegalServer(server) && LegalKey(key) && LegalKey(other) && key != other
    requires Numerals.DigitsBelow(wallet, 256) && |wallet| == Base58.KEY_BYTES
    ensures var call := ExecuteTask(taskId, body);
      var busy, slow := Sent(server, wallet, key, call), Sent(server, wallet, other, call);
      var events := Contending(busy, slow, reply) + [Run(1, reply)] + Claiming(3, slow, reply);
      LegalRequest(busy) && LegalRequest(slow) && !LeasesExclusive(Play(Start(now), events))
  {
    var call := ExecuteTask(taskId, body);
    TwoKeysOfATask(server, wallet, key, other, taskId, body);
    LateAbandonHappens(now, Sent(server, wallet, key, call), Sent(server, wallet, other, call), reply);
  }

  lemma TwoKeysOfATask(server: Server, wallet: seq<int>, key: string, other: string, taskId: string, body: string)
    requires LegalServer(server) && LegalKey(key) && LegalKey(other) && key != other
    requires Numerals.DigitsBelow(wallet, 256) && |wallet| == Base58.KEY_BYTES
    ensures var call := ExecuteTask(taskId, body);
      var a, b := Sent(server, wallet, key, call), Sent(server, wallet, other, call);
      && LegalRequest(a) && LegalRequest(b) && WantsLock(a) && a.resource == b.resource
      && a.identity != b.identity && HolderKey(a) != HolderKey(b)
  {
    var call := ExecuteTask(taskId, body);
    SentIsLegal(server, wallet, key, taskId, body);
    SentIsLegal(server, wallet, other, taskId, body);
    HolderKeyExactly(Sent(server, wallet, key, call), Sent(server, wallet, other, call));
  }

  // ----- A late caller whose claim was taken over -----

  /**
    A caller is still in its handler when its lease ends; a second caller repeats the request, takes the claim and
    the lock over under the same holder key, and is in its own handler.
   */
  function Overtaking(r: Request, first: Response, second: Response): seq<Event> {
    (Locking(0, r, first) + [Run(0, first), Tick(300 * SECOND)]) + (TakingOver(1, r, second) + [Run(1, second)])
  }

  /** The only record: an open claim made at `at`. */
  function OpenClaim(r: Request, leaseEnd: int, at: int): Records {
    map[r.identity := Record(r.requestHash, None, leaseEnd, at + TtlSeconds(r.ttlSeconds) * SECOND)]
  }

  /** The only lock. */
  function LockRow(r: Request, end: int): Locks
    requires WantsLock(r)
  {
    map[r.resource.value := Lock(r.identity.ownerWallet, r.identity.operation, HolderKey(r), end)]
  }

  /** The only caller, whose lease and lock ended while its handler ran. */
  function SlowCaller(r: Request, end: int, first: Response): map<nat, Caller> {
    map[0 := Caller(r, Completing(end, Some(end), first))]
  }

  function Overtaken(now: int, r: Request, first: Response): System
    requires WantsLock(r)
  {
    var later := now + 300 * SECOND;
    var end := later + 300 * SECOND;
    System(later, OpenClaim(r, end, later), LockRow(r, end),
           SlowCaller(r, later, first)[1 := Caller(r, Handling(end, Some(end)))])
  }

  lemma FirstIsSlow(now: int, r: Request, first: Response)
    requires DefaultTimes(r) && WantsLock(r)
    ensures Always(Start(now), Locking(0, r, first) + [Run(0, first), Tick(300 * SECOND)], Prompt)
    ensures var s := Play(Start(now), Locking(0, r, first) + [Run(0, first), Tick(300 * SECOND)]);
      var later := now + 300 * SECOND;
      && LeaseInvariant(s) && s.now == later
      && s.records == OpenClaim(r, later, now) && s.locks == LockRow(r, later)
      && s.callers == SlowCaller(r, later, first)
  {
    var s0 := Start(now);
    LockingState(s0, 0, r, first);
    LockingKeepsLeases(s0, 0, r, first);
    var s1 := Play(s0, Locking(0, r, first));
    PlayConcat(s0, Locking(0, r, first), [Run(0, first), Tick(300 * SECOND)]);
    FirstTables(now, r);
    assert s1.callers == map[0 := Caller(r, Handling(now + 300 * SECOND, Some(now + 300 * SECOND)))];
    HandlerIsSlow(s1, r, now + 300 * SECOND, first);
    LockingIsPrompt(s0, 0, r, first);
    AlwaysConcat(s0, Locking(0, r, first), [Run(0, first), Tick(300 * SECOND)], Prompt);
  }

  lemma FirstTables(now: int, r: Request)
    requires DefaultTimes(r) && WantsLock(r)
    ensures Claimed(Swept(map[], now), r.identity, r.requestHash, r.leaseSeconds, r.ttlSeconds, now)
      == OpenClaim(r, now + 300 * SECOND, now)
    ensures Locked(map[], r.resource.value, r.identity.ownerWallet, r.identity.operation, HolderKey(r), None, now)
      == LockRow(r, now + 300 * SECOND)
    ensures LeaseEnd(r, now) == now + 300 * SECOND
  {
    assert Swept(map[], now) == map[];
  }

  lemma HandlerIsSlow(s: System, r: Request, end: int, first: Response)
    requires LeaseInvariant(s) && s.now < end && s.callers == map[0 := Caller(r, Handling(end, Some(end)))]
    ensures Always(s, [Run(0, first), Tick(300 * SECOND)], Prompt)
    ensures var s' := Play(s, [Run(0, first), Tick(300 * SECOND)]);
      && LeaseInvariant(s') && s'.now == s.now + 300 * SECOND && s'.records == s.records && s'.locks == s.locks
      && s'.callers == SlowCaller(r, end, first)
  {
    PlayTwo(s, Run(0, first), Tick(300 * SECOND));
    LeaseStep(s, Run(0, first));
    LeaseStep(Step(s, Run(0, first)), Tick(300 * SECOND));
    AlwaysOne(s, Run(0, first), Prompt);
    AlwaysSnoc(s, [Run(0, first)], Tick(300 * SECOND), Prompt);
    assert [Run(0, first)] + [Tick(300 * SECOND)] == [Run(0, first), Tick(300 * SECOND)];
  }

  lemma OvertakingRun(now: int, r: Request, first: Response, second: Response)
    requires DefaultTimes(r) && WantsLock(r)
    ensures Always(Start(now), Overtaking(r, first, second), Prompt)
    ensures Play(Start(now), Overtaking(r, first, second)) == Overtaken(now, r, first)
    ensures LeaseInvariant(Overtaken(now, r, first))
  {
    FirstIsSlow(now, r, first);
    var prefix := Locking(0, r, first) + [Run(0, first), Tick(300 * SECOND)];
    OvertakingEnd(Play(Start(now), prefix), now, r, first, second);
    PlayConcat(Start(now), prefix, TakingOver(1, r, second) + [Run(1, second)]);
    AlwaysConcat(Start(now), prefix, TakingOver(1, r, second) + [Run(1, second)], Prompt);
  }

  lemma OvertakingEnd(s: System, now: int, r: Request, first: Response, second: Response)
    requires DefaultTimes(r) && WantsLock(r) && LeaseInvariant(s)
    requires var later := now + 300 * SECOND;
      && s.now == later
      && s.records == OpenClaim(r, later, now) && s.locks == LockRow(r, later)
      && s.callers == SlowCaller(r, later, first)
    ensures Always(s, TakingOver(1, r, second) + [Run(1, second)], Prompt)
    ensures Play(s, TakingOver(1, r, second) + [Run(1, second)]) == Overtaken(now, r, first)
    ensures LeaseInvariant(Overtaken(now, r, first))
  {
    SecondTakesOver(s, now, r, first, second);
    SecondLocks(now, r, first, second);
    SecondSweep(now, r);
    TakingOverKeepsLeases(s, 1, r, second);
    LeaseStep(Reopened(now, r, first), Run(1, second));
    PlaySnoc(s, TakingOver(1, r, second), Run(1, second));
    TakingOverIsTimely(s, 1, r, second);
    AlwaysSnoc(s, TakingOver(1, r, second), Run(1, second), Prompt);
  }

  lemma SecondSweep(now: int, r: Request)
    requires DefaultTimes(r)
    ensures Swept(OpenClaim(r, now + 300 * SECOND, now), now + 300 * SECOND) == OpenClaim(r, now + 300 * SECOND, now)
  {
  }

  /** The second caller after its reclaim. */
  function Reopened(now: int, r: Request, first: Response): System
    requires WantsLock(r)
  {
    var later := now + 300 * SECOND;
    var end := later + 300 * SECOND;
    System(later, OpenClaim(r, end, later), LockRow(r, later),
           SlowCaller(r, later, first)[1 := Caller(r, Acquired(end))])
  }

  lemma SecondTakesOver(s: System, now: int, r: Request, first: Response, second: Response)
    requires DefaultTimes(r) && WantsLock(r)
    requires var later := now + 300 * SECOND;
      && s.now == later
      && s.records == OpenClaim(r, later, now) && s.locks == LockRow(r, later)
      && s.callers == SlowCaller(r, later, first)
    ensures Play(s, TakingOver(1, r, second)) == Reopened(now, r, first)
  {
    SecondSweep(now, r);
    SecondReclaims(now, r);
    TakesOverTo(s, 1, r, second, now + 600 * SECOND, OpenClaim(r, now + 600 * SECOND, now + 300 * SECOND));
  }

  lemma SecondReclaims(now: int, r: Request)
    requires DefaultTimes(r)
    ensures var t, later := OpenClaim(r, now + 300 * SECOND, now), now + 300 * SECOND;
      && Reclaimable(t, r.identity, r.requestHash, later)
      && Reclaimed(t, r.identity, r.requestHash, r.leaseSeconds, r.ttlSeconds, later)
         == OpenClaim(r, now + 600 * SECOND, later)
      && LeaseEnd(r, later) == now + 600 * SECOND
  {
  }

  lemma SecondLocks(now: int, r: Request, first: Response, second: Response)
    requires DefaultTimes(r) && WantsLock(r)
    ensures Step(Reopened(now, r, first), Run(1, second)) == Overtaken(now, r, first)
  {
    RowIsRenewed(now + 300 * SECOND, r);
    AskingState(Reopened(now, r, first), SlowCaller(r, now + 300 * SECOND, first), 1, r, now + 600 * SECOND, second);
  }

  lemma RowIsRenewed(now: int, r: Request)
    requires WantsLock(r)
    ensures Lockable(LockRow(r, now), r.resource.value, HolderKey(r), now)
    ensures Locked(LockRow(r, now), r.resource.value, r.identity.ownerWallet, r.identity.operation,
                   HolderKey(r), None, now)
      == LockRow(r, now + 300 * SECOND)
  {
  }

  /**
    For any request that names a resource and any two answers of its handler there is a run whose only late step is
    one completion, and in which one caller returns one answer while a later repetition is given the other.
   */
  lemma LateCompletionHappens(now: int, r: Request, first: Response, second: Response)
    requires DefaultTimes(r) && WantsLock(r)
    ensures var before := Overtaking(r, first, second) + [Run(1, second), Run(1, second)];
      var after := Play(Start(now), before + [Run(0, first)]);
      var s := Play(Start(now), before + [Run(0, first)] + Repeating(2, r, first));
      && Always(Start(now), before, Prompt) && Always(after, Repeating(2, r, first), Prompt)
      && s.callers.Keys == {0, 1, 2}
      && s.callers[0].phase.Releasing? && s.callers[0].phase.outcome == Returned(first)
      && s.callers[2] == Caller(r, Done(Replayed(second)))
  {
    OvertakingRun(now, r, first, second);
    var s := Overtaken(now, r, first);
    var before := Overtaking(r, first, second) + [Run(1, second), Run(1, second)];
    LateCompletion(now, r, first, second);
    PlayConcat(Start(now), Overtaking(r, first, second), [Run(1, second), Run(1, second)]);
    AlwaysConcat(Start(now), Overtaking(r, first, second), [Run(1, second), Run(1, second)], Prompt);
    PlaySnoc(Start(now), before, Run(0, first));
    PlayConcat(Start(now), before + [Run(0, first)], Repeating(2, r, first));
    var after := Play(Start(now), before + [Run(0, first)]);
    Repeats(after, 2, r, first, second);
    RepeatingIsTimely(after, 2, r, first);
  }

  lemma RepeatingIsTimely(s: System, id: nat, r: Request, reply: Response)
    requires id !in s.callers && r.identity in Swept(s.records, s.now)
    ensures Always(s, Repeating(id, r, reply), Prompt)
  {
    ClaimingIsTimely(s, id, r, reply);
    Finds(s, id, r, reply);
    AlwaysSnoc(s, Claiming(id, r, reply), Run(id, reply), Prompt);
  }

  lemma LateCompletion(now: int, r: Request, first: Response, second: Response)
    requires WantsLock(r)
    ensures var s := Overtaken(now, r, first);
      var s2 := Play(s, [Run(1, second), Run(1, second)]);
      var s3 := Step(s2, Run(0, first));
      && Always(s, [Run(1, second), Run(1, second)], Prompt)
      && s3.callers.Keys == {0, 1} && Answered(Swept(s3.records, s3.now), r, second)
      && s3.callers[0].phase.Releasing? && s3.callers[0].phase.outcome == Returned(first)
  {
    var s := Overtaken(now, r, first);
    PlayTwo(s, Run(1, second), Run(1, second));
    var s1 := Step(s, Run(1, second));
    CompletingStep(s1, 1, second);
    CompletingStep(Step(s1, Run(1, second)), 0, first);
    SecondIsTimely(now, r, first, second);
  }

  lemma SecondIsTimely(now: int, r: Request, first: Response, second: Response)
    requires WantsLock(r)
    ensures Always(Overtaken(now, r, first), [Run(1, second), Run(1, second)], Prompt)
  {
    var s := Overtaken(now, r, first);
    AlwaysOne(s, Run(1, second), Prompt);
    AlwaysSnoc(s, [Run(1, second)], Run(1, second), Prompt);
    assert [Run(1, second)] + [Run(1, second)] == [Run(1, second), Run(1, second)];
  }

  /**
    For any request and any other request for the same resource under another holder key there is a run
    whose late steps are one completion and one release, and in which two callers end up holding the resource.
   */
  lemma LateReleaseHappens(now: int, r: Request, other: Request, first: Response, second: Response)
    requires DefaultTimes(r) && DefaultTimes(other) && WantsLock(r) && r.resource == other.resource
    requires r.identity != other.identity && HolderKey(r) != HolderKey(other)
    ensures var before := Overtaking(r, first, second);
      var s := Play(Start(now), before + [Run(0, first)] + [Run(0, first)]);
      && Always(Start(now), before, Prompt) && Always(s, Locking(2, other, first), Prompt)
      && !LocksExclusive(Play(Start(now), before + [Run(0, first)] + [Run(0, first)] + Locking(2, other, first)))
  {
    OvertakingRun(now, r, first, second);
    var before := Overtaking(r, first, second);
    StrangerAfterRelease(now, r, other, first);
    PlaySnoc(Start(now), before, Run(0, first));
    PlaySnoc(Start(now), before + [Run(0, first)], Run(0, first));
    PlayConcat(Start(now), before + [Run(0, first)] + [Run(0, first)], Locking(2, other, first));
  }

  lemma StrangerAfterRelease(now: int, r: Request, other: Request, first: Response)
    requires WantsLock(r) && r.resource == other.resource && LeaseInvariant(Overtaken(now, r, first))
    requires r.identity != other.identity && HolderKey(r) != HolderKey(other)
    ensures var s := Step(Step(Overtaken(now, r, first), Run(0, first)), Run(0, first));
      Always(s, Locking(2, other, first), Prompt) && !LocksExclusive(Play(s, Locking(2, other, first)))
  {
    LateReleaser(now, r, first);
    StrangerFollows(Step(Overtaken(now, r, first), Run(0, first)), other, first);
  }

  lemma StrangerFollows(s: System, other: Request, reply: Response)
    requires LockInvariant(s) && s.callers.Keys == {0, 1} && SameLock(s, 0, 1)
    requires s.callers[0].phase.Releasing? && s.callers[0].phase.HasLock()
    requires other.resource == s.callers[0].request.resource && other.identity !in s.records
    requires HolderKey(other) != HolderKey(s.callers[0].request)
    ensures var s' := Step(s, Run(0, reply));
      Always(s', Locking(2, other, reply), Prompt) && !LocksExclusive(Play(s', Locking(2, other, reply)))
  {
    UnsafeReleaseBreaksLocks(s, 0, 1, 2, other, reply);
    LockingIsPrompt(Step(s, Run(0, reply)), 2, other, reply);
  }

  lemma LateReleaser(now: int, r: Request, first: Response)
    requires WantsLock(r) && LeaseInvariant(Overtaken(now, r, first))
    ensures var s := Step(Overtaken(now, r, first), Run(0, first));
      && LockInvariant(s) && s.callers[0].phase.Releasing? && s.callers[0].phase.HasLock() && SameLock(s, 0, 1)
      && s.callers.Keys == {0, 1} && s.callers[0].request == r && s.records.Keys == {r.identity}
  {
    var s := Overtaken(now, r, first);
    OvertakenLocks(now, r, first);
    LockStep(s, Run(0, first));
    CompletingStep(s, 0, first);
  }

  lemma OvertakenLocks(now: int, r: Request, first: Response)
    requires WantsLock(r) && LeaseInvariant(Overtaken(now, r, first))
    ensures LockInvariant(Overtaken(now, r, first))
  {
    assert forall id :: HoldsLock(Overtaken(now, r, first), id) ==> id == 1;
  }

  /** The same for requests that execute a task. */
  lemma LateCompletionOfATask(now: int, server: Server, wallet: seq<int>, key: string, taskId: string, body: string,
                              first: Response, second: Response)
    requires LegalServer(server) && LegalKey(key)
    requires Numerals.DigitsBelow(wallet, 256) && |wallet| == Base58.KEY_BYTES
    ensures var r := Sent(server, wallet, key, ExecuteTask(taskId, body));
      var before := Overtaking(r, first, second) + [Run(1, second), Run(1, second)];
      var s := Play(Start(now), before + [Run(0, first)] + Repeating(2, r, first));
      && LegalRequest(r) && s.callers.Keys == {0, 1, 2}
      && s.callers[0].phase.Releasing? && s.callers[0].phase.outcome == Returned(first)
      && s.callers[2] == Caller(r, Done(Replayed(second)))
  {
    SentIsLegal(server, wallet, key, taskId, body);
    LateCompletionHappens(now, Sent(server, wallet, key, ExecuteTask(taskId, body)), first, second);
  }

  lemma LateReleaseOfATask(now: int, server: Server, wallet: seq<int>, key: string, second: string, taskId: string,
                           body: string, mine: Response, yours: Response)
    requires LegalServer(server) && LegalKey(key) && LegalKey(second) && key != second
    requires Numerals.DigitsBelow(wallet, 256) && |wallet| == Base58.KEY_BYTES
    ensures var call := ExecuteTask(taskId, body);
      var r, other := Sent(server, wallet, key, call), Sent(server, wallet, second, call);
      var events := Overtaking(r, mine, yours) + [Run(0, mine)] + [Run(0, mine)] + Locking(2, other, mine);
      LegalRequest(r) && LegalRequest(other) && !LocksExclusive(Play(Start(now), events))
  {
    var call := ExecuteTask(taskId, body);
    TwoKeysOfATask(server, wallet, key, second, taskId, body);
    LateReleaseHappens(now, Sent(server, wallet, key, call), Sent(server, wallet, second, call), mine, yours);
  }
}
