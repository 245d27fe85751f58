/**
  runIdempotentMutation (apps/web/src/server/security.ts:140) over the tables of module SecurityTables:
  any number of callers, each executing its SQL statements one at a time, interleaved in any way with a
  clock that only moves forward and with callers that die.
 */
module LeaseProtocol {
  import opened Basics
  import opened SecurityTables
  import Base58

  datatype Request = Request(
    identity: Identity,
    requestHash: string,
    resource: Option<string>,
    leaseSeconds: Option<int>,
    ttlSeconds: Option<int>)

  /** What a caller sends, apart from who sends it and under which key. */
  datatype HttpCall = HttpCall(verb: string, operation: string, resource: Option<string>, body: string)

  /** The digest function and the configured lifetime of a record. */
  datatype Server = Server(sha256: string -> string, ttlSeconds: int)

  /** requestFingerprint: the owner is not part of it. */
  function Fingerprint(server: Server, call: HttpCall): string {
    var resource := if call.resource.Some? then call.resource.value else "";
    server.sha256(call.verb + "\n" + call.operation + "\n" + resource + "\n" + call.body)
  }

  function RequestOf(server: Server, wallet: string, key: string, call: HttpCall): Request {
    Request(Identity(wallet, call.operation, key), Fingerprint(server, call),
            call.resource, None, Some(server.ttlSeconds))
  }

  predicate IsKeyChar(c: char) {
    'A' <= c <= 'Z' || 'a' <= c <= 'z' || '0' <= c <= '9' || c in {'.', '_', ':', '-'}
  }

  /** EXPLICIT_KEY_PATTERN; a generated `auto_` key matches it too. */
  predicate LegalKey(key: string) {
    && 8 <= |key| <= 128
    && forall i :: 0 <= i < |key| ==> IsKeyChar(key[i])
  }

  /** The hexadecimal text of a SHA-256 digest. */
  predicate LegalHash(hash: string) {
    |hash| == 64 && forall i :: 0 <= i < 64 ==> '0' <= hash[i] <= '9' || 'a' <= hash[i] <= 'f'
  }

  ghost predicate LegalServer(server: Server) {
    300 <= server.ttlSeconds <= 172_800 && forall text :: LegalHash(server.sha256(text))
  }

  /** The default lease and a lifetime from the configured range. */
  predicate DefaultTimes(r: Request) {
    r.leaseSeconds.None? && r.ttlSeconds.Some? && 300 <= r.ttlSeconds.value <= 172_800
  }

  /** A wallet's request with its key, its fingerprint and the server's times. */
  predicate LegalRequest(r: Request) {
    && Base58.NormalizeWalletAddress(r.identity.ownerWallet) == Some(r.identity.ownerWallet)
    && LegalKey(r.identity.idempotencyKey) && LegalHash(r.requestHash) && DefaultTimes(r)
  }

  /** `if (input.resourceKey)` */
  predicate WantsLock(r: Request) {
    r.resource.Some? && r.resource.value != ""
  }

  /** `${key}:${hash.slice(0, 16)}`: it names neither the owner nor the operation. */
  function HolderKey(r: Request): string {
    r.identity.idempotencyKey + ":" + if |r.requestHash| <= 16 then r.requestHash else r.requestHash[..16]
  }

  datatype Outcome =
    | Conflict
    | InProgress
    | Replayed(response: Response)
    | ConcurrentMutation
    | Returned(response: Response)
    | CompletionFailed

  /** Where a caller stands; `leaseEnd` and `lockEnd` are the ends of what it was granted. */
  datatype Phase =
    | Sweeping
    | Inserting
    | Selecting
    | Reclaiming
    | Acquired(leaseEnd: int)
    | LockDenied(leaseEnd: int)
    | Handling(leaseEnd: int, lockEnd: Option<int>)
    | Completing(leaseEnd: int, lockEnd: Option<int>, response: Response)
    | Releasing(leaseEnd: int, lockEnd: Option<int>, outcome: Outcome)
    | Done(outcome: Outcome)
  {
    predicate Leased() {
      Acquired? || LockDenied? || Handling? || Completing? || Releasing?
    }

    predicate HasLock() {
      (Handling? || Completing? || Releasing?) && lockEnd.Some?
    }
  }

  datatype Caller = Caller(request: Request, phase: Phase)

  datatype System = System(now: int, records: Records, locks: Locks, callers: map<nat, Caller>)

  datatype Event =
    | Tick(elapsed: nat)
    | Arrive(id: nat, request: Request)
    | Run(id: nat, reply: Response)
    | CompletionFails(id: nat, landed: bool)
    | Die(id: nat)

  function Outcomes(r: BeginResult): Outcome
    requires !r.BeginAcquired?
  {
    match r
    case BeginInProgress => InProgress
    case BeginConflict => Conflict
    case BeginReplay(response) => Replayed(response)
  }

  function LeaseEnd(r: Request, now: int): int {
    now + LeaseSeconds(r.leaseSeconds) * SECOND
  }

  /** The next statement of one caller; `reply` is what its handler answers. */
  function Advance(s: System, id: nat, reply: Response): System
    requires id in s.callers
  {
    var Caller(r, phase) := s.callers[id];
    var k := r.identity;
    match phase
    case Sweeping => s.(records := Swept(s.records, s.now), callers := s.callers[id := Caller(r, Inserting)])
    case Inserting =>
      s.(records := Claimed(s.records, k, r.requestHash, r.leaseSeconds, r.ttlSeconds, s.now),
         callers := s.callers[id := Caller(r, if k in s.records then Selecting else Acquired(LeaseEnd(r, s.now)))])
    case Selecting =>
      var seen := Inspect(s.records, k, r.requestHash);
      s.(callers := s.callers[id := Caller(r, if seen.Some? then Done(Outcomes(seen.value)) else Reclaiming)])
    case Reclaiming =>
      s.(records := Reclaimed(s.records, k, r.requestHash, r.leaseSeconds, r.ttlSeconds, s.now),
         callers := s.callers[id := Caller(r, if Reclaimable(s.records, k, r.requestHash, s.now)
                                              then Acquired(LeaseEnd(r, s.now)) else Done(InProgress))])
    case Acquired(leaseEnd) =>
      if !WantsLock(r) then s.(callers := s.callers[id := Caller(r, Handling(leaseEnd, None))])
      else
        var resource := r.resource.value;
        s.(locks := Locked(s.locks, resource, k.ownerWallet, k.operation, HolderKey(r), None, s.now),
           callers := s.callers[id := Caller(r, if Lockable(s.locks, resource, HolderKey(r), s.now)
                                                then Handling(leaseEnd, Some(s.now + LockSeconds(None) * SECOND))
                                                else LockDenied(leaseEnd))])
    case LockDenied(_) =>
      s.(records := Abandoned(s.records, k, r.requestHash),
         callers := s.callers[id := Caller(r, Done(ConcurrentMutation))])
    case Handling(leaseEnd, lockEnd) => s.(callers := s.callers[id := Caller(r, Completing(leaseEnd, lockEnd, reply))])
    case Completing(leaseEnd, lockEnd, response) =>
      s.(records := Completed(s.records, k, r.requestHash, response, r.ttlSeconds, s.now),
         callers := s.callers[id := Caller(r, Releasing(leaseEnd, lockEnd, Returned(response)))])
    case Releasing(_, lockEnd, outcome) =>
      s.(locks := if lockEnd.Some? && r.resource.Some? then Released(s.locks, r.resource.value, HolderKey(r))
                      else s.locks,
         callers := s.callers[id := Caller(r, Done(outcome))])
    case Done(_) => s
  }

  /** One event; an event that is not enabled changes nothing. */
  function Step(s: System, e: Event): System {
    match e
    case Tick(elapsed) => s.(now := s.now + elapsed)
    case Arrive(id, request) => if id in s.callers then s else s.(callers := s.callers[id := Caller(request, Sweeping)])
    case Run(id, reply) => if id in s.callers then Advance(s, id, reply) else s
    case CompletionFails(id, landed) =>
      // completeIdempotency rejects, before or after its effect; the finally block still releases the lock.
      if id in s.callers && s.callers[id].phase.Completing? then
        var Caller(r, Completing(leaseEnd, lockEnd, response)) := s.callers[id];
        s.(records := if landed then Completed(s.records, r.identity, r.requestHash, response, r.ttlSeconds, s.now)
                      else s.records,
           callers := s.callers[id := Caller(r, Releasing(leaseEnd, lockEnd, CompletionFailed))])
      else s
    case Die(id) => s.(callers := s.callers - {id})
  }

  function Play(s: System, events: seq<Event>): System {
    if events == [] then s else Step(Play(s, events[..|events| - 1]), events[|events| - 1])
  }

  function Start(now: int): System {
    System(now, map[], map[], map[])
  }

  // ----- What it means to hold something -----

  /** The caller was granted the idempotency lease, is not done with it, and it has not run out. */
  predicate HoldsLease(s: System, id: nat) {
    id in s.callers && s.callers[id].phase.Leased() && s.now < s.callers[id].phase.leaseEnd
  }

  /** The caller was granted lock and lease, has released neither, and neither has run out. */
  predicate HoldsLock(s: System, id: nat) {
    && id in s.callers && s.callers[id].phase.HasLock() && s.callers[id].request.resource.Some?
    && s.now < s.callers[id].phase.lockEnd.value
    && s.now < s.callers[id].phase.leaseEnd
  }

  /** The record of a request holds this response. */
  predicate Answered(records: Records, r: Request, response: Response) {
    && r.identity in records
    && records[r.identity].requestHash == r.requestHash && records[r.identity].response == Some(response)
  }

  // ----- What a step may do to others -----

  /** Abandoning now would remove the open claim another live lease relies on. */
  predicate RemovesLiveClaim(s: System, id: nat)
    requires id in s.callers
  {
    var r := s.callers[id].request;
    && OpenFor(s.records, r.identity, r.requestHash)
    && exists other :: other in s.callers && other != id && HoldsLease(s, other)
                       && s.callers[other].request.identity == r.identity
  }

  /** The other caller holds the lock this one asks for, under the same holder key. */
  predicate SameLock(s: System, id: nat, other: nat)
    requires id in s.callers
  {
    && other in s.callers && other != id && HoldsLock(s, other)
    && s.callers[other].request.resource == s.callers[id].request.resource
    && HolderKey(s.callers[other].request) == HolderKey(s.callers[id].request)
  }

  /** Another live holder of the resource has this caller's holder key under another identity. */
  predicate SharesHolderKey(s: System, id: nat)
    requires id in s.callers
  {
    exists other :: other in s.callers && SameLock(s, id, other)
                    && s.callers[other].request.identity != s.callers[id].request.identity
  }

  /** Releasing now would delete the row of another live holder. */
  predicate DropsLiveLock(s: System, id: nat)
    requires id in s.callers
  {
    exists other :: other in s.callers && SameLock(s, id, other)
  }

  predicate SafeAbandon(s: System, e: Event) {
    e.Run? && e.id in s.callers && s.callers[e.id].phase.LockDenied? ==> !RemovesLiveClaim(s, e.id)
  }

  /** A caller whose own lease has run out may take a shared lock: it does not hold it. */
  predicate UnsharedLock(s: System, e: Event) {
    (e.Run? && e.id in s.callers && s.callers[e.id].phase.Acquired? && WantsLock(s.callers[e.id].request)
     && HoldsLease(s, e.id)) ==> !SharesHolderKey(s, e.id)
  }

  predicate SafeRelease(s: System, e: Event) {
    (e.Run? && e.id in s.callers && s.callers[e.id].phase.Releasing? && s.callers[e.id].phase.HasLock())
    ==> !DropsLiveLock(s, e.id)
  }

  predicate Careful(s: System, e: Event) {
    SafeAbandon(s, e) && UnsharedLock(s, e) && SafeRelease(s, e)
  }

  // ----- Promptness -----

  /** A caller that abandons does so before its own lease ends. */
  predicate PromptAbandon(s: System, e: Event) {
    e.Run? && e.id in s.callers && s.callers[e.id].phase.LockDenied? ==> s.now < s.callers[e.id].phase.leaseEnd
  }

  /** A caller does everything it does under its lease, releasing included, before that lease ends. */
  predicate Prompt(s: System, e: Event) {
    (e.Run? || e.CompletionFails?) && e.id in s.callers && s.callers[e.id].phase.Leased()
    ==> s.now < s.callers[e.id].phase.leaseEnd
  }

  ghost predicate Always(s: System, events: seq<Event>, good: (System, Event) -> bool) {
    forall i :: 0 <= i < |events| ==> good(Play(s, events[..i]), events[i])
  }
}
