/** How long claims, leases, responses and locks last, in seconds. */
module Lifetimes {
  import opened Basics
  import opened SecurityTables
  import opened LeaseProtocol
  import opened LeaseProofs
  import opened ResponseProofs
  import LeaseRuns

  /** The requested seconds, kept within bounds; `absent` when nothing is requested. */
  function Within(requested: Option<int>, low: int, high: int, absent: int): int {
    if requested.None? then absent
    else if requested.value < low then low
    else if requested.value > high then high
    else requested.value
  }

  /** A record lives for five minutes to two days, and a day by default. */
  function RecordTime(ttl: Option<int>): int {
    1_000_000 * Within(ttl, 300, 172_800, 86_400)
  }

  /** A lease or a lock lasts for half a minute to five minutes, and five by default. */
  function HoldTime(requested: Option<int>): int {
    1_000_000 * Within(requested, 30, 300, 300)
  }

  // ----- one statement -----

  /** A claim can be taken over exactly from the end of its lease on, and is swept exactly after its expiry. */
  lemma ClaimLasts(t: Records, k: Identity, hash: string, lease: Option<int>, ttl: Option<int>, now: int, later: int)
    requires k !in t
    ensures var t' := Claimed(t, k, hash, lease, ttl, now);
      && t' == t[k := Record(
           requestHash := hash, response := None, leaseExpiresAt := now + HoldTime(lease),
           expiresAt := now + RecordTime(ttl))]
      && (Reclaimable(t', k, hash, later) <==> now + HoldTime(lease) <= later)
      && (k in Swept(t', later) <==> later <= now + RecordTime(ttl))
  {
  }

  /** So does a claim taken over; nobody takes over what is completed, missing or another request's. */
  lemma ReclaimLasts(t: Records, k: Identity, hash: string, lease: Option<int>, ttl: Option<int>, now: int, later: int)
    ensures var t' := Reclaimed(t, k, hash, lease, ttl, now);
      if k in t && t[k].requestHash == hash && t[k].response.None? && t[k].leaseExpiresAt <= now then
        && t' == t[k := Record(
             requestHash := hash, response := None, leaseExpiresAt := now + HoldTime(lease),
             expiresAt := now + RecordTime(ttl))]
        && (Reclaimable(t', k, hash, later) <==> now + HoldTime(lease) <= later)
        && (k in Swept(t', later) <==> later <= now + RecordTime(ttl))
      else t' == t
  {
  }

  /** A response is kept for the whole lifetime, counted from the completion. */
  lemma ResponseLasts(
    t: Records, k: Identity, hash: string, response: Response, ttl: Option<int>, now: int, later: int)
    ensures var t' := Completed(t, k, hash, response, ttl, now);
      if k in t && t[k].requestHash == hash && t[k].response.None? then
        && t' == t[k := Record(
             requestHash := hash, response := Some(response), leaseExpiresAt := now,
             expiresAt := now + RecordTime(ttl))]
        && (k in Swept(t', later) <==> later <= now + RecordTime(ttl))
      else t' == t
  {
  }

  /** A lock keeps other holder keys out exactly until its end. */
  lemma LockLasts(
    l: Locks, resource: string, owner: string, operation: string, holder: string, ttl: Option<int>, now: int,
    other: string, later: int)
    ensures var l' := Locked(l, resource, owner, operation, holder, ttl, now);
      if resource !in l || l[resource].expiresAt <= now || l[resource].holderKey == holder then
        && l' == l[resource := Lock(
             ownerWallet := owner, operation := operation, holderKey := holder, expiresAt := now + HoldTime(ttl))]
        && (Lockable(l', resource, other, later) <==> other == holder || now + HoldTime(ttl) <= later)
      else l' == l
  {
  }

  /** A caller that acquired a claim relies on its lease for as long as the table grants it. */
  lemma LeaseLasts(r: Request, now: int)
    ensures LeaseEnd(r, now) == now + HoldTime(r.leaseSeconds)
  {
  }

  // ----- runs -----

  /**
    In every run, from the completing statement of an open claim until exactly its lifetime later, whoever looks the
    record up with the same request is given the response.
   */
  lemma ReplayedForALifetime(
    s: System, id: nat, reply: Response, more: seq<Event>, other: nat, again: Response)
    requires id in s.callers && s.callers[id].phase.Completing?
    requires var r := s.callers[id].request; OpenFor(s.records, r.identity, r.requestHash)
    requires var r, mid := s.callers[id].request, Play(Step(s, Run(id, reply)), more);
      && mid.now <= s.now + RecordTime(r.ttlSeconds)
      && other in mid.callers && mid.callers[other].phase.Selecting?
      && mid.callers[other].request.identity == r.identity && mid.callers[other].request.requestHash == r.requestHash
    ensures var mid := Play(Step(s, Run(id, reply)), more);
      Step(mid, Run(other, again)).callers[other].phase == Done(Replayed(s.callers[id].phase.response))
  {
    var r := s.callers[id].request;
    CompletingStep(s, id, reply);
    ResponseLasts(s.records, r.identity, r.requestHash, s.callers[id].phase.response, r.ttlSeconds, s.now, s.now);
    ReplaysAgreeExactly(s, id, reply, more, other, again);
  }

  /** A caller completes, and some time later a newcomer repeats the request. */
  function Repeated(id: nat, elapsed: nat, newcomer: nat, r: Request, reply: Response): seq<Event> {
    [Run(id, reply), Tick(elapsed)] + Claiming(newcomer, r, reply)
  }

  /**
    A newcomer that repeats a completed request is on its way to the replay for exactly the lifetime, and acquires
    the identity again, to run its handler, from then on.
   */
  lemma RepeatedAfter(s: System, id: nat, reply: Response, elapsed: nat, newcomer: nat)
    requires id in s.callers && s.callers[id].phase.Completing? && newcomer !in s.callers
    requires var r := s.callers[id].request; OpenFor(s.records, r.identity, r.requestHash)
    ensures var r := s.callers[id].request;
      var s' := Play(s, Repeated(id, elapsed, newcomer, r, reply));
      && newcomer in s'.callers
      && if elapsed <= RecordTime(r.ttlSeconds) then
           && s'.callers[newcomer].phase == Selecting
           && Step(s', Run(newcomer, reply)).callers[newcomer].phase == Done(Replayed(s.callers[id].phase.response))
         else s'.callers[newcomer].phase.Acquired?
  {
    var r := s.callers[id].request;
    CompletingStep(s, id, reply);
    PlayTwo(s, Run(id, reply), Tick(elapsed));
    PlayConcat(s, [Run(id, reply), Tick(elapsed)], Claiming(newcomer, r, reply));
    var mid := Step(Step(s, Run(id, reply)), Tick(elapsed));
    ResponseLasts(s.records, r.identity, r.requestHash, s.callers[id].phase.response, r.ttlSeconds, s.now, mid.now);
    if elapsed <= RecordTime(r.ttlSeconds) {
      LeaseRuns.Finds(mid, newcomer, r, reply);
    } else {
      Claims(mid, newcomer, r, reply);
    }
  }
}
