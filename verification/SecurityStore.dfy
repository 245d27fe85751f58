/**
  The tables behind packages/persistence/src/security.ts. Each SQL statement is one atomic step on a map,
  taken at a database time `now`. Times are microseconds, as in a Postgres timestamp.
 */
module SecurityTables {
  import opened Basics

  const SECOND: int := 1_000_000

  /** The primary key of idempotency_records. */
  datatype Identity = Identity(ownerWallet: string, operation: string, idempotencyKey: string)

  datatype Response = Response(status: int, body: string, contentType: string)

  /** `response` is present exactly when the state column says 'completed'. */
  datatype Record = Record(requestHash: string, response: Option<Response>, leaseExpiresAt: int, expiresAt: int)

  type Records = map<Identity, Record>

  datatype Lock = Lock(ownerWallet: string, operation: string, holderKey: string, expiresAt: int)

  type Locks = map<string, Lock>

  function LeaseSeconds(requested: Option<int>): int {
    Clamp(30, 300, if requested.Some? then requested.value else 300)
  }

  function TtlSeconds(requested: Option<int>): int {
    Clamp(300, 172_800, if requested.Some? then requested.value else 86_400)
  }

  /** Locks and leases are clamped to the same range. */
  function LockSeconds(requested: Option<int>): int {
    LeaseSeconds(requested)
  }

  function Swept(t: Records, now: int): Records {
    map k | k in t && !(t[k].expiresAt < now) :: t[k]
  }

  function Claimed(t: Records, k: Identity, hash: string, lease: Option<int>, ttl: Option<int>, now: int): Records {
    if k in t then t
    else t[k := Record(hash, None, now + LeaseSeconds(lease) * SECOND, now + TtlSeconds(ttl) * SECOND)]
  }

  predicate Reclaimable(t: Records, k: Identity, hash: string, now: int) {
    k in t && t[k].requestHash == hash && t[k].response.None? && t[k].leaseExpiresAt <= now
  }

  function Reclaimed(t: Records, k: Identity, hash: string, lease: Option<int>, ttl: Option<int>, now: int): Records {
    if Reclaimable(t, k, hash, now) then
      t[k := t[k].(leaseExpiresAt := now + LeaseSeconds(lease) * SECOND, expiresAt := now + TtlSeconds(ttl) * SECOND)]
    else t
  }

  predicate OpenFor(t: Records, k: Identity, hash: string) {
    k in t && t[k].requestHash == hash && t[k].response.None?
  }

  function Completed(t: Records, k: Identity, hash: string, response: Response, ttl: Option<int>, now: int): Records {
    if OpenFor(t, k, hash) then
      t[k := Record(hash, Some(response), now, now + TtlSeconds(ttl) * SECOND)]
    else t
  }

  function Abandoned(t: Records, k: Identity, hash: string): Records {
    if OpenFor(t, k, hash) then t - {k} else t
  }

  predicate Lockable(l: Locks, resource: string, holderKey: string, now: int) {
    resource !in l || l[resource].expiresAt <= now || l[resource].holderKey == holderKey
  }

  function Locked(l: Locks, resource: string, owner: string, operation: string, holderKey: string,
                  ttl: Option<int>, now: int)
    : Locks
  {
    if Lockable(l, resource, holderKey, now) then
      l[resource := Lock(owner, operation, holderKey, now + LockSeconds(ttl) * SECOND)]
    else l
  }

  function Released(l: Locks, resource: string, holderKey: string): Locks {
    if resource in l && l[resource].holderKey == holderKey then l - {resource} else l
  }

  datatype BeginResult =
    | BeginAcquired
    | BeginInProgress
    | BeginConflict
    | BeginReplay(response: Response)

  /** What the SELECT after a failed insert tells the caller; None means: try to reclaim the lease. */
  function Inspect(t: Records, k: Identity, hash: string): Option<BeginResult> {
    if k !in t then Some(BeginInProgress)
    else if t[k].requestHash != hash then Some(BeginConflict)
    else if t[k].response.Some? then Some(BeginReplay(t[k].response.value))
    else None
  }
}

/** The repository class: the tables are its fields and every method changes them in place. */
module SecurityStore {
  import opened Basics
  import opened SecurityTables
  import opened RateLimits

  class SecurityRepository {
    var records: Records
    var locks: Locks
    var windows: Windows

    constructor ()
      ensures records == map[] && locks == map[] && windows == map[]
    {
      records, locks, windows := map[], map[], map[];
    }

    method SweepExpired(now: int)
      modifies this`records
      ensures records == Swept(old(records), now)
    {
      records := map k | k in records && !(records[k].expiresAt < now) :: records[k];
    }

    method InsertClaim(k: Identity, hash: string, lease: Option<int>, ttl: Option<int>, now: int)
      returns (inserted: bool)
      modifies this`records
      ensures records == Claimed(old(records), k, hash, lease, ttl, now)
      ensures inserted == (k !in old(records))
    {
      if k in records { return false; }
      records := records[k := Record(hash, None, now + LeaseSeconds(lease) * SECOND, now + TtlSeconds(ttl) * SECOND)];
      return true;
    }

    method ReclaimLease(k: Identity, hash: string, lease: Option<int>, ttl: Option<int>, now: int)
      returns (reclaimed: bool)
      modifies this`records
      ensures records == Reclaimed(old(records), k, hash, lease, ttl, now)
      ensures reclaimed == Reclaimable(old(records), k, hash, now)
    {
      if k !in records || records[k].requestHash != hash || records[k].response.Some?
         || records[k].leaseExpiresAt > now {
        return false;
      }
      records := records[k := records[k].(leaseExpiresAt := now + LeaseSeconds(lease) * SECOND,
                                          expiresAt := now + TtlSeconds(ttl) * SECOND)];
      return true;
    }

    /**
      beginIdempotency, whose i-th statement runs at time `at(i)`; before it, other callers and other processes turn
      the table into what `others(i, _)` says. Module LeaseProtocol restricts them to callers of the same code.
     */
    method BeginIdempotency(k: Identity, hash: string, lease: Option<int>, ttl: Option<int>, at: nat -> int,
                            others: (nat, Records) -> Records)
      returns (r: BeginResult)
      modifies this`records
      ensures var t1 := others(1, Swept(others(0, old(records)), at(0)));
              var t2 := others(2, t1);
              var t3 := others(3, t2);
              && (k !in t1 ==> r == BeginAcquired && records == Claimed(t1, k, hash, lease, ttl, at(1)))
              && (k in t1 && Inspect(t2, k, hash).Some? ==> Some(r) == Inspect(t2, k, hash) && records == t2)
              && (k in t1 && Inspect(t2, k, hash).None? ==>
                    && r == (if Reclaimable(t3, k, hash, at(3)) then BeginAcquired else BeginInProgress)
                    && records == Reclaimed(t3, k, hash, lease, ttl, at(3)))
    {
      records := others(0, records);
      SweepExpired(at(0));
      records := others(1, records);
      var inserted := InsertClaim(k, hash, lease, ttl, at(1));
      if inserted { return BeginAcquired; }
      records := others(2, records);
      if k !in records { return BeginInProgress; }
      if records[k].requestHash != hash { return BeginConflict; }
      if records[k].response.Some? { return BeginReplay(records[k].response.value); }
      records := others(3, records);
      var reclaimed := ReclaimLease(k, hash, lease, ttl, at(3));
      return if reclaimed then BeginAcquired else BeginInProgress;
    }

    method CompleteIdempotency(k: Identity, hash: string, response: Response, ttl: Option<int>, now: int)
      modifies this`records
      ensures records == Completed(old(records), k, hash, response, ttl, now)
    {
      if k in records && records[k].requestHash == hash && records[k].response.None? {
        records := records[k := records[k].(response := Some(response), leaseExpiresAt := now,
                                            expiresAt := now + TtlSeconds(ttl) * SECOND)];
      }
    }

    method AbandonIdempotency(k: Identity, hash: string)
      modifies this`records
      ensures records == Abandoned(old(records), k, hash)
    {
      if k in records && records[k].requestHash == hash && records[k].response.None? {
        records := records - {k};
      }
    }

    method AcquireMutationLock(resource: string, owner: string, operation: string, holderKey: string,
                               ttl: Option<int>, now: int)
      returns (acquired: bool)
      modifies this`locks
      ensures locks == Locked(old(locks), resource, owner, operation, holderKey, ttl, now)
      ensures acquired == Lockable(old(locks), resource, holderKey, now)
    {
      if resource in locks && locks[resource].expiresAt > now && locks[resource].holderKey != holderKey {
        return false;
      }
      locks := locks[resource := Lock(owner, operation, holderKey, now + LockSeconds(ttl) * SECOND)];
      return true;
    }

    method ReleaseMutationLock(resource: string, holderKey: string)
      modifies this`locks
      ensures locks == Released(old(locks), resource, holderKey)
    {
      if resource in locks && locks[resource].holderKey == holderKey { locks := locks - {resource}; }
    }

    method ConsumeRateLimit(scopeKey: string, limit: int, windowSeconds: int, now: int) returns (r: RateLimitResult)
      modifies this`windows
      ensures windows == old(windows)[scopeKey := Consume(LookUp(old(windows), scopeKey), windowSeconds, now)]
      ensures r == ResultOf(windows[scopeKey], limit, windowSeconds, now)
    {
      var span := Clamp(1, 3_600, windowSeconds) * SECOND;
      var window;
      if scopeKey !in windows {
        window := Window(now, 1);
      } else if windows[scopeKey].startedAt <= now - span {
        window := Window(now, 1);
      } else {
        window := windows[scopeKey].(count := windows[scopeKey].count + 1);
      }
      windows := windows[scopeKey := window];
      var bound := Clamp(1, 10_000, limit);
      r := RateLimitResult(window.count <= bound, window.count, bound,
                           Max(1, CeilSeconds(window.startedAt + span - now)));
    }
  }
}
