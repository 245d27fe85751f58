/** Fixed-window rate limiting: consumeRateLimit in packages/persistence/src/security.ts:197. */
module RateLimits {
  import opened Basics
  import opened SecurityTables

  datatype Window = Window(startedAt: int, count: nat)

  type Windows = map<string, Window>

  datatype RateLimitResult = RateLimitResult(allowed: bool, count: int, limit: int, retryAfterSeconds: int)

  function LookUp(windows: Windows, scopeKey: string): Option<Window> {
    if scopeKey in windows then Some(windows[scopeKey]) else None
  }

  function Span(windowSeconds: int): int {
    Clamp(1, 3_600, windowSeconds) * SECOND
  }

  function Bound(limit: int): int {
    Clamp(1, 10_000, limit)
  }

  /** CEIL(EXTRACT(EPOCH FROM d)) of a duration in microseconds. */
  function CeilSeconds(d: int): int {
    (d + SECOND - 1) / SECOND
  }

  /** The upsert: a missing or finished window restarts at one, any other counts up, refused requests included. */
  function Consume(window: Option<Window>, windowSeconds: int, now: int): Window {
    if window.None? then Window(now, 1)
    else if window.value.startedAt <= now - Span(windowSeconds) then Window(now, 1)
    else window.value.(count := window.value.count + 1)
  }

  function ResultOf(window: Window, limit: int, windowSeconds: int, now: int): RateLimitResult {
    RateLimitResult(window.count <= Bound(limit), window.count, Bound(limit),
                    Max(1, CeilSeconds(window.startedAt + Span(windowSeconds) - now)))
  }

  // ----- Traces -----

  predicate Ordered(times: seq<int>) {
    forall i, j :: 0 <= i < j < |times| ==> times[i] <= times[j]
  }

  /** The window after the requests at these times, from an empty table. */
  function After(times: seq<int>, windowSeconds: int): Option<Window> {
    if times == [] then None
    else Some(Consume(After(times[..|times| - 1], windowSeconds), windowSeconds, times[|times| - 1]))
  }

  /** What the i-th request of a trace is answered. */
  function AnswerAt(times: seq<int>, limit: int, windowSeconds: int, i: nat): RateLimitResult
    requires i < |times|
  {
    ResultOf(After(times[..i + 1], windowSeconds).value, limit, windowSeconds, times[i])
  }

  /** How many of the requests from .. to-1 are let through. */
  function CountAllowed(times: seq<int>, limit: int, windowSeconds: int, from: nat, to: nat): nat
    requires from <= to <= |times|
  {
    if from == to then 0
    else CountAllowed(times, limit, windowSeconds, from, to - 1)
         + if AnswerAt(times, limit, windowSeconds, to - 1).allowed then 1 else 0
  }
}
