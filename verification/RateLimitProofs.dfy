/** How many requests a fixed window lets through over any interval. */
module RateLimitProofs {
  import opened Basics
  import opened SecurityTables
  import opened RateLimits

  /** The window after the first n requests. */
  function WindowAt(times: seq<int>, w: int, n: nat): Window
    requires 0 < n <= |times|
  {
    After(times[..n], w).value
  }

  lemma WindowStep(times: seq<int>, w: int, n: nat)
    requires 0 < n <= |times|
    ensures n == 1 ==> WindowAt(times, w, n) == Window(times[0], 1)
    ensures n > 1 ==> WindowAt(times, w, n) == Consume(Some(WindowAt(times, w, n - 1)), w, times[n - 1])
  {
    assert times[..n][..n - 1] == times[..n - 1];
    if n == 1 {
      var one := times[..1];
      assert one[..|one| - 1] == [];
      assert After(one[..|one| - 1], w) == None;
      assert After(one, w) == Some(Consume(After(one[..|one| - 1], w), w, one[0]));
    }
  }

  /** Request k is counted in the window that request `first` began. */
  predicate Counted(times: seq<int>, w: int, first: nat, k: nat)
    requires first <= k < |times|
  {
    && WindowAt(times, w, k + 1) == Window(times[first], k - first + 1)
    && (k > first ==> times[k] < times[first] + Span(w))
  }

  /** The counter window of the n-th request: the requests from `first` on, counted one by one. */
  ghost predicate Shape(times: seq<int>, w: int, n: nat, first: nat)
    requires 0 < n <= |times|
  {
    && first < n
    && (forall k :: first <= k < n ==> Counted(times, w, first, k))
    && (first > 0 ==> WindowAt(times, w, first).startedAt + Span(w) <= times[first])
  }

  /** The request that begins the window of the n-th one, told from the times alone. */
  function LastRestart(times: seq<int>, w: int, n: nat): (first: nat)
    requires 0 < n <= |times|
    ensures first < n
  {
    if n == 1 then 0
    else
      var earlier := LastRestart(times, w, n - 1);
      if times[earlier] + Span(w) <= times[n - 1] then n - 1 else earlier
  }

  lemma ShapeBegins(times: seq<int>, w: int, n: nat)
    requires 0 < n <= |times|
    requires n > 1 ==> WindowAt(times, w, n - 1).startedAt + Span(w) <= times[n - 1]
    ensures Shape(times, w, n, n - 1)
  {
    WindowStep(times, w, n);
    assert Counted(times, w, n - 1, n - 1);
  }

  lemma ShapeExtends(times: seq<int>, w: int, n: nat, first: nat)
    requires 1 < n <= |times| && Shape(times, w, n - 1, first) && times[n - 1] < times[first] + Span(w)
    ensures Shape(times, w, n, first)
  {
    WindowStep(times, w, n);
    assert Counted(times, w, first, n - 2);
    assert Counted(times, w, first, n - 1);
  }

  lemma {:induction false} LastRestartShape(times: seq<int>, w: int, n: nat)
    requires 0 < n <= |times|
    ensures Shape(times, w, n, LastRestart(times, w, n))
  {
    if n == 1 {
      ShapeBegins(times, w, n);
    } else {
      var earlier := LastRestart(times, w, n - 1);
      LastRestartShape(times, w, n - 1);
      assert Counted(times, w, earlier, n - 2);
      if times[earlier] + Span(w) <= times[n - 1] {
        ShapeBegins(times, w, n);
      } else {
        ShapeExtends(times, w, n, earlier);
      }
    }
  }

  /** What is let through of the requests from .. to-1 of one counter window: those among its first `limit`. */
  lemma {:induction false} WithinOneWindow(times: seq<int>, limit: int, w: int, n: nat, first: nat, from: nat, to: nat)
    requires 0 < n <= |times| && Shape(times, w, n, first) && first <= from <= to <= n
    ensures CountAllowed(times, limit, w, from, to) == InWindow(limit, first, from, to)
  {
    if from >= to {
    } else {
      WithinOneWindow(times, limit, w, n, first, from, to - 1);
      assert Counted(times, w, first, to - 1);
    }
  }

  /** Of the window that began with request `first`, the requests from .. to-1 among the first `limit`. */
  function InWindow(limit: int, first: nat, from: nat, to: nat): int {
    Max(0, Min(Bound(limit), to - first) - (from - first))
  }

  lemma {:induction false} CountSplit(times: seq<int>, limit: int, w: int, from: nat, mid: nat, to: nat)
    requires from <= mid <= to <= |times|
    ensures CountAllowed(times, limit, w, from, to)
            == CountAllowed(times, limit, w, from, mid) + CountAllowed(times, limit, w, mid, to)
  {
    if mid >= to {
    } else {
      CountSplit(times, limit, w, from, mid, to - 1);
    }
  }

  /** A request that begins a window comes strictly later than the one before it. */
  lemma RestartTakesTime(times: seq<int>, w: int, k: nat)
    requires 0 < k < |times| && WindowAt(times, w, k).startedAt + Span(w) <= times[k]
    ensures times[k - 1] < times[k]
  {
    LastRestartShape(times, w, k);
    assert Counted(times, w, LastRestart(times, w, k), k - 1);
  }

  /**
    Two windows cannot both begin strictly after a request and within one window length of it: requests at
    the very same instant never restart a window.
   */
  lemma TwoWindowsReachBack(times: seq<int>, w: int, n: nat, i: nat, first: nat, before: nat)
    requires Ordered(times) && i < n <= |times| && times[n - 1] - times[i] <= Span(w)
    requires Shape(times, w, n, first) && i < first && Shape(times, w, first, before)
    ensures before <= i
  {
    if i < before {
      assert Counted(times, w, before, first - 1);
      assert times[i] <= times[before - 1] && times[first] <= times[n - 1];
      RestartTakesTime(times, w, before);
    }
  }

  lemma OverTwoWindows(times: seq<int>, limit: int, w: int, n: nat, i: nat, first: nat, before: nat)
    requires Ordered(times) && i < n <= |times| && times[n - 1] - times[i] <= Span(w)
    requires Shape(times, w, n, first) && i < first && Shape(times, w, first, before)
    ensures before <= i
    ensures CountAllowed(times, limit, w, i, n)
      == Min(Bound(limit), n - first) + Max(0, Min(Bound(limit), first - before) - (i - before))
  {
    TwoWindowsReachBack(times, w, n, i, first, before);
    CountSplit(times, limit, w, i, first, n);
    WithinOneWindow(times, limit, w, n, first, first, n);
    WithinOneWindow(times, limit, w, first, before, i, first);
  }

  /**
    How many of the requests i .. n-1, which fit into one window length with both ends included, are let through: if
    the last window begins inside the interval, those of the last window and those left of the one before it, which
    began no later than the interval.
   */
  lemma IntervalCountExactly(times: seq<int>, limit: int, w: int, i: nat, n: nat)
    requires Ordered(times) && i < n <= |times| && times[n - 1] - times[i] <= Span(w)
    ensures var first := LastRestart(times, w, n);
      first <= i ==> CountAllowed(times, limit, w, i, n) == InWindow(limit, first, i, n)
    ensures var first := LastRestart(times, w, n);
      first > i ==>
        var before := LastRestart(times, w, first);
        && before <= i
        && CountAllowed(times, limit, w, i, n)
           == Min(Bound(limit), n - first) + Max(0, Min(Bound(limit), first - before) - (i - before))
  {
    var first := LastRestart(times, w, n);
    LastRestartShape(times, w, n);
    if first <= i {
      WithinOneWindow(times, limit, w, n, first, i, n);
    } else {
      LastRestartShape(times, w, first);
      OverTwoWindows(times, limit, w, n, i, first, LastRestart(times, w, first));
    }
  }

  /**
    More than the limit is let through in an interval of one window length if and only if a window begins strictly
    inside it and what that window and the one before it let through exceeds the limit.
   */
  lemma LimitExceededExactly(times: seq<int>, limit: int, w: int, i: nat, n: nat)
    requires Ordered(times) && i < n <= |times| && times[n - 1] - times[i] <= Span(w)
    ensures var first := LastRestart(times, w, n);
      CountAllowed(times, limit, w, i, n) > Bound(limit)
      <==>
      && first > i
      && InWindow(limit, first, first, n) + InWindow(limit, LastRestart(times, w, first), i, first) > Bound(limit)
  {
    IntervalCountExactly(times, limit, w, i, n);
  }

  /** In any interval of one window length, both ends included, at most twice the limit is let through. */
  lemma AtMostTwiceTheLimit(times: seq<int>, limit: int, w: int, i: nat, n: nat)
    requires Ordered(times) && i < n <= |times| && times[n - 1] - times[i] <= Span(w)
    ensures CountAllowed(times, limit, w, i, n) <= 2 * Bound(limit)
  {
    IntervalCountExactly(times, limit, w, i, n);
  }

  /** A refused caller who comes back after the returned number of seconds, with nobody in between, is let through. */
  lemma RetryAfterSuffices(times: seq<int>, limit: int, w: int, retry: int)
    requires times != []
    requires var now := times[|times| - 1];
             var r := ResultOf(After(times, w).value, limit, w, now);
             !r.allowed && retry >= now + r.retryAfterSeconds * SECOND
    ensures var window := After(times + [retry], w).value;
            ResultOf(window, limit, w, retry).allowed && window == Window(retry, 1)
  {
    var now, window := times[|times| - 1], After(times, w).value;
    assert (times + [retry])[..|times|] == times;
    var left := window.startedAt + Span(w) - now;
    assert CeilSeconds(left) * SECOND >= left;
    assert retry >= window.startedAt + Span(w);
  }

  /** ... and coming back before the window ends is in vain: the refusal repeats, one count higher. */
  lemma EarlierRetryIsRefused(times: seq<int>, limit: int, w: int, retry: int)
    requires times != []
    requires var now := times[|times| - 1];
             !ResultOf(After(times, w).value, limit, w, now).allowed
             && now <= retry < After(times, w).value.startedAt + Span(w)
    ensures !ResultOf(After(times + [retry], w).value, limit, w, retry).allowed
  {
    assert (times + [retry])[..|times|] == times;
  }

  // ----- The answers -----

  /** The limit that is enforced. */
  function Limit(limit: int): int {
    if limit < 1 then 1 else if limit > 10_000 then 10_000 else limit
  }

  /** The length of the window that is enforced, in microseconds. */
  function WindowLength(windowSeconds: int): int {
    1_000_000 * if windowSeconds < 1 then 1 else if windowSeconds > 3_600 then 3_600 else windowSeconds
  }

  lemma LiteralBounds(limit: int, windowSeconds: int)
    ensures Bound(limit) == Limit(limit) && Span(windowSeconds) == WindowLength(windowSeconds)
  {
  }

  /**
    The i-th answer of every trace: the count is the request's place in its window, which begins with request `first`;
    it is allowed exactly among the first `limit` of them; and the seconds to wait are the fewest, but at least one,
    after which the window is over.
   */
  lemma AnswersExactly(times: seq<int>, limit: int, w: int, i: nat)
    requires i < |times|
    ensures var answer, first := AnswerAt(times, limit, w, i), LastRestart(times, w, i + 1);
      && answer.count == i - first + 1
      && answer.limit == Limit(limit)
      && (answer.allowed <==> i - first < Limit(limit))
      && answer.retryAfterSeconds >= 1
      && times[i] + 1_000_000 * answer.retryAfterSeconds >= times[first] + WindowLength(w)
      && (answer.retryAfterSeconds > 1 ==>
            times[i] + 1_000_000 * (answer.retryAfterSeconds - 1) < times[first] + WindowLength(w))
  {
    LastRestartShape(times, w, i + 1);
    LiteralBounds(limit, w);
    assert Counted(times, w, LastRestart(times, w, i + 1), i);
    CeilSecondsExactly(times[LastRestart(times, w, i + 1)] + Span(w) - times[i]);
  }

  lemma CeilSecondsExactly(d: int)
    ensures 1_000_000 * (CeilSeconds(d) - 1) < d <= 1_000_000 * CeilSeconds(d)
  {
  }

  /** Where a window begins: with the first request, or once the window before it is over. */
  lemma RestartsExactly(times: seq<int>, w: int, i: nat)
    requires i < |times|
    ensures var first := LastRestart(times, w, i + 1);
      first == i <==> i == 0 || times[LastRestart(times, w, i)] + WindowLength(w) <= times[i]
    ensures i > 0 && LastRestart(times, w, i + 1) != i ==> LastRestart(times, w, i + 1) == LastRestart(times, w, i)
  {
    LiteralBounds(0, w);
  }

  /**
    A refused caller who comes back one second too early, with nobody in between, is refused again, whenever more
    than one second was asked for.
   */
  lemma OneSecondShort(times: seq<int>, limit: int, w: int)
    requires times != []
    requires var answer := AnswerAt(times, limit, w, |times| - 1); !answer.allowed && answer.retryAfterSeconds > 1
    ensures var answer := AnswerAt(times, limit, w, |times| - 1);
      var retry := times[|times| - 1] + 1_000_000 * (answer.retryAfterSeconds - 1);
      !AnswerAt(times + [retry], limit, w, |times|).allowed
  {
    var n := |times|;
    var retry := times[n - 1] + 1_000_000 * (AnswerAt(times, limit, w, n - 1).retryAfterSeconds - 1);
    assert times[..n] == times && (times + [retry])[..n + 1] == times + [retry] && (times + [retry])[..n] == times;
    CeilSecondsExactly(After(times, w).value.startedAt + Span(w) - times[n - 1]);
    EarlierRetryIsRefused(times, limit, w, retry);
  }

  /** Twice the limit does occur: a full window at its first instant, and a full one the moment it is over. */
  lemma TwiceTheLimitHappens(limit: int, w: int)
    requires Bound(limit) == limit
    ensures var times := seq(limit, _ => 0) + seq(limit, _ => Span(w));
            && Ordered(times)
            && times[|times| - 1] - times[0] == Span(w)
            && CountAllowed(times, limit, w, 0, |times|) == 2 * limit
  {
    FullWindows(seq(limit, _ => 0) + seq(limit, _ => Span(w)), limit, w, 2 * limit);
  }

  lemma {:induction false} FullWindows(times: seq<int>, limit: int, w: int, n: nat)
    requires Bound(limit) == limit && |times| == 2 * limit && 0 < n <= |times|
    requires forall k :: 0 <= k < |times| ==> times[k] == if k < limit then 0 else Span(w)
    ensures WindowAt(times, w, n) == if n <= limit then Window(0, n) else Window(Span(w), n - limit)
    ensures CountAllowed(times, limit, w, 0, n) == n
  {
    WindowStep(times, w, n);
    if n <= 1 {
    } else {
      FullWindows(times, limit, w, n - 1);
    }
  }
}
