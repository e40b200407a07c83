/** The gateway's anti-ban limiter: a queue of accept times, shortened on each call. */
module SlidingWindow {
  import opened Instants

  const WINDOW_MS := 60_000

  /** The naive limiter: look at every accept there ever was. */
  function Naive(history: seq<int>, now: int, limit: int): bool {
    CountIn(history, now - WINDOW_MS, now) < limit
  }

  /** A fractional limit of the environment acts as the next whole one. */
  lemma FractionalLimit(history: seq<int>, now: int, limit: real)
    ensures Naive(history, now, Ceiling(limit)) <==> (CountIn(history, now - WINDOW_MS, now) as real) < limit
  {
  }

  function NaiveStep(history: seq<int>, now: int, limit: int): seq<int> {
    if Naive(history, now, limit) then history + [now] else history
  }

  datatype Call = Call(now: int, limit: int)

  function NaiveRun(history: seq<int>, calls: seq<Call>): seq<int>
    decreases |calls|
  {
    if calls == [] then history
    else NaiveRun(NaiveStep(history, calls[0].now, calls[0].limit), calls[1..])
  }

  lemma {:induction false} CountSplit(times: seq<int>, k: nat, lo: int, hi: int)
    requires k <= |times|
    requires forall i :: 0 <= i < k ==> times[i] < lo
    requires forall i :: k <= i < |times| ==> lo <= times[i] <= hi
    ensures CountIn(times, lo, hi) == |times| - k
  {
    if times != [] {
      var front := times[..|times| - 1];
      if k == |times| {
        CountSplit(front, k - 1, lo, hi);
      } else {
        CountSplit(front, k, lo, hi);
      }
    }
  }

  /** The queue is the history without a part that is out of the window for good. */
  ghost predicate Covers(history: seq<int>, queue: seq<int>, clock: int) {
    && Sorted(history) && AtMost(history, clock)
    && |queue| <= |history| && queue == history[|history| - |queue|..]
    && forall i :: 0 <= i < |history| - |queue| ==> history[i] < clock - WINDOW_MS
  }

  lemma ShiftCovers(history: seq<int>, queue: seq<int>, now: int)
    requires Covers(history, queue, now) && queue != [] && queue[0] < now - WINDOW_MS
    ensures Covers(history, queue[1..], now)
  {
    var k := |history| - |queue|;
    assert history[k] == queue[0];
    assert queue[1..] == history[k + 1..];
  }

  lemma CoversCount(history: seq<int>, queue: seq<int>, now: int)
    requires Covers(history, queue, now) && (queue != [] ==> now - WINDOW_MS <= queue[0])
    ensures CountIn(history, now - WINDOW_MS, now) == |queue|
  {
    var k := |history| - |queue|;
    assert queue != [] ==> history[k] == queue[0];
    hide CountIn;
    forall i | k <= i < |history|
      ensures now - WINDOW_MS <= history[i] <= now
    {
      assert i == k || history[k] <= history[i];
    }
    CountSplit(history, k, now - WINDOW_MS, now);
  }

  lemma AcceptCovers(history: seq<int>, queue: seq<int>, now: int)
    requires Covers(history, queue, now)
    ensures Covers(history + [now], queue + [now], now)
  {
    var k := |history| - |queue|;
    assert (history + [now])[k..] == history[k..] + [now];
  }

  class RateLimiter {
    var minuteBuckets: seq<int>
    /** Every accept since the process started. */
    ghost var history: seq<int>
    ghost var clock: int

    ghost predicate Valid()
      reads this
    {
      Covers(history, minuteBuckets, clock)
    }

    constructor (start: int)
      ensures Valid() && history == [] && clock == start
    {
      minuteBuckets, history, clock := [], [], start;
    }

    method RateLimitOk(now: int, limit: int) returns (ok: bool)
      requires Valid() && clock <= now
      modifies this
      ensures Valid() && clock == now
      ensures ok <==> |set i | 0 <= i < |old(history)| && now - 60_000 <= old(history)[i] <= now| < limit
      ensures ok <==> Naive(old(history), now, limit)
      ensures history == NaiveStep(old(history), now, limit)
    {
      clock := now;
      CountMeans(history, now - WINDOW_MS, now);
      assert Covers(history, minuteBuckets, now);
      hide Covers, CountIn;
      while minuteBuckets != [] && WINDOW_MS < now - minuteBuckets[0]
        invariant Covers(history, minuteBuckets, now) && clock == now && history == old(history)
        decreases |minuteBuckets|
      {
        ShiftCovers(history, minuteBuckets, now);
        minuteBuckets := minuteBuckets[1..];
      }
      CoversCount(history, minuteBuckets, now);
      if limit <= |minuteBuckets| {
        return false;
      }
      AcceptCovers(history, minuteBuckets, now);
      minuteBuckets := minuteBuckets + [now];
      history := history + [now];
      return true;
    }
  }

  /** Each accept was made with fewer than `limit` accepts in the window before it. */
  ghost predicate Governed(history: seq<int>, limit: int) {
    forall j :: 0 <= j < |history| ==> CountIn(history[..j], history[j] - WINDOW_MS, history[j]) < limit
  }

  lemma {:induction false} CountShrinks(times: seq<int>, lo: int, hi: int, top: int)
    requires AtMost(times, top)
    ensures top - WINDOW_MS <= lo ==> CountIn(times, lo, hi) <= CountIn(times, top - WINDOW_MS, top)
  {
    if times != [] {
      CountShrinks(times[..|times| - 1], lo, hi, top);
    }
  }

  lemma GovernedSnoc(history: seq<int>, t: int, limit: int)
    requires Governed(history, limit) && Naive(history, t, limit)
    ensures Governed(history + [t], limit)
  {
    var next := history + [t];
    hide CountIn;
    forall j | 0 <= j < |next|
      ensures CountIn(next[..j], next[j] - WINDOW_MS, next[j]) < limit
    {
      assert next[..j] == history[..j];
      assert history[..|history|] == history;
    }
  }

  lemma GovernedFront(history: seq<int>, limit: int)
    requires Governed(history, limit) && history != []
    ensures var n := |history| - 1;
            Governed(history[..n], limit) && CountIn(history[..n], history[n] - WINDOW_MS, history[n]) < limit
  {
    hide CountIn;
    var n := |history| - 1;
    forall j | 0 <= j < n
      ensures history[..n][..j] == history[..j]
    {
    }
  }

  lemma {:induction false} GovernedBound(history: seq<int>, limit: int, a: int)
    requires Sorted(history) && Governed(history, limit) && 0 <= limit
    ensures CountIn(history, a, a + WINDOW_MS) <= limit
  {
    if history != [] {
      var n := |history| - 1;
      var front, last := history[..n], history[n];
      GovernedFront(history, limit);
      hide Governed;
      GovernedBound(front, limit, a);
      if a <= last <= a + WINDOW_MS {
        CountShrinks(front, a, a + WINDOW_MS, last);
      }
    }
  }

  ghost predicate Monotone(calls: seq<Call>, from: int) {
    && (forall i, j :: 0 <= i < j < |calls| ==> calls[i].now <= calls[j].now)
    && forall i :: 0 <= i < |calls| ==> from <= calls[i].now
  }

  lemma NaiveStepKeeps(history: seq<int>, c: Call, clock: int, limit: int)
    requires Sorted(history) && Governed(history, limit) && AtMost(history, clock) && clock <= c.now && c.limit <= limit
    ensures var next := NaiveStep(history, c.now, c.limit);
            Sorted(next) && Governed(next, limit) && AtMost(next, c.now)
  {
    hide Governed, CountIn;
    if Naive(history, c.now, c.limit) {
      GovernedSnoc(history, c.now, limit);
    }
  }

  lemma {:induction false} RunKeepsGoverned(history: seq<int>, calls: seq<Call>, clock: int, limit: int)
    requires Sorted(history) && Governed(history, limit) && AtMost(history, clock)
    requires Monotone(calls, clock) && forall i :: 0 <= i < |calls| ==> calls[i].limit <= limit
    ensures var final := NaiveRun(history, calls); Sorted(final) && Governed(final, limit)
    decreases |calls|
  {
    if calls != [] {
      var c := calls[0];
      var next := NaiveStep(history, c.now, c.limit);
      NaiveStepKeeps(history, c, clock, limit);
      assert NaiveRun(history, calls) == NaiveRun(next, calls[1..]);
      hide Governed, CountIn, Sorted, AtMost, NaiveStep, NaiveRun;
      RunKeepsGoverned(next, calls[1..], c.now, limit);
    }
  }

  /**
   The bound over whole runs: with a clock that does not run backwards and no call above `limit`, no closed interval
   of sixty seconds, wherever it starts, holds more than `limit` accepts.
   */
  lemma SlidingBound(calls: seq<Call>, limit: nat, a: int)
    requires forall i, j :: 0 <= i < j < |calls| ==> calls[i].now <= calls[j].now
    requires forall i :: 0 <= i < |calls| ==> calls[i].limit <= limit
    ensures CountIn(NaiveRun([], calls), a, a + WINDOW_MS) <= limit
  {
    RunKeepsGoverned([], calls, if calls == [] then 0 else calls[0].now, limit);
    GovernedBound(NaiveRun([], calls), limit, a);
  }
}
