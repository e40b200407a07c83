/** The API's limiter: one counting bucket per client key, opened afresh when its window is over. */
module FixedWindow {
  import opened Wrappers
  import opened Instants

  datatype Bucket = Bucket(count: nat, resetAt: int)

  datatype Outcome = Admitted | Limited(retryAfterSec: int)

  /** How many requests a window admits, and the whole milliseconds after which the next one can open. */
  datatype Config = Config(max: nat, windowMs: nat) {
    ghost predicate Valid() { 0 < windowMs }
  }

  /** A setting of the environment: any positive number, fractions included, and the fallback for everything else. */
  function EnvInt(n: Option<real>, fallback: nat): real {
    if n.Some? && 0.0 < n.value then n.value else fallback as real
  }

  /** API_RATE_LIMIT_MAX and API_RATE_LIMIT_WINDOW_MS as they act on whole counts and whole milliseconds. */
  function FromEnv(max: Option<real>, windowMs: Option<real>): (c: Config)
    ensures c.Valid()
  {
    Config(EnvInt(max, 120).Floor, Ceiling(EnvInt(windowMs, 60000)))
  }

  /** The code compares and adds the fractional settings; every test and every Retry-After comes out the same. */
  lemma FractionsRound(max: Option<real>, windowMs: Option<real>, count: nat, start: int, now: int)
    ensures var c := FromEnv(max, windowMs);
            var m := if max.Some? && 0.0 < max.value then max.value else 120.0;
            var w := if windowMs.Some? && 0.0 < windowMs.value then windowMs.value else 60000.0;
            && (m < count as real <==> c.max < count)
            && (start as real + w <= now as real <==> start + c.windowMs <= now)
            && RetryAfter(start + c.windowMs, now)
               == (var s := Ceiling((start as real + w - now as real) / 1000.0); if s < 1 then 1 else s)
  {
    var w := EnvInt(windowMs, 60000);
    var whole := start + Ceiling(w) - now;
    var exact := start as real + w - now as real;
    assert whole as real - 1.0 < exact <= whole as real;
    var up := (whole + 999) / 1000;
    assert 1000 * (up - 1) < whole <= 1000 * up;
    assert 1000 * (up - 1) <= whole - 1;
    assert Ceiling(exact / 1000.0) == up by {
      assert (1000 * (up - 1)) as real < exact <= (1000 * up) as real;
      assert (up - 1) as real < exact / 1000.0 <= up as real;
    }
  }

  function Lookup(buckets: map<string, Bucket>, key: string): Option<Bucket> {
    if key in buckets then Some(buckets[key]) else None
  }

  /** Has the request to open a window? */
  predicate Opens(bucket: Option<Bucket>, now: int) {
    bucket.None? || bucket.value.resetAt <= now
  }

  function Counted(c: Config, bucket: Option<Bucket>, now: int): Bucket {
    if Opens(bucket, now) then Bucket(1, now + c.windowMs) else Bucket(bucket.value.count + 1, bucket.value.resetAt)
  }

  function Step(c: Config, buckets: map<string, Bucket>, key: string, now: int): map<string, Bucket> {
    buckets[key := Counted(c, Lookup(buckets, key), now)]
  }

  predicate Admits(c: Config, bucket: Option<Bucket>, now: int) {
    Counted(c, bucket, now).count <= c.max
  }

  /** Whole seconds until resetAt, rounded up, at least one. */
  function RetryAfter(resetAt: int, now: int): int {
    var seconds := (resetAt - now + 999) / 1000;
    if seconds < 1 then 1 else seconds
  }

  /** What the admitted requests of one key have to do with its bucket. */
  ghost predicate Accounts(c: Config, bucket: Option<Bucket>, admitted: seq<int>) {
    match bucket
    case None => admitted == []
    case Some(b) =>
      var start := b.resetAt - c.windowMs;
      && AtMost(admitted, b.resetAt - 1)
      && CountIn(admitted, start, b.resetAt - 1) <= (if b.count < c.max then b.count else c.max)
      && CountIn(admitted, start - c.windowMs, start - 1) <= c.max
  }

  /** Requests let through in the closed interval of one window length from a on. */
  ghost function WindowFrom(c: Config, admitted: seq<int>, a: int): nat {
    CountIn(admitted, a, a + c.windowMs)
  }

  ghost predicate Bounded(c: Config, admitted: seq<int>) {
    forall a :: WindowFrom(c, admitted, a) <= 2 * c.max
  }

  ghost predicate KeyValid(c: Config, bucket: Option<Bucket>, admitted: seq<int>, clock: int) {
    && Accounts(c, bucket, admitted)
    && Bounded(c, admitted)
    && (bucket.Some? ==> bucket.value.resetAt <= clock + c.windowMs)
  }

  /** A refused request changes the count alone, which is past the maximum already. */
  lemma RefuseKeeps(c: Config, b: Bucket, admitted: seq<int>)
    requires Accounts(c, Some(b), admitted) && c.max <= b.count
    ensures Accounts(c, Some(Bucket(b.count + 1, b.resetAt)), admitted)
  {
  }

  /** A window that opens finds at most one full window of requests just before it. */
  lemma OpenAccounts(c: Config, bucket: Option<Bucket>, admitted: seq<int>, now: int)
    requires c.Valid() && Accounts(c, bucket, admitted) && Opens(bucket, now)
    ensures Accounts(c, Some(Bucket(0, now + c.windowMs)), admitted)
  {
    if bucket.Some? {
      CountNone(admitted, now, now + c.windowMs - 1);
      CountCapped(admitted, now - c.windowMs, now - 1, bucket.value.resetAt - c.windowMs, bucket.value.resetAt - 1);
    }
  }

  lemma AdmitKeepsBound(c: Config, b: Bucket, admitted: seq<int>, now: int)
    requires c.Valid() && Accounts(c, Some(b), admitted) && Bounded(c, admitted)
    requires b.count < c.max && b.resetAt - c.windowMs <= now < b.resetAt
    ensures Accounts(c, Some(Bucket(b.count + 1, b.resetAt)), admitted + [now])
    ensures Bounded(c, admitted + [now])
  {
    var start := b.resetAt - c.windowMs;
    CountSnoc(admitted, now, start, b.resetAt - 1);
    CountSnoc(admitted, now, start - c.windowMs, start - 1);
    forall a
      ensures WindowFrom(c, admitted + [now], a) <= 2 * c.max
    {
      assert WindowFrom(c, admitted, a) <= 2 * c.max;
      CountSnoc(admitted, now, a, a + c.windowMs);
      if a <= now <= a + c.windowMs {
        if a < start {
          CountAdds(admitted, a, start - 1, a + c.windowMs, start - c.windowMs);
        }
        CountCapped(admitted, if a < start then start else a, a + c.windowMs, start, b.resetAt - 1);
      }
    }
  }

  lemma StepKeeps(c: Config, bucket: Option<Bucket>, admitted: seq<int>, clock: int, now: int)
    requires c.Valid() && KeyValid(c, bucket, admitted, clock) && clock <= now
    ensures KeyValid(c, Some(Counted(c, bucket, now)), admitted + (if Admits(c, bucket, now) then [now] else []), now)
  {
    hide Bounded, CountIn, Accounts;
    var current := if Opens(bucket, now) then Bucket(0, now + c.windowMs) else bucket.value;
    if Opens(bucket, now) {
      OpenAccounts(c, bucket, admitted, now);
    }
    if Admits(c, bucket, now) {
      AdmitKeepsBound(c, current, admitted, now);
    } else {
      RefuseKeeps(c, current, admitted);
      assert admitted + [] == admitted;
    }
  }

  lemma Later(c: Config, bucket: Option<Bucket>, admitted: seq<int>, clock: int, now: int)
    requires KeyValid(c, bucket, admitted, clock) && clock <= now
    ensures KeyValid(c, bucket, admitted, now)
  {
  }

  /** The times of the requests of a key that were let through. */
  function TimesOf(admitted: map<string, seq<int>>, key: string): seq<int> {
    if key in admitted then admitted[key] else []
  }

  ghost predicate AllValid(c: Config, buckets: map<string, Bucket>, admitted: map<string, seq<int>>, clock: int) {
    forall key :: KeyValid(c, Lookup(buckets, key), TimesOf(admitted, key), clock)
  }

  /** A request of one key keeps what is true of every key. */
  lemma RequestKeeps(c: Config, buckets: map<string, Bucket>, admitted: map<string, seq<int>>, clock: int,
                     key: string, now: int)
    requires c.Valid() && AllValid(c, buckets, admitted, clock) && clock <= now
    ensures var bucket, before := Lookup(buckets, key), TimesOf(admitted, key);
            AllValid(c, Step(c, buckets, key, now),
                     admitted[key := before + if Admits(c, bucket, now) then [now] else []], now)
  {
    var bucket, before := Lookup(buckets, key), TimesOf(admitted, key);
    StepKeeps(c, bucket, before, clock, now);
    var after := admitted[key := before + if Admits(c, bucket, now) then [now] else []];
    forall other
      ensures KeyValid(c, Lookup(Step(c, buckets, key, now), other), TimesOf(after, other), now)
    {
      Later(c, Lookup(buckets, other), TimesOf(admitted, other), clock, now);
      hide KeyValid, Counted, Admits;
    }
  }

  class Limiter {
    const config: Config
    var buckets: map<string, Bucket>
    /** The times of the requests let through, by key. */
    ghost var admitted: map<string, seq<int>>
    ghost var clock: int

    ghost function AdmittedOf(key: string): seq<int>
      reads this
    {
      TimesOf(admitted, key)
    }

    ghost predicate Valid()
      reads this
    {
      config.Valid() && AllValid(config, buckets, admitted, clock)
    }

    constructor (max: Option<real>, windowMs: Option<real>, start: int)
      ensures Valid() && config == FromEnv(max, windowMs) && admitted == map[] && clock == start
    {
      config := FromEnv(max, windowMs);
      buckets, admitted, clock := map[], map[], start;
      new;
      assert forall key :: TimesOf(admitted, key) == [] && Lookup(buckets, key) == None;
    }

    /** Counts the request in the bucket of its key, opened afresh when its window is over. */
    method Count(key: string, now: int) returns (bucket: Bucket)
      modifies this`buckets
      ensures buckets == Step(config, old(buckets), key, now)
      ensures bucket == Counted(config, Lookup(old(buckets), key), now) && key in buckets && buckets[key] == bucket
    {
      var found := Lookup(buckets, key);
      if Opens(found, now) {
        found := Some(Bucket(0, now + config.windowMs));
      }
      bucket := found.value.(count := found.value.count + 1);
      buckets := buckets[key := bucket];
    }

    /**
     Valid afterwards says: in every run, an interval of one window holds at most twice `max` admitted requests of a
     key.
     */
    method ConsumeRateLimit(key: string, now: int) returns (r: Outcome)
      requires Valid() && clock <= now
      modifies this
      ensures Valid() && clock == now
      ensures buckets == Step(config, old(buckets), key, now)
      ensures r.Admitted? <==> Admits(config, Lookup(old(buckets), key), now)
      ensures r.Limited? ==> r.retryAfterSec == RetryAfter(buckets[key].resetAt, now)
      ensures AdmittedOf(key) == old(AdmittedOf(key)) + if r.Admitted? then [now] else []
      ensures forall other :: other != key ==> AdmittedOf(other) == old(AdmittedOf(other))
    {
      ghost var before := AdmittedOf(key);
      RequestKeeps(config, buckets, admitted, clock, key, now);
      hide AllValid, Step, Counted, RetryAfter;
      var bucket := Count(key, now);
      clock := now;
      if config.max < bucket.count {
        r := Limited(RetryAfter(bucket.resetAt, now));
        admitted := admitted[key := before + []];
      } else {
        r := Admitted;
        admitted := admitted[key := before + [now]];
      }
    }
  }

  datatype Request = Request(key: string, now: int)

  function Run(c: Config, buckets: map<string, Bucket>, requests: seq<Request>): map<string, Bucket>
    decreases |requests|
  {
    if requests == [] then buckets
    else Run(c, Step(c, buckets, requests[0].key, requests[0].now), requests[1..])
  }

  function Only(key: string, requests: seq<Request>): seq<Request>
    decreases |requests|
  {
    if requests == [] then []
    else (if requests[0].key == key then [requests[0]] else []) + Only(key, requests[1..])
  }

  /** A key's bucket, and so every answer to it, is what its own requests alone would have made it. */
  lemma {:induction false} KeysIndependent(c: Config, a: map<string, Bucket>, b: map<string, Bucket>,
                                           requests: seq<Request>, key: string)
    decreases |requests|
    requires Lookup(a, key) == Lookup(b, key)
    ensures Lookup(Run(c, a, requests), key) == Lookup(Run(c, b, Only(key, requests)), key)
  {
    if requests != [] {
      var r, later := requests[0], requests[1..];
      var next := Step(c, a, r.key, r.now);
      hide Counted;
      if r.key == key {
        assert Only(key, requests) == [r] + Only(key, later);
        assert Only(key, requests)[1..] == Only(key, later);
        KeysIndependent(c, next, Step(c, b, key, r.now), later, key);
      } else {
        assert Only(key, requests) == Only(key, later);
        KeysIndependent(c, next, b, later, key);
      }
    }
  }

  /**
   A limited client that sends nothing more is let in again exactly from the end of its window on, and waiting the
   advertised number of seconds is always enough, unless the maximum is below one and nobody is ever let in.
   */
  lemma RetryAfterSuffices(c: Config, bucket: Option<Bucket>, now: int, later: int)
    requires c.Valid() && !Admits(c, bucket, now) && now <= later
    ensures var after := Counted(c, bucket, now);
            && (Admits(c, Some(after), later) <==> after.resetAt <= later && 0 < c.max)
            && (0 < c.max && now + 1000 * RetryAfter(after.resetAt, now) <= later ==> Admits(c, Some(after), later))
            && now + 1000 * (RetryAfter(after.resetAt, now) - 1) < after.resetAt
  {
    var left := Counted(c, bucket, now).resetAt - now;
    assert left <= 1000 * ((left + 999) / 1000) < left + 1000;
  }

  /** The requests of one key that are let through, out of requests at the given times. */
  function AdmittedTimes(c: Config, bucket: Option<Bucket>, times: seq<int>): seq<int>
    decreases |times|
  {
    if times == [] then []
    else (if Admits(c, bucket, times[0]) then [times[0]] else [])
         + AdmittedTimes(c, Some(Counted(c, bucket, times[0])), times[1..])
  }

  lemma {:induction false} RunKeeps(c: Config, bucket: Option<Bucket>, admitted: seq<int>, clock: int, times: seq<int>)
    requires c.Valid() && KeyValid(c, bucket, admitted, clock)
    requires Sorted([clock] + times)
    ensures Bounded(c, admitted + AdmittedTimes(c, bucket, times))
    decreases |times|
  {
    if times == [] {
      assert admitted + [] == admitted;
    } else {
      var now := times[0];
      var let := if Admits(c, bucket, now) then [now] else [];
      var later := AdmittedTimes(c, Some(Counted(c, bucket, now)), times[1..]);
      assert ([clock] + times)[0] <= ([clock] + times)[1];
      assert [now] + times[1..] == ([clock] + times)[1..];
      StepKeeps(c, bucket, admitted, clock, now);
      RunKeeps(c, Some(Counted(c, bucket, now)), admitted + let, now, times[1..]);
      hide *;
      assert admitted + (let + later) == (admitted + let) + later;
    }
  }

  /** The bound over whole runs of a key, wherever the interval starts. */
  lemma FixedWindowBound(c: Config, times: seq<int>, a: int)
    requires c.Valid() && Sorted(times)
    ensures CountIn(AdmittedTimes(c, None, times), a, a + c.windowMs) <= 2 * c.max
  {
    RunKeeps(c, None, [], if times == [] then 0 else times[0], times);
    assert [] + AdmittedTimes(c, None, times) == AdmittedTimes(c, None, times);
    assert WindowFrom(c, AdmittedTimes(c, None, times), a) <= 2 * c.max;
  }

  function Repeated(time: int, n: nat): seq<int> { seq(n, _ => time) }

  lemma RepeatedSplits(time: int, n: nat, rest: seq<int>)
    requires 0 < n
    ensures Repeated(time, n) == [time] + Repeated(time, n - 1)
    ensures Repeated(time, n) + rest == [time] + (Repeated(time, n - 1) + rest)
  {
    assert Repeated(time, n) == [time] + Repeated(time, n - 1);
  }

  lemma OneMore(c: Config, bucket: Option<Bucket>, time: int, later: seq<int>)
    requires Admits(c, bucket, time)
    ensures AdmittedTimes(c, bucket, [time] + later) == [time] + AdmittedTimes(c, Some(Counted(c, bucket, time)), later)
  {
    assert ([time] + later)[1..] == later;
  }

  /** Requests at one time inside the open window are let through as long as there is room. */
  lemma {:induction false} RoomAdmits(c: Config, b: Bucket, time: int, n: nat, rest: seq<int>)
    requires time < b.resetAt && b.count + n <= c.max
    ensures AdmittedTimes(c, Some(b), Repeated(time, n) + rest)
            == Repeated(time, n) + AdmittedTimes(c, Some(Bucket(b.count + n, b.resetAt)), rest)
    decreases n
  {
    if n == 0 {
      assert Repeated(time, 0) + rest == rest;
    } else {
      var next := Bucket(b.count + 1, b.resetAt);
      assert Counted(c, Some(b), time) == next && Admits(c, Some(b), time);
      hide *;
      RoomAdmits(c, next, time, n - 1, rest);
      var less := Repeated(time, n - 1);
      var later := AdmittedTimes(c, Some(Bucket(b.count + n, b.resetAt)), rest);
      assert AdmittedTimes(c, Some(next), less + rest) == less + later;
      RepeatedSplits(time, n, rest);
      OneMore(c, Some(b), time, less + rest);
      assert [time] + (less + later) == ([time] + less) + later;
    }
  }

  /** A window that opens lets a full maximum through at once. */
  lemma FullWindow(c: Config, bucket: Option<Bucket>, time: int, rest: seq<int>)
    requires c.Valid() && Opens(bucket, time)
    requires 0 < c.max
    ensures AdmittedTimes(c, bucket, Repeated(time, c.max) + rest)
            == Repeated(time, c.max) + AdmittedTimes(c, Some(Bucket(c.max, time + c.windowMs)), rest)
  {
    var less := Repeated(time, c.max - 1);
    RoomAdmits(c, Bucket(1, time + c.windowMs), time, c.max - 1, rest);
    RepeatedSplits(time, c.max, rest);
    OneMore(c, bucket, time, less + rest);
    var later := AdmittedTimes(c, Some(Bucket(c.max, time + c.windowMs)), rest);
    assert AdmittedTimes(c, Some(Counted(c, bucket, time)), less + rest) == less + later;
    hide *;
    assert [time] + (less + later) == ([time] + less) + later;
  }

  /** And the bound is reached with every setting: a full window at each end of the interval. */
  lemma FixedWindowBoundReached(c: Config, a: int)
    requires c.Valid()
    ensures var times := Repeated(a, c.max) + Repeated(a + c.windowMs, c.max);
            && Sorted(times)
            && AdmittedTimes(c, None, times) == times
            && CountIn(AdmittedTimes(c, None, times), a, a + c.windowMs) == 2 * c.max
  {
    hide *;
    var times := Repeated(a, c.max) + Repeated(a + c.windowMs, c.max);
    TwoFullWindows(c, a);
    EndsOfInterval(a, a + c.windowMs, c.max);
    CountAll(times, a, a + c.windowMs);
  }

  lemma EndsOfInterval(a: int, b: int, n: nat)
    requires a <= b
    ensures var times := Repeated(a, n) + Repeated(b, n);
            Sorted(times) && |times| == 2 * n && forall i :: 0 <= i < |times| ==> a <= times[i] <= b
  {
  }

  lemma TwoFullWindows(c: Config, a: int)
    requires c.Valid()
    ensures var times := Repeated(a, c.max) + Repeated(a + c.windowMs, c.max); AdmittedTimes(c, None, times) == times
  {
    var second := Repeated(a + c.windowMs, c.max);
    if c.max == 0 {
      assert Repeated(a, c.max) + second == [];
    } else {
      var bucket := Some(Bucket(c.max, a + c.windowMs));
      FullWindow(c, None, a, second);
      FullWindow(c, bucket, a + c.windowMs, []);
      assert AdmittedTimes(c, Some(Bucket(c.max, a + c.windowMs + c.windowMs)), []) == [];
      hide AdmittedTimes, Repeated;
      assert second + [] == second;
    }
  }
}
