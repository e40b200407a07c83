/**
 The GPT spending caps under concurrency: workers check the shared counters, make a call and record its cost, in any
 interleaving with each other and with the clock.
 */
module Budget {
  import opened Wrappers

  /** Days of instants and months of days, neither running backwards. */
  datatype Calendar = Calendar(dayOf: nat -> nat, monthOfDay: nat -> nat) {
    ghost predicate Valid() {
      && (forall s: nat, t: nat :: s <= t ==> dayOf(s) <= dayOf(t))
      && (forall s: nat, t: nat :: s <= t ==> monthOfDay(s) <= monthOfDay(t))
    }
    function MonthOf(t: nat): nat { monthOfDay(dayOf(t)) }
  }

  /** A cap of zero is no cap. No single call costs more than maxCost. */
  datatype Config = Config(calendar: Calendar, daily: real, monthly: real, workers: nat, maxCost: real) {
    ghost predicate Valid() { calendar.Valid() && 0.0 <= maxCost }
  }

  /** A cost that is on its day's counter and not yet on its month's. */
  datatype Half = Half(usd: real, day: nat)

  /** A positive cost whose day lies in one month and which was added to another. */
  datatype Split = Split(from: nat, to: nat, usd: real)

  /**
   The counters; the workers between the two checks, between check and record, and between the two records. `splits`
   records the costs that fell on either side of a month's end.
   */
  datatype State = State(now: nat, day: map<nat, real>, month: map<nat, real>, checking: set<nat>, calling: set<nat>,
                         half: map<nat, Half>, splits: seq<Split>)

  datatype Step =
    | Tick(to: nat)
    | CheckDay(worker: nat)
    | CheckMonth(worker: nat)
    | Fail(worker: nat)
    | RecordDay(worker: nat, usd: real)
    | RecordMonth(worker: nat)

  const INITIAL := State(0, map[], map[], {}, {}, map[], [])

  function Spent(spend: map<nat, real>, period: nat): real {
    if period in spend then spend[period] else 0.0
  }

  function Add(spend: map<nat, real>, period: nat, usd: real): map<nat, real> {
    if usd <= 0.0 then spend else spend[period := Spent(spend, period) + usd]
  }

  predicate DayOk(c: Config, s: State) { 0.0 < c.daily ==> Spent(s.day, c.calendar.dayOf(s.now)) < c.daily }

  predicate MonthOk(c: Config, s: State) { 0.0 < c.monthly ==> Spent(s.month, c.calendar.MonthOf(s.now)) < c.monthly }

  predicate Idle(s: State, w: nat) { w !in s.checking && w !in s.calling && w !in s.half }

  predicate Enabled(c: Config, s: State, step: Step) {
    match step
    case Tick(to) => s.now <= to
    case CheckDay(w) => w < c.workers && Idle(s, w) && DayOk(c, s)
    case CheckMonth(w) => w in s.checking && MonthOk(c, s)
    case Fail(w) => w in s.checking || w in s.calling
    case RecordDay(w, usd) => w in s.calling && usd <= c.maxCost
    case RecordMonth(w) => w in s.half
  }

  /** A step that is not enabled, such as a check over the cap, changes nothing. */
  function Apply(c: Config, s: State, step: Step): State {
    if !Enabled(c, s, step) then s
    else
      match step
      case Tick(to) => s.(now := to)
      case CheckDay(w) => s.(checking := s.checking + {w})
      case CheckMonth(w) => s.(checking := s.checking - {w}, calling := s.calling + {w})
      case Fail(w) => s.(checking := s.checking - {w}, calling := s.calling - {w})
      case RecordDay(w, usd) =>
        var today := c.calendar.dayOf(s.now);
        s.(calling := s.calling - {w}, day := Add(s.day, today, usd), half := s.half[w := Half(usd, today)])
      case RecordMonth(w) =>
        var h, to := s.half[w], c.calendar.MonthOf(s.now);
        s.(month := Add(s.month, to, h.usd), half := s.half - {w},
           splits := s.splits + SplitOf(c.calendar.monthOfDay(h.day), to, h.usd))
  }

  function SplitOf(from: nat, to: nat, usd: real): seq<Split> {
    if from != to && 0.0 < usd then [Split(from, to, usd)] else []
  }

  function Run(c: Config, s: State, steps: seq<Step>): State
    decreases |steps|
  {
    if steps == [] then s else Run(c, Apply(c, s, steps[0]), steps[1..])
  }

  // --- one counter with its cap

  /** What k calls can still add. */
  function Reserve(k: nat, cost: real): real {
    if k == 0 then 0.0 else cost + Reserve(k - 1, cost)
  }

  lemma {:induction false} ReserveMonotone(k: nat, n: nat, cost: real)
    requires k <= n && 0.0 <= cost
    ensures 0.0 <= Reserve(k, cost) <= Reserve(n, cost)
  {
    if n != 0 {
      if k < n {
        ReserveMonotone(k, n - 1, cost);
      } else {
        ReserveMonotone(k - 1, n - 1, cost);
      }
    }
  }

  lemma {:induction false} ReserveIsProduct(n: nat, cost: real)
    ensures Reserve(n, cost) == n as real * cost
  {
    if n != 0 {
      ReserveIsProduct(n - 1, cost);
      assert n as real * cost == (n - 1) as real * cost + cost;
    }
  }

  /**
   Calls that are under way can still add `reserve` to the current period or a later one, and stay below the limit.
   */
  ghost predicate Capped(spend: map<nat, real>, limit: real, current: nat, reserve: real) {
    && (forall p :: p in spend ==> p <= current)
    && (forall p: nat :: Spent(spend, p) < limit)
    && (forall p: nat :: current <= p ==> Spent(spend, p) + reserve < limit)
  }

  lemma CappedCheck(spend: map<nat, real>, cap: real, limit: real, current: nat, reserve: real, next: real)
    requires Capped(spend, limit, current, reserve) && Spent(spend, current) < cap && 0.0 < cap
    requires cap + next <= limit
    ensures Capped(spend, limit, current, next)
  {
  }

  lemma CappedDrop(spend: map<nat, real>, limit: real, current: nat, reserve: real, cost: real, usd: real)
    requires Capped(spend, limit, current, reserve) && 0.0 <= cost <= reserve && usd <= cost
    ensures Capped(Add(spend, current, usd), limit, current, reserve - cost)
  {
    var next := Add(spend, current, usd);
    assert Spent(spend, current) + reserve < limit;
    forall p: nat
      ensures Spent(next, p) < limit && (current <= p ==> Spent(next, p) + (reserve - cost) < limit)
    {
      assert p != current ==> Spent(next, p) == Spent(spend, p);
      assert Spent(spend, p) < limit;
    }
  }

  lemma CappedTick(spend: map<nat, real>, limit: real, current: nat, later: nat, reserve: real)
    requires Capped(spend, limit, current, reserve) && current <= later
    ensures Capped(spend, limit, later, reserve)
  {
  }

  // --- both counters

  function Workers(n: nat): (ids: set<nat>)
    ensures forall w: nat :: w in ids <==> w < n
    ensures |ids| == n
  {
    if n == 0 then {} else Workers(n - 1) + {n - 1}
  }

  /** A worker that is not among the busy ones leaves room for one more. */
  lemma RoomForOne(ids: set<nat>, n: nat, w: nat)
    requires forall v: nat :: v in ids ==> v < n
    requires w < n && w !in ids
    ensures |ids| + 1 <= n
  {
    Subset(ids + {w}, Workers(n));
  }

  lemma {:induction false} Subset(a: set<nat>, b: set<nat>)
    requires a <= b
    ensures |a| <= |b|
  {
    if a != {} {
      var x :| x in a;
      Subset(a - {x}, b - {x});
    }
  }

  /** Calls that have passed the day's check and are not on its counter yet. */
  function DayBusy(s: State): set<nat> { s.checking + s.calling }

  /** Calls that have passed the month's check and are not on its counter yet. */
  function Owing(s: State): set<nat> { s.calling + s.half.Keys }

  function Limit(c: Config, cap: real): real { cap + Reserve(c.workers, c.maxCost) }

  ghost predicate CounterInv(c: Config, spend: map<nat, real>, cap: real, current: nat, busy: set<nat>) {
    0.0 < cap ==> Capped(spend, Limit(c, cap), current, Reserve(|busy|, c.maxCost))
  }

  ghost predicate WorkersInv(c: Config, s: State) {
    && s.checking !! s.calling && s.checking !! s.half.Keys && s.calling !! s.half.Keys
    && (forall w :: w in s.checking ==> w < c.workers)
    && (forall w :: w in s.calling ==> w < c.workers)
    && (forall w :: w in s.half ==> w < c.workers && s.half[w].usd <= c.maxCost)
  }

  ghost predicate Inv(c: Config, s: State) {
    && WorkersInv(c, s)
    && CounterInv(c, s.day, c.daily, c.calendar.dayOf(s.now), DayBusy(s))
    && CounterInv(c, s.month, c.monthly, c.calendar.MonthOf(s.now), Owing(s))
  }

  lemma CounterInitial(c: Config, cap: real, current: nat)
    requires c.Valid()
    ensures CounterInv(c, map[], cap, current, {})
  {
    ReserveMonotone(0, c.workers, c.maxCost);
  }

  lemma CounterTick(c: Config, spend: map<nat, real>, cap: real, current: nat, later: nat, busy: set<nat>)
    requires CounterInv(c, spend, cap, current, busy) && current <= later
    ensures CounterInv(c, spend, cap, later, busy)
  {
    hide Capped, Limit, Reserve;
    if 0.0 < cap {
      CappedTick(spend, Limit(c, cap), current, later, Reserve(|busy|, c.maxCost));
    }
  }

  lemma CounterJoin(c: Config, spend: map<nat, real>, cap: real, current: nat, busy: set<nat>, w: nat)
    requires c.Valid() && CounterInv(c, spend, cap, current, busy)
    requires (forall v: nat :: v in busy ==> v < c.workers) && w < c.workers && w !in busy
    requires 0.0 < cap ==> Spent(spend, current) < cap
    ensures CounterInv(c, spend, cap, current, busy + {w})
  {
    RoomForOne(busy, c.workers, w);
    ReserveMonotone(|busy| + 1, c.workers, c.maxCost);
    hide Capped, Reserve, Spent;
    if 0.0 < cap {
      assert |busy + {w}| == |busy| + 1;
      CappedCheck(spend, cap, Limit(c, cap), current, Reserve(|busy|, c.maxCost), Reserve(|busy| + 1, c.maxCost));
    }
  }

  lemma CounterLeave(c: Config, spend: map<nat, real>, cap: real, current: nat, busy: set<nat>, w: nat, usd: real)
    requires c.Valid() && CounterInv(c, spend, cap, current, busy) && w in busy && usd <= c.maxCost
    ensures CounterInv(c, Add(spend, current, usd), cap, current, busy - {w})
  {
    var k := |busy - {w}|;
    assert |busy| == k + 1;
    assert Reserve(k + 1, c.maxCost) == c.maxCost + Reserve(k, c.maxCost);
    ReserveMonotone(k, k, c.maxCost);
    hide Capped, Reserve, Spent, Add, Limit;
    if 0.0 < cap {
      CappedDrop(spend, Limit(c, cap), current, Reserve(|busy|, c.maxCost), c.maxCost, usd);
    }
  }

  lemma InvInitial(c: Config)
    requires c.Valid()
    ensures Inv(c, INITIAL)
  {
    hide CounterInv;
    CounterInitial(c, c.daily, c.calendar.dayOf(0));
    CounterInitial(c, c.monthly, c.calendar.MonthOf(0));
    assert Owing(INITIAL) == {} && DayBusy(INITIAL) == {};
  }

  lemma InvApply(c: Config, s: State, step: Step)
    requires c.Valid() && Inv(c, s) && Enabled(c, s, step)
    ensures Inv(c, Apply(c, s, step))
  {
    hide CounterInv, Add, Spent, SplitOf;
    var next := Apply(c, s, step);
    var day, month := c.calendar.dayOf(s.now), c.calendar.MonthOf(s.now);
    match step
    case Tick(to) =>
      CounterTick(c, s.day, c.daily, day, c.calendar.dayOf(to), DayBusy(s));
      CounterTick(c, s.month, c.monthly, month, c.calendar.MonthOf(to), Owing(s));
    case CheckDay(w) =>
      CounterJoin(c, s.day, c.daily, day, DayBusy(s), w);
      assert DayBusy(next) == DayBusy(s) + {w} && Owing(next) == Owing(s);
    case CheckMonth(w) =>
      CounterJoin(c, s.month, c.monthly, month, Owing(s), w);
      assert DayBusy(next) == DayBusy(s) && Owing(next) == Owing(s) + {w};
    case Fail(w) =>
      AddNothing(s.day, day);
      AddNothing(s.month, month);
      CounterLeave(c, s.day, c.daily, day, DayBusy(s), w, 0.0);
      assert DayBusy(next) == DayBusy(s) - {w};
      if w in s.calling {
        CounterLeave(c, s.month, c.monthly, month, Owing(s), w, 0.0);
        assert Owing(next) == Owing(s) - {w};
      } else {
        assert Owing(next) == Owing(s);
      }
    case RecordDay(w, usd) =>
      CounterLeave(c, s.day, c.daily, day, DayBusy(s), w, usd);
      assert DayBusy(next) == DayBusy(s) - {w} && Owing(next) == Owing(s);
    case RecordMonth(w) =>
      CounterLeave(c, s.month, c.monthly, month, Owing(s), w, s.half[w].usd);
      assert DayBusy(next) == DayBusy(s) && Owing(next) == Owing(s) - {w};
  }

  lemma AddNothing(spend: map<nat, real>, period: nat)
    ensures Add(spend, period, 0.0) == spend
  {
  }

  lemma {:induction false} InvRun(c: Config, s: State, steps: seq<Step>)
    requires c.Valid() && Inv(c, s)
    ensures Inv(c, Run(c, s, steps))
    decreases |steps|
  {
    if steps != [] {
      var next := Apply(c, s, steps[0]);
      if Enabled(c, s, steps[0]) {
        InvApply(c, s, steps[0]);
      } else {
        assert next == s;
      }
      hide Inv, Apply, Enabled;
      InvRun(c, next, steps[1..]);
    }
  }

  /**
   The overshoot bound: in every interleaving, and for every day and month including those that begin while calls are
   under way, what is recorded stays below the cap plus one call's cost for each worker.
   */
  lemma OvershootBound(c: Config, steps: seq<Step>, period: nat)
    requires c.Valid()
    ensures var s := Run(c, INITIAL, steps);
            && (0.0 < c.daily ==> Spent(s.day, period) < c.daily + c.workers as real * c.maxCost)
            && (0.0 < c.monthly ==> Spent(s.month, period) < c.monthly + c.workers as real * c.maxCost)
  {
    hide *;
    InvInitial(c);
    InvRun(c, INITIAL, steps);
    InvMeans(c, Run(c, INITIAL, steps), period);
  }

  lemma InvMeans(c: Config, s: State, period: nat)
    requires Inv(c, s)
    ensures 0.0 < c.daily ==> Spent(s.day, period) < c.daily + c.workers as real * c.maxCost
    ensures 0.0 < c.monthly ==> Spent(s.month, period) < c.monthly + c.workers as real * c.maxCost
  {
    hide CounterInv, Spent;
    CounterMeans(c, s.day, c.daily, c.calendar.dayOf(s.now), DayBusy(s), period);
    CounterMeans(c, s.month, c.monthly, c.calendar.MonthOf(s.now), Owing(s), period);
  }

  lemma CounterMeans(c: Config, spend: map<nat, real>, cap: real, current: nat, busy: set<nat>, period: nat)
    requires CounterInv(c, spend, cap, current, busy)
    ensures 0.0 < cap ==> Spent(spend, period) < cap + c.workers as real * c.maxCost
  {
    ReserveIsProduct(c.workers, c.maxCost);
    hide Reserve, Spent;
  }

  // --- months and their days

  /** The spend of the days of one month, out of the days before the given one. */
  function DaysOf(cal: Calendar, day: map<nat, real>, month: nat, before: nat): real {
    if before == 0 then 0.0
    else DaysOf(cal, day, month, before - 1)
         + if cal.monthOfDay(before - 1) == month then Spent(day, before - 1) else 0.0
  }

  function Positive(usd: real): real { if usd <= 0.0 then 0.0 else usd }

  lemma {:induction false} DaysOfAdd(cal: Calendar, day: map<nat, real>, month: nat, before: nat, d: nat, usd: real)
    ensures DaysOf(cal, Add(day, d, usd), month, before)
         == DaysOf(cal, day, month, before) + if d < before && cal.monthOfDay(d) == month then Positive(usd) else 0.0
  {
    if before != 0 {
      DaysOfAdd(cal, day, month, before - 1, d, usd);
    }
  }

  lemma {:induction false} DaysOfNone(cal: Calendar, month: nat, before: nat)
    ensures DaysOf(cal, map[], month, before) == 0.0
  {
    if before != 0 {
      DaysOfNone(cal, month, before - 1);
    }
  }

  /** Costs of the month's days that are not on its counter yet, of the workers below n. */
  function Outstanding(cal: Calendar, half: map<nat, Half>, month: nat, n: nat): real {
    if n == 0 then 0.0
    else Outstanding(cal, half, month, n - 1)
         + if n - 1 in half && cal.monthOfDay(half[n - 1].day) == month then Positive(half[n - 1].usd) else 0.0
  }

  /** What the splits took from a month, and what they brought it. */
  function Lost(splits: seq<Split>, month: nat): real {
    if splits == [] then 0.0
    else Lost(splits[..|splits| - 1], month)
         + if splits[|splits| - 1].from == month then splits[|splits| - 1].usd else 0.0
  }

  function Gained(splits: seq<Split>, month: nat): real {
    if splits == [] then 0.0
    else Gained(splits[..|splits| - 1], month)
         + if splits[|splits| - 1].to == month then splits[|splits| - 1].usd else 0.0
  }

  lemma SplitsGrow(splits: seq<Split>, from: nat, to: nat, usd: real, month: nat)
    ensures var more := splits + SplitOf(from, to, usd);
            && Lost(more, month) == Lost(splits, month) + (if from == month && from != to then Positive(usd) else 0.0)
            && Gained(more, month) == Gained(splits, month) + (if to == month && from != to then Positive(usd) else 0.0)
  {
    var more := splits + SplitOf(from, to, usd);
    if from != to && 0.0 < usd {
      assert more[..|more| - 1] == splits;
    } else {
      assert more == splits;
    }
  }

  lemma {:induction false} OutstandingAdds(cal: Calendar, half: map<nat, Half>, month: nat, n: nat, w: nat, h: Half)
    requires w !in half
    ensures Outstanding(cal, half[w := h], month, n)
         == Outstanding(cal, half, month, n) + if w < n && cal.monthOfDay(h.day) == month then Positive(h.usd) else 0.0
  {
    if n != 0 {
      OutstandingAdds(cal, half, month, n - 1, w, h);
    }
  }

  lemma {:induction false} OutstandingDrops(cal: Calendar, half: map<nat, Half>, month: nat, n: nat, w: nat)
    requires w in half
    ensures Outstanding(cal, half - {w}, month, n)
         == Outstanding(cal, half, month, n)
            - if w < n && cal.monthOfDay(half[w].day) == month then Positive(half[w].usd) else 0.0
  {
    if n != 0 {
      OutstandingDrops(cal, half, month, n - 1, w);
    }
  }

  lemma {:induction false} OutstandingNone(cal: Calendar, month: nat, n: nat)
    ensures Outstanding(cal, map[], month, n) == 0.0
  {
    if n != 0 {
      OutstandingNone(cal, month, n - 1);
    }
  }

  /** Splits go from an earlier month to a later one. */
  ghost predicate Forward(c: Config, s: State) {
    && (forall w :: w in s.half ==> s.half[w].day <= c.calendar.dayOf(s.now))
    && (forall i :: 0 <= i < |s.splits| ==> s.splits[i].from < s.splits[i].to && 0.0 < s.splits[i].usd)
  }

  /** The account of one month against its days before a day yet to come. */
  ghost predicate Settles(c: Config, s: State, month: nat, before: nat) {
    Spent(s.month, month) + Outstanding(c.calendar, s.half, month, c.workers) + Lost(s.splits, month)
    == DaysOf(c.calendar, s.day, month, before) + Gained(s.splits, month)
  }

  ghost predicate Balanced(c: Config, s: State) {
    forall month: nat, before: nat :: c.calendar.dayOf(s.now) < before ==> Settles(c, s, month, before)
  }

  lemma BalancedInitial(c: Config)
    ensures Balanced(c, INITIAL) && Forward(c, INITIAL)
  {
    forall m: nat, b: nat
      ensures Settles(c, INITIAL, m, b)
    {
      DaysOfNone(c.calendar, m, b);
      OutstandingNone(c.calendar, m, c.workers);
    }
  }

  lemma ForwardApply(c: Config, s: State, step: Step)
    requires c.Valid() && Forward(c, s)
    ensures Forward(c, Apply(c, s, step))
  {
  }

  lemma SpentAdd(spend: map<nat, real>, period: nat, usd: real, month: nat)
    ensures Spent(Add(spend, period, usd), month)
         == Spent(spend, month) + if period == month then Positive(usd) else 0.0
  {
  }

  lemma SettlesApply(c: Config, s: State, step: Step, month: nat, before: nat)
    requires c.Valid() && WorkersInv(c, s) && Enabled(c, s, step) && Settles(c, s, month, before)
    requires c.calendar.dayOf(s.now) < before
    ensures Settles(c, Apply(c, s, step), month, before)
  {
    hide DaysOf, Outstanding, Lost, Gained, Spent, Add, SplitOf;
    match step
    case RecordDay(w, usd) =>
      var d := c.calendar.dayOf(s.now);
      DaysOfAdd(c.calendar, s.day, month, before, d, usd);
      OutstandingAdds(c.calendar, s.half, month, c.workers, w, Half(usd, d));
    case RecordMonth(w) =>
      var h, to := s.half[w], c.calendar.MonthOf(s.now);
      SpentAdd(s.month, to, h.usd, month);
      OutstandingDrops(c.calendar, s.half, month, c.workers, w);
      SplitsGrow(s.splits, c.calendar.monthOfDay(h.day), to, h.usd, month);
    case _ =>
  }

  lemma BalancedApply(c: Config, s: State, step: Step)
    requires c.Valid() && WorkersInv(c, s) && Balanced(c, s)
    ensures Balanced(c, Apply(c, s, step))
  {
    if Enabled(c, s, step) {
      var next := Apply(c, s, step);
      assert c.calendar.dayOf(s.now) <= c.calendar.dayOf(next.now);
      forall month: nat, before: nat | c.calendar.dayOf(next.now) < before
        ensures Settles(c, next, month, before)
      {
        hide Settles, Apply, Enabled;
        SettlesApply(c, s, step, month, before);
      }
    }
  }

  lemma {:induction false} BalancedRun(c: Config, s: State, steps: seq<Step>)
    requires c.Valid() && Inv(c, s) && Balanced(c, s) && Forward(c, s)
    ensures Balanced(c, Run(c, s, steps)) && Forward(c, Run(c, s, steps))
    decreases |steps|
  {
    if steps != [] {
      var next := Apply(c, s, steps[0]);
      if Enabled(c, s, steps[0]) {
        InvApply(c, s, steps[0]);
      }
      BalancedApply(c, s, steps[0]);
      ForwardApply(c, s, steps[0]);
      hide Balanced, Forward, Apply, Inv;
      BalancedRun(c, next, steps[1..]);
    }
  }

  /**
   In every interleaving, a month's counter with what is still outstanding for it is the sum of its days' counters, up
   to the costs that were split across a month's end.
   */
  lemma MonthAccount(c: Config, steps: seq<Step>, month: nat, before: nat)
    requires c.Valid() && c.calendar.dayOf(Run(c, INITIAL, steps).now) < before
    ensures Settles(c, Run(c, INITIAL, steps), month, before)
  {
    InvInitial(c);
    BalancedInitial(c);
    BalancedRun(c, INITIAL, steps);
    hide Settles, Run, INITIAL;
  }

  /** Where each cost went to the month of its day, nothing but the outstanding costs is missing. */
  lemma MonthIsSumOfDays(c: Config, steps: seq<Step>, month: nat, before: nat)
    requires c.Valid() && c.calendar.dayOf(Run(c, INITIAL, steps).now) < before
    requires Run(c, INITIAL, steps).splits == []
    ensures var s := Run(c, INITIAL, steps);
            Spent(s.month, month) + Outstanding(c.calendar, s.half, month, c.workers)
            == DaysOf(c.calendar, s.day, month, before)
  {
    MonthAccount(c, steps, month, before);
  }

  lemma {:induction false} EarliestSplit(splits: seq<Split>) returns (month: nat)
    requires splits != [] && forall i :: 0 <= i < |splits| ==> splits[i].from < splits[i].to && 0.0 < splits[i].usd
    ensures 0.0 < Lost(splits, month) && Gained(splits, month) == 0.0
    ensures forall i :: 0 <= i < |splits| ==> month <= splits[i].from
  {
    var front, last := splits[..|splits| - 1], splits[|splits| - 1];
    if front == [] {
      month := last.from;
    } else {
      month := EarliestSplit(front);
      if last.from < month {
        NothingBefore(front, last.from);
        month := last.from;
      }
    }
  }

  lemma {:induction false} NothingBefore(splits: seq<Split>, month: nat)
    requires forall i :: 0 <= i < |splits| ==> month < splits[i].from < splits[i].to
    ensures Lost(splits, month) == 0.0 && Gained(splits, month) == 0.0
  {
    if splits != [] {
      NothingBefore(splits[..|splits| - 1], month);
    }
  }

  /**
   When all is recorded, every month equals its days if and only if no positive cost was split across a month's end.
   */
  lemma MonthsAgreeExactly(c: Config, steps: seq<Step>, before: nat)
    requires c.Valid() && c.calendar.dayOf(Run(c, INITIAL, steps).now) < before
    requires Run(c, INITIAL, steps).half == map[]
    ensures var s := Run(c, INITIAL, steps);
            s.splits == [] <==> forall month: nat :: Spent(s.month, month) == DaysOf(c.calendar, s.day, month, before)
  {
    var s := Run(c, INITIAL, steps);
    InvInitial(c);
    BalancedInitial(c);
    BalancedRun(c, INITIAL, steps);
    forall month: nat
      ensures Spent(s.month, month) + Lost(s.splits, month)
           == DaysOf(c.calendar, s.day, month, before) + Gained(s.splits, month)
    {
      assert Settles(c, s, month, before);
      OutstandingNone(c.calendar, month, c.workers);
    }
    hide Run, INITIAL, Balanced;
    if s.splits != [] {
      var month := EarliestSplit(s.splits);
      assert Spent(s.month, month) != DaysOf(c.calendar, s.day, month, before);
    }
  }

  /** Any call that is recorded as a month ends is split: here at instants t and later, of different months. */
  lemma SplitKeysDrift(c: Config, t: nat, later: nat, usd: real)
    requires c.Valid() && 0 < c.workers && 0.0 < usd <= c.maxCost
    requires t <= later && c.calendar.MonthOf(t) != c.calendar.MonthOf(later)
    ensures var s := Run(c, INITIAL, [Tick(t), CheckDay(0), CheckMonth(0), RecordDay(0, usd), Tick(later),
                                      RecordMonth(0)]);
            s.half == map[] && s.splits == [Split(c.calendar.MonthOf(t), c.calendar.MonthOf(later), usd)]
  {
    var steps := [Tick(t), CheckDay(0), CheckMonth(0), RecordDay(0, usd), Tick(later), RecordMonth(0)];
    var s1 := Apply(c, INITIAL, steps[0]);
    var s2 := Apply(c, s1, steps[1]);
    var s3 := Apply(c, s2, steps[2]);
    var s4 := Apply(c, s3, steps[3]);
    var s5 := Apply(c, s4, steps[4]);
    var s6 := Apply(c, s5, steps[5]);
    assert s2.checking == {0};
    assert s3.calling == {0};
    assert s4.half == map[0 := Half(usd, c.calendar.dayOf(t))];
    assert s6.half == map[] && s6.splits == [Split(c.calendar.MonthOf(t), c.calendar.MonthOf(later), usd)];
    hide Apply;
    assert steps[5..][1..] == [];
    assert Run(c, s5, steps[5..]) == Run(c, s6, []);
    assert steps[4..][1..] == steps[5..];
    assert Run(c, s4, steps[4..]) == Run(c, s5, steps[5..]);
    assert steps[3..][1..] == steps[4..];
    assert Run(c, s3, steps[3..]) == Run(c, s4, steps[4..]);
    assert steps[2..][1..] == steps[3..];
    assert Run(c, s2, steps[2..]) == Run(c, s3, steps[3..]);
    assert steps[1..][1..] == steps[2..];
    assert Run(c, s1, steps[1..]) == Run(c, s2, steps[2..]);
  }

  // --- no check refuses for nothing

  /** A check of an idle worker is refused exactly when the day's counter has reached the cap that is set for days. */
  lemma DayRefusedExactly(c: Config, s: State, w: nat)
    requires w < c.workers && Idle(s, w)
    ensures w !in Apply(c, s, CheckDay(w)).checking
            <==> 0.0 < c.daily && c.daily <= Spent(s.day, c.calendar.dayOf(s.now))
  {
  }

  /** And past that check, exactly when the month's counter has reached the one for months. */
  lemma MonthRefusedExactly(c: Config, s: State, w: nat)
    requires w in s.checking && w !in s.calling
    ensures w !in Apply(c, s, CheckMonth(w)).calling
            <==> 0.0 < c.monthly && c.monthly <= Spent(s.month, c.calendar.MonthOf(s.now))
  {
  }

  /** One round of a worker: both checks, and if they pass a call of the given cost and its two records. */
  function Round(w: nat, usd: real): seq<Step> { [CheckDay(w), CheckMonth(w), RecordDay(w, usd), RecordMonth(w)] }

  function Rounds(c: Config, s: State, w: nat, usd: real, n: nat): State {
    if n == 0 then s else Run(c, Rounds(c, s, w, usd, n - 1), Round(w, usd))
  }

  /** Does the worker get a call now? */
  predicate Gets(c: Config, s: State, w: nat) {
    w in Apply(c, Apply(c, s, CheckDay(w)), CheckMonth(w)).calling
  }

  lemma RoundRuns(c: Config, s: State, w: nat, usd: real)
    requires w < c.workers && Idle(s, w) && 0.0 < usd <= c.maxCost
    requires c.monthly <= 0.0
    ensures var n, today := Run(c, s, Round(w, usd)), c.calendar.dayOf(s.now);
            && n.now == s.now && Idle(n, w)
            && (if Gets(c, s, w) then Spent(n.day, today) == Spent(s.day, today) + usd else n.day == s.day)
    ensures Gets(c, s, w) <==> (0.0 < c.daily ==> Spent(s.day, c.calendar.dayOf(s.now)) < c.daily)
  {
    var s1 := Apply(c, s, CheckDay(w));
    var s2 := Apply(c, s1, CheckMonth(w));
    var s3 := Apply(c, s2, RecordDay(w, usd));
    var s4 := Apply(c, s3, RecordMonth(w));
    RunFour(c, s, Round(w, usd));
  }

  lemma RunFour(c: Config, s: State, four: seq<Step>)
    requires |four| == 4
    ensures Run(c, s, four) == Apply(c, Apply(c, Apply(c, Apply(c, s, four[0]), four[1]), four[2]), four[3])
  {
    hide Apply;
    assert four[1..][1..] == four[2..] && four[2..][1..] == four[3..] && four[3..][1..] == [];
    var s1 := Apply(c, s, four[0]);
    var s2 := Apply(c, s1, four[1]);
    var s3 := Apply(c, s2, four[2]);
    assert Run(c, s, four) == Run(c, s1, four[1..]);
    assert Run(c, s1, four[1..]) == Run(c, s2, four[2..]);
    assert Run(c, s2, four[2..]) == Run(c, s3, four[3..]);
    assert Run(c, s3, four[3..]) == Run(c, Apply(c, s3, four[3]), []);
  }

  lemma {:induction false} LoneWorkerSpends(c: Config, s: State, w: nat, usd: real, n: nat)
    requires w < c.workers && Idle(s, w) && 0.0 < usd <= c.maxCost && c.monthly <= 0.0
    requires Spent(s.day, c.calendar.dayOf(s.now)) == 0.0
    ensures var after, today := Rounds(c, s, w, usd, n), c.calendar.dayOf(s.now);
            && after.now == s.now && Idle(after, w)
            && (0.0 < c.daily ==> if n as real * usd < c.daily then Spent(after.day, today) == n as real * usd
                                  else c.daily <= Spent(after.day, today))
  {
    if 0 < n {
      var before := Rounds(c, s, w, usd, n - 1);
      LoneWorkerSpends(c, s, w, usd, n - 1);
      RoundRuns(c, before, w, usd);
      assert n as real * usd == (n - 1) as real * usd + usd;
      hide Gets, Run;
    }
  }

  /** A lone worker gets its next call of the day exactly as long as what its calls have cost is below the cap. */
  lemma LoneWorkerGetsExactly(c: Config, s: State, w: nat, usd: real, n: nat)
    requires w < c.workers && Idle(s, w) && 0.0 < usd <= c.maxCost && c.monthly <= 0.0 && 0.0 < c.daily
    requires Spent(s.day, c.calendar.dayOf(s.now)) == 0.0
    ensures Gets(c, Rounds(c, s, w, usd, n), w) <==> n as real * usd < c.daily
  {
    LoneWorkerSpends(c, s, w, usd, n);
    RoundRuns(c, Rounds(c, s, w, usd, n), w, usd);
    hide Gets, Run, Rounds;
  }

  // --- one worker's part

  /**
   What one completion attempt comes to: an exception, a text that is no JSON object, or an answer, each with its cost.
   */
  datatype Attempt = Error | Unusable(cost: real, content: string) | Answer(cost: real, content: string)

  datatype ChatResult = OverBudget | Failed | Parsed(content: string)

  function FirstAnswer(attempts: seq<Attempt>): (r: Option<Attempt>)
    ensures r.Some? ==> r.value.Answer?
  {
    if attempts == [] then None
    else if attempts[0].Answer? then Some(attempts[0])
    else FirstAnswer(attempts[1..])
  }

  function FirstText(attempts: seq<Attempt>): (r: Option<Attempt>)
    ensures r.Some? ==> !r.value.Error?
  {
    if attempts == [] then None
    else if !attempts[0].Error? then Some(attempts[0])
    else FirstText(attempts[1..])
  }

  /** The first attempt that answers is taken, and every one before it failed. */
  lemma {:induction false} FirstAnswerIs(attempts: seq<Attempt>)
    ensures match FirstAnswer(attempts)
            case None => forall i :: 0 <= i < |attempts| ==> !attempts[i].Answer?
            case Some(a) => exists i :: 0 <= i < |attempts| && attempts[i] == a && a.Answer?
                                        && forall j :: 0 <= j < i ==> !attempts[j].Answer?
  {
    if attempts != [] && !attempts[0].Answer? {
      var rest := attempts[1..];
      FirstAnswerIs(rest);
      if FirstAnswer(rest).Some? {
        var i :| 0 <= i < |rest| && rest[i] == FirstAnswer(rest).value && forall j :: 0 <= j < i ==> !rest[j].Answer?;
        assert attempts[i + 1] == FirstAnswer(attempts).value;
        assert forall j :: 0 < j < i + 1 ==> attempts[j] == rest[j - 1];
      }
    }
  }

  /** The first attempt that brings a text is taken, and every one before it was an exception. */
  lemma {:induction false} FirstTextIs(attempts: seq<Attempt>)
    ensures match FirstText(attempts)
            case None => forall i :: 0 <= i < |attempts| ==> attempts[i].Error?
            case Some(a) => exists i :: 0 <= i < |attempts| && attempts[i] == a && !a.Error?
                                        && forall j :: 0 <= j < i ==> attempts[j].Error?
  {
    if attempts != [] && attempts[0].Error? {
      var rest := attempts[1..];
      FirstTextIs(rest);
      if FirstText(rest).Some? {
        var i :| 0 <= i < |rest| && rest[i] == FirstText(rest).value && forall j :: 0 <= j < i ==> rest[j].Error?;
        assert attempts[i + 1] == FirstText(attempts).value;
        assert forall j :: 0 < j < i + 1 ==> attempts[j] == rest[j - 1];
      }
    }
  }

  /** The attempts alternate: for each candidate the structured one, then the plain one. */
  lemma {:induction false} InOrderAt(candidates: seq<(Attempt, Attempt)>, n: nat)
    requires n < |candidates|
    ensures |InOrder(candidates)| == 2 * |candidates|
    ensures InOrder(candidates)[2 * n] == candidates[n].0 && InOrder(candidates)[2 * n + 1] == candidates[n].1
  {
    if |candidates| == 1 {
      assert candidates[1..] == [];
    } else {
      InOrderAt(candidates[1..], if n == 0 then 0 else n - 1);
    }
  }

  /** Each model candidate with its structured and its plain attempt, in the order they are made. */
  function InOrder(candidates: seq<(Attempt, Attempt)>): seq<Attempt> {
    if candidates == [] then [] else [candidates[0].0, candidates[0].1] + InOrder(candidates[1..])
  }

  lemma {:induction false} RunAppend(c: Config, s: State, a: seq<Step>, b: seq<Step>)
    ensures Run(c, s, a + b) == Run(c, Run(c, s, a), b)
    decreases |a|
  {
    if a == [] {
      assert a + b == b;
    } else {
      assert (a + b)[1..] == a[1..] + b;
      hide Apply;
      RunAppend(c, Apply(c, s, a[0]), a[1..], b);
    }
  }

  lemma RunOne(c: Config, s: State, step: Step)
    ensures Run(c, s, [step]) == Apply(c, s, step)
  {
    assert [step][1..] == [];
  }

  /** Steps of the clock and of other workers. */
  predicate Foreign(steps: seq<Step>, w: nat) {
    forall i :: 0 <= i < |steps| ==> steps[i].Tick? || steps[i].worker != w
  }

  lemma {:induction false} ForeignKeeps(c: Config, s: State, steps: seq<Step>, w: nat)
    requires Foreign(steps, w)
    ensures var n := Run(c, s, steps);
            && (w in n.checking <==> w in s.checking) && (w in n.calling <==> w in s.calling)
            && (w in n.half <==> w in s.half) && (w in s.half ==> n.half[w] == s.half[w])
    decreases |steps|
  {
    if steps != [] {
      var next := Apply(c, s, steps[0]);
      assert w in next.checking <==> w in s.checking;
      assert w in next.calling <==> w in s.calling;
      assert w in next.half <==> w in s.half;
      assert Foreign(steps[1..], w);
      hide Apply;
      ForeignKeeps(c, next, steps[1..], w);
    }
  }

  predicate Affordable(c: Config, found: Option<Attempt>) {
    found.Some? ==> !found.value.Error? && found.value.cost <= c.maxCost
  }

  /**
   A chat's steps, between those of the others, and what it returns: nothing beyond a check that fails; after both
   checks the two records of what was found, if it has a cost, or the end of the call.
   */
  ghost predicate Chatted(c: Config, s: State, w: nat, found: Option<Attempt>, checks: seq<Step>, calls: seq<Step>,
                          records: seq<Step>, after: State, r: ChatResult)
    requires Affordable(c, found)
  {
    var checked := Run(c, Apply(c, s, CheckDay(w)), checks);
    var called := Run(c, Apply(c, checked, CheckMonth(w)), calls);
    if !DayOk(c, s) then r == OverBudget && after == s
    else if !MonthOk(c, checked) then r == OverBudget && after == Apply(c, checked, Fail(w))
    else if found.None? then r == Failed && after == Apply(c, called, Fail(w))
    else
      && r == Parsed(found.value.content)
      && after == if found.value.cost <= 0.0 then Apply(c, called, Fail(w))
                  else Apply(c, Run(c, Apply(c, called, RecordDay(w, found.value.cost)), records), RecordMonth(w))
  }

  /** One worker, in a state that a run of all of them has led to. */
  class Worker {
    const config: Config
    const id: nat
    var s: State
    ghost var steps: seq<Step>

    ghost predicate Valid()
      reads this
    {
      id < config.workers && s == Run(config, INITIAL, steps)
    }

    constructor (config: Config, id: nat)
      requires id < config.workers
      ensures Valid() && this.config == config && this.id == id && s == INITIAL
    {
      this.config, this.id, s, steps := config, id, INITIAL, [];
    }

    /** One step of this worker. */
    method Take(step: Step)
      requires Valid()
      modifies this`s, this`steps
      ensures Valid() && s == Apply(config, old(s), step)
    {
      RunAppend(config, INITIAL, steps, [step]);
      RunOne(config, s, step);
      s := Apply(config, s, step);
      steps := steps + [step];
    }

    /** What the clock and the other workers do meanwhile. */
    method Meanwhile(others: seq<Step>)
      requires Valid() && Foreign(others, id)
      modifies this`s, this`steps
      ensures Valid() && s == Run(config, old(s), others)
      ensures (id in s.checking <==> id in old(s.checking)) && (id in s.calling <==> id in old(s.calling))
      ensures (id in s.half <==> id in old(s.half)) && (id in old(s.half) ==> s.half[id] == old(s.half[id]))
    {
      RunAppend(config, INITIAL, steps, others);
      ForeignKeeps(config, s, others, id);
      s := Run(config, s, others);
      steps := steps + others;
    }

    /** The two checks, with whatever happens between them. */
    method AssertWithinBudget(between: seq<Step>) returns (ok: bool)
      requires Valid() && Idle(s, id) && Foreign(between, id)
      modifies this`s, this`steps
      ensures Valid() && if ok then id in s.calling && id !in s.checking && id !in s.half else Idle(s, id)
      ensures var checked := Run(config, Apply(config, old(s), CheckDay(id)), between);
              && (ok <==>
                    && (0.0 < config.daily ==> Spent(old(s.day), config.calendar.dayOf(old(s.now))) < config.daily)
                    && (0.0 < config.monthly ==>
                          Spent(checked.month, config.calendar.MonthOf(checked.now)) < config.monthly))
              && s == if !DayOk(config, old(s)) then old(s)
                      else Apply(config, checked, if ok then CheckMonth(id) else Fail(id))
    {
      if 0.0 < config.daily && config.daily <= Spent(s.day, config.calendar.dayOf(s.now)) {
        return false;
      }
      Take(CheckDay(id));
      hide Run;
      Meanwhile(between);
      if 0.0 < config.monthly && config.monthly <= Spent(s.month, config.calendar.MonthOf(s.now)) {
        Take(Fail(id));
        return false;
      }
      Take(CheckMonth(id));
      return true;
    }

    /** The two records, with whatever happens between them; nothing is recorded of a cost that is not positive. */
    method RecordUsage(usd: real, between: seq<Step>)
      requires Valid() && id in s.calling && id !in s.checking && id !in s.half && usd <= config.maxCost
      requires Foreign(between, id)
      modifies this`s, this`steps
      ensures Valid() && Idle(s, id)
      ensures s == if usd <= 0.0 then Apply(config, old(s), Fail(id))
                   else Apply(config, Run(config, Apply(config, old(s), RecordDay(id, usd)), between), RecordMonth(id))
    {
      if usd <= 0.0 {
        Take(Fail(id));
        return;
      }
      Take(RecordDay(id, usd));
      hide Run;
      Meanwhile(between);
      Take(RecordMonth(id));
    }

    /**
     One check, then attempts until one answers. At most one cost is ever recorded for a check, namely that of the
     answer that is returned: what unusable answers cost is recorded nowhere.
     */
    method ChatParsed(candidates: seq<(Attempt, Attempt)>, checks: seq<Step>, calls: seq<Step>, records: seq<Step>)
      returns (r: ChatResult)
      requires Valid() && Idle(s, id) && Foreign(checks, id) && Foreign(calls, id) && Foreign(records, id)
      requires Affordable(config, FirstAnswer(InOrder(candidates)))
      modifies this`s, this`steps
      ensures Valid() && Idle(s, id)
      ensures Chatted(config, old(s), id, FirstAnswer(InOrder(candidates)), checks, calls, records, s, r)
    {
      var ok := AssertWithinBudget(checks);
      if !ok {
        return OverBudget;
      }
      hide Run, DayOk, MonthOk;
      Meanwhile(calls);
      ghost var called, done := s, steps;
      for n := 0 to |candidates|
        invariant s == called && steps == done
        invariant FirstAnswer(InOrder(candidates)) == FirstAnswer(InOrder(candidates[n..]))
      {
        var (structured, plain) := candidates[n];
        InOrderStep(candidates, n);
        hide InOrder, FirstAnswer, Apply;
        if structured.Answer? {
          RecordUsage(structured.cost, records);
          return Parsed(structured.content);
        }
        if plain.Answer? {
          RecordUsage(plain.cost, records);
          return Parsed(plain.content);
        }
      }
      Take(Fail(id));
      return Failed;
    }

    /** One attempt for each candidate, and the first text that comes, JSON object or not, is returned and recorded. */
    method ChatJson(candidates: seq<Attempt>, checks: seq<Step>, calls: seq<Step>, records: seq<Step>)
      returns (r: ChatResult)
      requires Valid() && Idle(s, id) && Foreign(checks, id) && Foreign(calls, id) && Foreign(records, id)
      requires Affordable(config, FirstText(candidates))
      modifies this`s, this`steps
      ensures Valid() && Idle(s, id)
      ensures Chatted(config, old(s), id, FirstText(candidates), checks, calls, records, s, r)
    {
      var ok := AssertWithinBudget(checks);
      if !ok {
        return OverBudget;
      }
      hide Run, DayOk, MonthOk;
      Meanwhile(calls);
      ghost var called, done := s, steps;
      for n := 0 to |candidates|
        invariant s == called && steps == done
        invariant FirstText(candidates) == FirstText(candidates[n..])
      {
        assert candidates[n..][1..] == candidates[n + 1..];
        if !candidates[n].Error? {
          RecordUsage(candidates[n].cost, records);
          return Parsed(candidates[n].content);
        }
      }
      Take(Fail(id));
      return Failed;
    }
  }

  lemma InOrderStep(candidates: seq<(Attempt, Attempt)>, n: nat)
    requires n < |candidates|
    ensures FirstAnswer(InOrder(candidates[n..])) ==
            if candidates[n].0.Answer? then Some(candidates[n].0)
            else if candidates[n].1.Answer? then Some(candidates[n].1)
            else FirstAnswer(InOrder(candidates[n + 1..]))
  {
    var rest := InOrder(candidates[n + 1..]);
    assert candidates[n..][1..] == candidates[n + 1..];
    var all := [candidates[n].0, candidates[n].1] + rest;
    assert InOrder(candidates[n..]) == all;
    assert all[1..] == [candidates[n].1] + rest && all[1..][1..] == rest;
  }
}
