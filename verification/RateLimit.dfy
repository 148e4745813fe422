/** Requests per minute: one counter per key and minute in a store whose keys expire.

  A call reads the clock, then increments the counter of that minute, then, if it made the counter,
  gives it two minutes to live. The two commands reach the store separately, so another call's may
  come in between. The counts are right as long as every increment reaches the store before the
  minute after its own is over. */
module RateLimit {
  import opened Options
  import opened Calendar

  type KeyId = string

  const HOUR := 60 * MINUTE
  const TTL := 2 * MINUTE

  // The year, month, day, hour and minute of an instant: the suffix of the counter's name.
  datatype Window = Window(date: Date, hour: nat, minute: nat)

  function WindowOf(now: nat): Window {
    Window(Today(now), now % DAY / HOUR, now % HOUR / MINUTE)
  }

  // Minutes, hours and days count the same time.
  lemma {:induction false} Clock(now: nat)
    ensures now / HOUR == now / MINUTE / 60 && now / DAY == now / HOUR / 24
    ensures now / MINUTE == 60 * (now / HOUR) + now % HOUR / MINUTE
    ensures now / HOUR == 24 * (now / DAY) + now % DAY / HOUR
  {
    var m, h := now / MINUTE, now / MINUTE / 60;
    assert m * MINUTE <= now < (m + 1) * MINUTE && h * 60 <= m < (h + 1) * 60;
    assert h * HOUR <= now < (h + 1) * HOUR;
    assert now / HOUR == h && now % HOUR == now - h * HOUR;
    var d := h / 24;
    assert d * DAY <= now < (d + 1) * DAY;
    assert now / DAY == d && now % DAY == now - d * DAY;
  }

  // Two instants have the same window exactly when they lie in the same minute.
  lemma {:induction false} WindowIsMinute(a: nat, b: nat)
    ensures WindowOf(a) == WindowOf(b) <==> a / MINUTE == b / MINUTE
  {
    Clock(a);
    Clock(b);
    if a / DAY < b / DAY {
      DatesIncrease(a / DAY, b / DAY);
    } else if b / DAY < a / DAY {
      DatesIncrease(b / DAY, a / DAY);
    }
  }

  // A counter; without an expiry until its maker has set one.
  datatype Counter = Counter(count: nat, expiresAt: nat, expires: bool)

  predicate Live(c: Counter, at: nat) {
    !c.expires || at < c.expiresAt
  }

  // INCR: an absent or expired counter starts again from zero, without an expiry.
  predicate Makes(c: Option<Counter>, at: nat) {
    c.None? || !Live(c.value, at)
  }

  function Incremented(c: Option<Counter>, at: nat): Counter {
    if Makes(c, at) then Counter(1, 0, false) else c.value.(count := c.value.count + 1)
  }

  // EXPIRE: a counter that is still there lives another two minutes.
  function Expiring(c: Option<Counter>, at: nat): Option<Counter> {
    if c.Some? && Live(c.value, at) then Some(c.value.(expiresAt := at + TTL, expires := true)) else c
  }

  // One call, as its increment took place, and the answer it leads to.
  datatype Call = Call(keyId: KeyId, now: nat, limit: int, allowed: bool)

  predicate Counted(c: Call, keyId: KeyId, minute: nat) {
    c.keyId == keyId && c.now / MINUTE == minute
  }

  function Made(calls: seq<Call>, keyId: KeyId, minute: nat): nat {
    if calls == [] then 0
    else Made(calls[..|calls| - 1], keyId, minute) + if Counted(calls[|calls| - 1], keyId, minute) then 1 else 0
  }

  // How many of a key's calls with a clock reading in [from, to) were allowed.
  function Allowed(calls: seq<Call>, keyId: KeyId, from: nat, to: nat): nat {
    if calls == [] then 0
    else
      var c := calls[|calls| - 1];
      Allowed(calls[..|calls| - 1], keyId, from, to) + if c.keyId == keyId && c.allowed && from <= c.now < to then 1 else 0
  }

  // Every call was allowed exactly when fewer calls than its limit came before it in its minute.
  predicate Fair(calls: seq<Call>) {
    calls == [] ||
    var c := calls[|calls| - 1];
    var before := calls[..|calls| - 1];
    (c.allowed <==> Made(before, c.keyId, c.now / MINUTE) < c.limit) && Fair(before)
  }

  // ---------------------------------------------------------------- one counter

  // A call on one counter; `stopped` if it ends between its two commands.
  datatype Arrival = Arrival(at: nat, later: nat, stopped: bool)

  function AfterCall(c: Option<Counter>, a: Arrival): Counter {
    var next := Incremented(c, a.at);
    if next.count == 1 && !a.stopped then Expiring(Some(next), a.later).value else next
  }

  function AfterAll(arrivals: seq<Arrival>): Option<Counter> {
    if arrivals == [] then None else Some(AfterCall(AfterAll(arrivals[..|arrivals| - 1]), arrivals[|arrivals| - 1]))
  }

  lemma {:induction false} NextArrival(arrivals: seq<Arrival>, n: nat)
    requires n < |arrivals|
    ensures AfterAll(arrivals[..n + 1]) == Some(AfterCall(AfterAll(arrivals[..n]), arrivals[n]))
  {
    assert arrivals[..n + 1][..n] == arrivals[..n];
  }

  // No call but the first makes the counter.
  ghost predicate MadeOnce(arrivals: seq<Arrival>) {
    forall n :: 0 < n < |arrivals| ==> !Makes(AfterAll(arrivals[..n]), arrivals[n].at)
  }

  ghost predicate CountsRight(arrivals: seq<Arrival>) {
    forall n :: 0 < n <= |arrivals| ==> AfterAll(arrivals[..n]).Some? && AfterAll(arrivals[..n]).value.count == n
  }

  // Every call is told its own number exactly when no call but the first makes the counter.
  lemma {:induction false} CountedExactly(arrivals: seq<Arrival>)
    ensures CountsRight(arrivals) <==> MadeOnce(arrivals)
  {
    if CountsRight(arrivals) {
      forall n | 0 < n < |arrivals| ensures !Makes(AfterAll(arrivals[..n]), arrivals[n].at) {
        NextArrival(arrivals, n);
        assert AfterAll(arrivals[..n + 1]).value.count == n + 1;
      }
    }
    if MadeOnce(arrivals) {
      forall n | 0 < n <= |arrivals| ensures AfterAll(arrivals[..n]).Some? && AfterAll(arrivals[..n]).value.count == n {
        CountIsNumber(arrivals, n);
      }
    }
  }

  // No arrival after the first comes when the expiry the first one set is over.
  ghost predicate InTime(arrivals: seq<Arrival>) {
    arrivals == [] || arrivals[0].stopped || forall n :: 0 < n < |arrivals| ==> arrivals[n].at < arrivals[0].later + 2 * MINUTE
  }

  lemma {:induction false} InTimeMakesOnce(arrivals: seq<Arrival>, n: nat)
    requires 0 < n <= |arrivals| && InTime(arrivals)
    ensures var c := AfterAll(arrivals[..n]);
      && c.Some? && c.value.count >= 1
      && (if arrivals[0].stopped then !c.value.expires else c.value.expires && c.value.expiresAt == arrivals[0].later + 2 * MINUTE)
  {
    NextArrival(arrivals, n - 1);
    if n == 1 {
    } else {
      InTimeMakesOnce(arrivals, n - 1);
    }
  }

  // In terms of the arrivals alone: the first call was stopped, or none comes too late for it.
  lemma {:induction false} MadeOnceExactly(arrivals: seq<Arrival>)
    ensures MadeOnce(arrivals) <==> InTime(arrivals)
  {
    if InTime(arrivals) {
      forall n | 0 < n < |arrivals| ensures !Makes(AfterAll(arrivals[..n]), arrivals[n].at) {
        InTimeMakesOnce(arrivals, n);
      }
    }
    if MadeOnce(arrivals) && arrivals != [] && !arrivals[0].stopped {
      forall n | 0 < n < |arrivals| ensures arrivals[n].at < arrivals[0].later + 2 * MINUTE {
        FirstExpiry(arrivals, n);
      }
    }
  }

  lemma {:induction false} FirstExpiry(arrivals: seq<Arrival>, n: nat)
    requires MadeOnce(arrivals) && 0 < n <= |arrivals| && !arrivals[0].stopped
    ensures AfterAll(arrivals[..n]) == Some(Counter(n, arrivals[0].later + 2 * MINUTE, true))
  {
    NextArrival(arrivals, n - 1);
    if n == 1 {
    } else {
      FirstExpiry(arrivals, n - 1);
    }
  }

  // So every call is told its own number exactly when the arrivals are in time.
  lemma {:induction false} CountedInTime(arrivals: seq<Arrival>)
    ensures CountsRight(arrivals) <==> InTime(arrivals)
  {
    CountedExactly(arrivals);
    MadeOnceExactly(arrivals);
  }

  lemma {:induction false} CountIsNumber(arrivals: seq<Arrival>, n: nat)
    requires MadeOnce(arrivals) && 0 < n <= |arrivals|
    ensures AfterAll(arrivals[..n]).Some? && AfterAll(arrivals[..n]).value.count == n
  {
    NextArrival(arrivals, n - 1);
    if n == 1 {
    } else {
      CountIsNumber(arrivals, n - 1);
    }
  }

  // It can go wrong: two calls in one minute, the second of which reaches the store two minutes
  // later. Both are told they are the first, and a limit of one lets both through.
  lemma {:induction false} LateCallRestarts()
    ensures var arrivals := [Arrival(0, 0, false), Arrival(2 * MINUTE, 2 * MINUTE, false)];
      && AfterAll(arrivals[..1]) == Some(Counter(1, 2 * MINUTE, true))
      && AfterAll(arrivals[..2]) == Some(Counter(1, 4 * MINUTE, true))
  {
    var arrivals := [Arrival(0, 0, false), Arrival(2 * MINUTE, 2 * MINUTE, false)];
    NextArrival(arrivals, 0);
    NextArrival(arrivals, 1);
  }

  // A counter that never expires.
  predicate Immortal(c: Option<Counter>) {
    c.Some? && !c.value.expires
  }

  // The call that made the counter was stopped before it set the expiry.
  predicate MakerStopped(arrivals: seq<Arrival>, n: nat)
    requires n < |arrivals|
  {
    arrivals[n].stopped && Makes(AfterAll(arrivals[..n]), arrivals[n].at)
  }

  // Counters are not immortal by design, but they become so exactly when a call that makes one is
  // stopped between its two commands, and no later call mends it.
  lemma {:induction false} ImmortalExactly(arrivals: seq<Arrival>, n: nat)
    requires n <= |arrivals|
    ensures Immortal(AfterAll(arrivals[..n])) <==> exists m :: 0 <= m < n && MakerStopped(arrivals, m)
    ensures AfterAll(arrivals[..n]).Some? ==> AfterAll(arrivals[..n]).value.count >= 1
  {
    if n == 0 {
    } else {
      ImmortalExactly(arrivals, n - 1);
      NextArrival(arrivals, n - 1);
      assert arrivals[n - 1] == arrivals[..n][n - 1];
      if exists m :: 0 <= m < n - 1 && MakerStopped(arrivals, m) {
        assert !Makes(AfterAll(arrivals[..n - 1]), arrivals[n - 1].at);
      } else if MakerStopped(arrivals, n - 1) {
        assert exists m :: 0 <= m < n && MakerStopped(arrivals, m);
      }
    }
  }

  // One stopped call is enough.
  lemma {:induction false} StoppedCallLeavesCounter(later: seq<Arrival>)
    ensures Immortal(AfterAll([Arrival(0, 0, true)] + later))
  {
    var arrivals := [Arrival(0, 0, true)] + later;
    assert MakerStopped(arrivals, 0);
    ImmortalExactly(arrivals, |arrivals|);
    assert arrivals[..|arrivals|] == arrivals;
  }

  // One more call counts in its own minute, whose window no other minute shares, and in no other.
  lemma {:induction false} MinutesApart(calls: seq<Call>, c: Call)
    ensures forall n: nat {:trigger WindowOf(n)} :: WindowOf(n) == WindowOf(c.now) <==> n / MINUTE == c.now / MINUTE
    ensures forall k, m: nat ::
      Made(calls + [c], k, m) == Made(calls, k, m) + if k == c.keyId && m == c.now / MINUTE then 1 else 0
    ensures Fair(calls + [c]) <==> (c.allowed <==> Made(calls, c.keyId, c.now / MINUTE) < c.limit) && Fair(calls)
  {
    forall n: nat ensures WindowOf(n) == WindowOf(c.now) <==> n / MINUTE == c.now / MINUTE {
      WindowIsMinute(n, c.now);
    }
    assert (calls + [c])[..|calls + [c]| - 1] == calls;
  }

  // Every counter holds the number of its calls and outlives its minute by another.
  ghost predicate Exact(counters: map<(KeyId, Window), Counter>, calls: seq<Call>) {
    && Fair(calls)
    && (forall keyId, now: nat ::
          if (keyId, WindowOf(now)) in counters then
            && counters[(keyId, WindowOf(now))].count == Made(calls, keyId, now / MINUTE)
            && Live(counters[(keyId, WindowOf(now))], now / MINUTE * MINUTE + 2 * MINUTE - 1)
          else
            Made(calls, keyId, now / MINUTE) == 0)
  }

  function Lookup(counters: map<(KeyId, Window), Counter>, keyId: KeyId, now: nat): Option<Counter> {
    if (keyId, WindowOf(now)) in counters then Some(counters[(keyId, WindowOf(now))]) else None
  }

  // An increment, told its count, keeps the counters exact exactly when that count is the right one.
  lemma {:induction false} IncrementExact(counters: map<(KeyId, Window), Counter>, calls: seq<Call>, c: Call, at: nat)
    requires Exact(counters, calls)
    requires c.allowed <==> Incremented(Lookup(counters, c.keyId, c.now), at).count <= c.limit
    ensures var next := Incremented(Lookup(counters, c.keyId, c.now), at);
      Exact(counters[(c.keyId, WindowOf(c.now)) := next], calls + [c]) <==> next.count == Made(calls, c.keyId, c.now / MINUTE) + 1
  {
    var next := Incremented(Lookup(counters, c.keyId, c.now), at);
    var after := counters[(c.keyId, WindowOf(c.now)) := next];
    MinutesApart(calls, c);
    assert after[(c.keyId, WindowOf(c.now))] == next;
  }

  // It is the right one exactly when the increment does not restart a counter already in use.
  lemma {:induction false} RightCount(counters: map<(KeyId, Window), Counter>, calls: seq<Call>, keyId: KeyId, now: nat, at: nat)
    requires Exact(counters, calls)
    ensures var c := Lookup(counters, keyId, now); var made := Made(calls, keyId, now / MINUTE);
      && (Incremented(c, at).count == made + 1 <==> made == 0 || !Makes(c, at))
      && (at < now / MINUTE * MINUTE + 2 * MINUTE ==> made == 0 || !Makes(c, at))
  {}

  class RateLimiter {
    var counters: map<(KeyId, Window), Counter>
    ghost var calls: seq<Call>

    function CounterOf(keyId: KeyId, now: nat): Option<Counter>
      reads this
    {
      Lookup(counters, keyId, now)
    }

    ghost predicate Valid()
      reads this
    {
      Exact(counters, calls)
    }

    constructor ()
      ensures Valid() && calls == []
    {
      counters, calls := map[], [];
    }

    // The counts stay right exactly when no increment restarts a minute already counted; one that
    // reaches the store before the minute after its own is over never does.
    method Increment(keyId: KeyId, ghost limit: int, now: nat, at: nat) returns (count: nat)
      modifies this
      ensures counters == old(counters)[(keyId, WindowOf(now)) := Incremented(old(CounterOf(keyId, now)), at)]
      ensures count == Incremented(old(CounterOf(keyId, now)), at).count
      ensures calls == old(calls) + [Call(keyId, now, limit, count <= limit)]
      ensures old(Valid()) ==> (Valid() <==> count == Made(old(calls), keyId, now / MINUTE) + 1)
      ensures old(Valid()) ==> (Valid() <==> Made(old(calls), keyId, now / MINUTE) == 0 || !Makes(old(CounterOf(keyId, now)), at))
      ensures old(Valid()) && at < now / MINUTE * MINUTE + 2 * MINUTE ==> Valid()
    {
      var key := (keyId, WindowOf(now));
      var counter := if key in counters && Live(counters[key], at) then counters[key] else Counter(0, 0, false);
      count := counter.count + 1;
      counters := counters[key := counter.(count := count)];
      calls := calls + [Call(keyId, now, limit, count <= limit)];
      if old(Valid()) {
        IncrementExact(old(counters), old(calls), Call(keyId, now, limit, count <= limit), at);
        RightCount(old(counters), old(calls), keyId, now, at);
      }
    }

    method Expire(keyId: KeyId, now: nat, at: nat)
      requires now <= at
      modifies this`counters
      ensures counters.Keys == old(counters).Keys && CounterOf(keyId, now) == Expiring(old(CounterOf(keyId, now)), at)
      ensures forall key :: key in counters && key != (keyId, WindowOf(now)) ==> counters[key] == old(counters)[key]
      ensures old(Valid()) ==> Valid()
    {
      var key := (keyId, WindowOf(now));
      if key in counters && Live(counters[key], at) {
        counters := counters[key := counters[key].(expiresAt := at + TTL, expires := true)];
        forall n: nat ensures WindowOf(n) == WindowOf(now) <==> n / MINUTE == now / MINUTE {
          WindowIsMinute(n, now);
        }
      }
    }

    method AllowMinute(keyId: KeyId, rpmLimit: int, now: nat, at: nat, later: nat) returns (allowed: bool)
      requires now <= at <= later
      modifies this
      ensures counters == old(counters)[(keyId, WindowOf(now)) := AfterCall(old(CounterOf(keyId, now)), Arrival(at, later, false))]
      ensures allowed <==> counters[(keyId, WindowOf(now))].count <= rpmLimit
      ensures calls == old(calls) + [Call(keyId, now, rpmLimit, allowed)]
      ensures old(Valid()) ==> (Valid() <==> Made(old(calls), keyId, now / MINUTE) == 0 || !Makes(old(CounterOf(keyId, now)), at))
      ensures Valid() ==> (allowed <==> Made(old(calls), keyId, now / MINUTE) < rpmLimit)
      ensures old(Valid()) && at < now / MINUTE * MINUTE + 2 * MINUTE ==> Valid()
    {
      var count := Increment(keyId, rpmLimit, now, at);
      if count == 1 {
        Expire(keyId, now, later);
      }
      return count <= rpmLimit;
    }
  }

  // ---------------------------------------------------------------- histories

  predicate FixedLimit(calls: seq<Call>, keyId: KeyId, limit: int) {
    forall i :: 0 <= i < |calls| && calls[i].keyId == keyId ==> calls[i].limit == limit
  }

  function Least(a: int, b: int): int {
    if a < b then a else b
  }

  // In each minute, the first `limit` calls are allowed and no others.
  lemma {:induction false} AllowedPerMinute(calls: seq<Call>, keyId: KeyId, limit: nat, minute: nat)
    requires Fair(calls) && FixedLimit(calls, keyId, limit)
    ensures Allowed(calls, keyId, minute * MINUTE, (minute + 1) * MINUTE) == Least(Made(calls, keyId, minute), limit)
  {
    if calls == [] {
    } else {
      AllowedPerMinute(calls[..|calls| - 1], keyId, limit, minute);
    }
  }

  lemma {:induction false} AllowedSplits(calls: seq<Call>, keyId: KeyId, from: nat, mid: nat, to: nat)
    requires from <= mid <= to
    ensures Allowed(calls, keyId, from, to) == Allowed(calls, keyId, from, mid) + Allowed(calls, keyId, mid, to)
  {
    if calls == [] {
    } else {
      AllowedSplits(calls[..|calls| - 1], keyId, from, mid, to);
    }
  }

  // Any sixty seconds, wherever they begin, let at most twice the limit through.
  lemma {:induction false} AllowedPerSixtySeconds(calls: seq<Call>, keyId: KeyId, limit: nat, from: nat)
    requires Fair(calls) && FixedLimit(calls, keyId, limit)
    ensures Allowed(calls, keyId, from, from + MINUTE) <= 2 * limit
  {
    var minute := from / MINUTE;
    AllowedSplits(calls, keyId, minute * MINUTE, from, (minute + 2) * MINUTE);
    AllowedSplits(calls, keyId, from, from + MINUTE, (minute + 2) * MINUTE);
    AllowedSplits(calls, keyId, minute * MINUTE, (minute + 1) * MINUTE, (minute + 2) * MINUTE);
    AllowedPerMinute(calls, keyId, limit, minute);
    AllowedPerMinute(calls, keyId, limit, minute + 1);
  }

  // A key's history so far: a allowed calls in the last microsecond of the first minute and b in the
  // first of the second, all within sixty seconds.
  predicate Burst(calls: seq<Call>, keyId: KeyId, limit: int, a: nat, b: nat) {
    && Fair(calls) && FixedLimit(calls, keyId, limit)
    && Made(calls, keyId, 0) == a && Made(calls, keyId, 1) == b
    && Allowed(calls, keyId, MINUTE - 1, MINUTE - 1 + MINUTE) == a + b
  }

  lemma {:induction false} MadeMore(calls: seq<Call>, c: Call, keyId: KeyId, minute: nat)
    ensures Made(calls + [c], keyId, minute) == Made(calls, keyId, minute) + if Counted(c, keyId, minute) then 1 else 0
  {
    assert (calls + [c])[..|calls + [c]| - 1] == calls;
  }

  lemma {:induction false} AllowedMore(calls: seq<Call>, c: Call, from: nat, to: nat)
    requires c.allowed && from <= c.now < to
    ensures Allowed(calls + [c], c.keyId, from, to) == Allowed(calls, c.keyId, from, to) + 1
  {
    assert (calls + [c])[..|calls + [c]| - 1] == calls;
  }

  lemma {:induction false} FairMore(calls: seq<Call>, c: Call, minute: nat)
    requires Fair(calls) && c.allowed && c.now / MINUTE == minute && Made(calls, c.keyId, minute) < c.limit
    ensures Fair(calls + [c])
  {
    assert (calls + [c])[..|calls + [c]| - 1] == calls;
  }

  lemma {:induction false} OneMore(calls: seq<Call>, c: Call, a: nat, b: nat)
    requires Burst(calls, c.keyId, c.limit, a, b) && c.allowed
    requires (c.now == MINUTE - 1 && a < c.limit) || (c.now == MINUTE && b < c.limit)
    ensures if c.now == MINUTE then Burst(calls + [c], c.keyId, c.limit, a, b + 1)
            else Burst(calls + [c], c.keyId, c.limit, a + 1, b)
  {
    MadeMore(calls, c, c.keyId, 0);
    MadeMore(calls, c, c.keyId, 1);
    AllowedMore(calls, c, MINUTE - 1, MINUTE - 1 + MINUTE);
    FairMore(calls, c, if c.now == MINUTE then 1 else 0);
  }

  // The factor two is the best: `limit` calls at the end of one minute and as many at the start of
  // the next are all allowed.
  lemma {:induction false} BoundIsReached(keyId: KeyId, limit: nat, a: nat, b: nat) returns (calls: seq<Call>)
    requires a <= limit && b <= limit
    ensures Burst(calls, keyId, limit, a, b)
    decreases a + b
  {
    if b > 0 {
      calls := BoundIsReached(keyId, limit, a, b - 1);
      OneMore(calls, Call(keyId, MINUTE, limit, true), a, b - 1);
      calls := calls + [Call(keyId, MINUTE, limit, true)];
    } else if a > 0 {
      calls := BoundIsReached(keyId, limit, a - 1, b);
      OneMore(calls, Call(keyId, MINUTE - 1, limit, true), a - 1, b);
      calls := calls + [Call(keyId, MINUTE - 1, limit, true)];
    } else {
      calls := [];
    }
  }

  // ---------------------------------------------------------------- calls in time

  // A complete call: its clock reading, when its two commands reach the store, and the key's limit.
  datatype Visit = Visit(keyId: KeyId, now: nat, at: nat, later: nat, limit: nat)

  function AfterVisit(counters: map<(KeyId, Window), Counter>, v: Visit): map<(KeyId, Window), Counter> {
    counters[(v.keyId, WindowOf(v.now)) := AfterCall(Lookup(counters, v.keyId, v.now), Arrival(v.at, v.later, false))]
  }

  function CountersAfter(visits: seq<Visit>): map<(KeyId, Window), Counter> {
    if visits == [] then map[] else AfterVisit(CountersAfter(visits[..|visits| - 1]), visits[|visits| - 1])
  }

  // The calls, each allowed if the count it was told is within its limit.
  function CallsOf(visits: seq<Visit>): seq<Call> {
    if visits == [] then []
    else
      var v := visits[|visits| - 1];
      var before := CountersAfter(visits[..|visits| - 1]);
      CallsOf(visits[..|visits| - 1]) + [Call(v.keyId, v.now, v.limit, Incremented(Lookup(before, v.keyId, v.now), v.at).count <= v.limit)]
  }

  // The calls reach the store within the minute of their clock reading.
  predicate WithinMinute(visits: seq<Visit>) {
    forall i :: 0 <= i < |visits| ==>
      visits[i].now <= visits[i].at <= visits[i].later && visits[i].at < (visits[i].now / MINUTE + 1) * MINUTE
  }

  lemma {:induction false} ExpiringExact(counters: map<(KeyId, Window), Counter>, calls: seq<Call>, keyId: KeyId, now: nat, at: nat)
    requires Exact(counters, calls) && now <= at && (keyId, WindowOf(now)) in counters
    ensures Exact(counters[(keyId, WindowOf(now)) := Expiring(Lookup(counters, keyId, now), at).value], calls)
  {
    forall n: nat ensures WindowOf(n) == WindowOf(now) <==> n / MINUTE == now / MINUTE {
      WindowIsMinute(n, now);
    }
  }

  lemma {:induction false} VisitExact(counters: map<(KeyId, Window), Counter>, calls: seq<Call>, v: Visit)
    requires Exact(counters, calls) && v.now <= v.at <= v.later && v.at < (v.now / MINUTE + 1) * MINUTE
    ensures Exact(AfterVisit(counters, v),
      calls + [Call(v.keyId, v.now, v.limit, Incremented(Lookup(counters, v.keyId, v.now), v.at).count <= v.limit)])
  {
    var key := (v.keyId, WindowOf(v.now));
    var next := Incremented(Lookup(counters, v.keyId, v.now), v.at);
    var c := Call(v.keyId, v.now, v.limit, next.count <= v.limit);
    RightCount(counters, calls, v.keyId, v.now, v.at);
    IncrementExact(counters, calls, c, v.at);
    ExpiringExact(counters[key := next], calls + [c], v.keyId, v.now, v.later);
    assert counters[key := next][key := Expiring(Some(next), v.later).value] == counters[key := Expiring(Some(next), v.later).value];
  }

  lemma {:induction false} VisitsExact(visits: seq<Visit>)
    requires WithinMinute(visits)
    ensures Exact(CountersAfter(visits), CallsOf(visits))
  {
    if visits == [] {
    } else {
      VisitsExact(visits[..|visits| - 1]);
      VisitExact(CountersAfter(visits[..|visits| - 1]), CallsOf(visits[..|visits| - 1]), visits[|visits| - 1]);
    }
  }

  function VisitsIn(visits: seq<Visit>, keyId: KeyId, minute: nat): nat {
    if visits == [] then 0
    else
      var v := visits[|visits| - 1];
      VisitsIn(visits[..|visits| - 1], keyId, minute) + if v.keyId == keyId && v.now / MINUTE == minute then 1 else 0
  }

  lemma {:induction false} VisitsCounted(visits: seq<Visit>, keyId: KeyId, minute: nat)
    ensures Made(CallsOf(visits), keyId, minute) == VisitsIn(visits, keyId, minute)
    ensures |CallsOf(visits)| == |visits|
    ensures forall i :: 0 <= i < |visits| ==> CallsOf(visits)[i].keyId == visits[i].keyId && CallsOf(visits)[i].limit == visits[i].limit
  {
    if visits == [] {
    } else {
      VisitsCounted(visits[..|visits| - 1], keyId, minute);
      assert CallsOf(visits)[..|visits| - 1] == CallsOf(visits[..|visits| - 1]);
    }
  }

  // The expiry never resets a counter inside its window: of the calls a key makes in one minute, all
  // reaching the store within it, exactly the first `limit` are allowed.
  lemma {:induction false} AllowedInTime(visits: seq<Visit>, keyId: KeyId, limit: nat, minute: nat)
    requires WithinMinute(visits) && forall i :: 0 <= i < |visits| && visits[i].keyId == keyId ==> visits[i].limit == limit
    ensures Allowed(CallsOf(visits), keyId, minute * MINUTE, (minute + 1) * MINUTE) == Least(VisitsIn(visits, keyId, minute), limit)
  {
    VisitsExact(visits);
    VisitsCounted(visits, keyId, minute);
    AllowedPerMinute(CallsOf(visits), keyId, limit, minute);
  }
}
