/** The circuit breaker of one worker: a hash in a store whose keys expire, overwritten or deleted by
  every call, including the read that turns OPEN into HALF_OPEN.

  Times are real seconds. The calls on one worker do not overlap, but each consists of commands that
  reach the store one after the other, and the key may expire between any two of them. Writing a
  field of a key that has expired makes a new hash with that field alone; setting the expiry of a
  key that has expired does nothing. */
module CircuitBreaker {
  import opened Options

  datatype Circuit = CLOSED | OPEN | HALF_OPEN

  datatype CircuitSnapshot = CircuitSnapshot(state: Circuit, failures: nat, openedAt: Option<real>)

  // The stored hash and the moment its key expires, if one is set. A missing failure count reads as 0.
  datatype Stored = Stored(state: Circuit, failures: nat, openedAt: Option<real>, expiresAt: Option<real>)

  datatype Settings = Settings(threshold: nat, cooldown: real)

  ghost predicate SettingsOk(c: Settings) {
    c.threshold >= 1 && c.cooldown > 0.0
  }

  function Ttl(c: Settings): real {
    3.0 * c.cooldown
  }

  // ---------------------------------------------------------------- commands

  // What a command finds under the key.
  function Found(s: Option<Stored>, at: real): Option<Stored> {
    if s.Some? && (s.value.expiresAt.Some? ==> at < s.value.expiresAt.value) then s else None
  }

  function WithFields(s: Option<Stored>, at: real, state: Circuit, failures: Option<nat>, openedAt: Option<real>): Stored {
    var base := if Found(s, at).Some? then s.value else Stored(state, 0, None, None);
    base.(state := state,
          failures := if failures.Some? then failures.value else base.failures,
          openedAt := if openedAt.Some? then openedAt else base.openedAt)
  }

  function WithExpiry(s: Option<Stored>, at: real, ttl: real): Option<Stored> {
    if Found(s, at).Some? then Some(s.value.(expiresAt := Some(at + ttl))) else None
  }

  // ---------------------------------------------------------------- calls

  // When the commands of a look at the circuit take effect: the read, the clock reading after it,
  // and, if the look half-opens the circuit, the write and the new expiry.
  datatype Look = Look(read: real, now: real, write: real, expire: real)

  datatype Call = Get(look: Look) | Failure(look: Look, opening: real, write: real, expire: real) | Success(at: real)

  function StartOf(call: Call): real {
    if call.Success? then call.at else call.look.read
  }

  function EndOf(call: Call): real {
    match call
    case Get(look) => look.expire
    case Failure(_, _, _, expire) => expire
    case Success(at) => at
  }

  predicate LookInOrder(look: Look) {
    look.read <= look.now <= look.write <= look.expire
  }

  predicate InOrder(call: Call) {
    match call
    case Get(look) => LookInOrder(look)
    case Failure(look, opening, write, expire) => LookInOrder(look) && look.expire <= opening <= write <= expire
    case Success(_) => true
  }

  predicate Cooled(c: Settings, s: Stored, now: real) {
    s.state == OPEN && s.openedAt.Some? && now - s.openedAt.value >= c.cooldown
  }

  // The look half-opens the circuit.
  predicate HalfOpens(c: Settings, s: Option<Stored>, look: Look) {
    Found(s, look.read).Some? && Cooled(c, s.value, look.now)
  }

  // What a look reports: the fields it read, with the state it makes of them.
  function Reported(c: Settings, s: Option<Stored>, look: Look): CircuitSnapshot {
    if Found(s, look.read).None? then CircuitSnapshot(CLOSED, 0, None)
    else CircuitSnapshot(if HalfOpens(c, s, look) then HALF_OPEN else s.value.state, s.value.failures, s.value.openedAt)
  }

  function AfterLook(c: Settings, s: Option<Stored>, look: Look): Option<Stored> {
    if HalfOpens(c, s, look)
    then WithExpiry(Some(WithFields(s, look.write, HALF_OPEN, None, None)), look.expire, Ttl(c))
    else Found(s, look.read)
  }

  // What a failure reports and writes.
  function Failed(c: Settings, s: Option<Stored>, call: Call): CircuitSnapshot
    requires call.Failure?
  {
    var current := Reported(c, s, call.look);
    var state := if current.failures + 1 >= c.threshold then OPEN else current.state;
    CircuitSnapshot(state, current.failures + 1, if state == OPEN then Some(call.opening) else current.openedAt)
  }

  function AfterFailure(c: Settings, s: Option<Stored>, call: Call): Option<Stored>
    requires call.Failure?
  {
    var f := Failed(c, s, call);
    WithExpiry(Some(WithFields(AfterLook(c, s, call.look), call.write, f.state, Some(f.failures), f.openedAt)), call.expire, Ttl(c))
  }

  class Breaker {
    const settings: Settings
    var key: Option<Stored>

    constructor (settings: Settings)
      ensures this.settings == settings && key == None
    {
      this.settings := settings;
      key := None;
    }

    method HSet(at: real, state: Circuit, failures: Option<nat>, openedAt: Option<real>)
      modifies this
      ensures key == Some(WithFields(old(key), at, state, failures, openedAt))
    {
      if key.None? || (key.value.expiresAt.Some? && at >= key.value.expiresAt.value) {
        key := Some(Stored(state, 0, None, None));
      }
      key := Some(key.value.(state := state));
      if failures.Some? {
        key := Some(key.value.(failures := failures.value));
      }
      if openedAt.Some? {
        key := Some(key.value.(openedAt := openedAt));
      }
    }

    method Expire(at: real, ttl: real)
      modifies this
      ensures key == WithExpiry(old(key), at, ttl)
    {
      key := Found(key, at);
      if key.Some? {
        key := Some(key.value.(expiresAt := Some(at + ttl)));
      }
    }

    method Get(look: Look) returns (snapshot: CircuitSnapshot)
      modifies this
      ensures key == AfterLook(settings, old(key), look)
      ensures snapshot == Reported(settings, old(key), look)
    {
      key := Found(key, look.read);
      if key.None? {
        return CircuitSnapshot(CLOSED, 0, None);
      }
      var raw := key.value;
      var state := raw.state;
      if state == OPEN && raw.openedAt.Some? && look.now - raw.openedAt.value >= settings.cooldown {
        state := HALF_OPEN;
        HSet(look.write, state, None, None);
        Expire(look.expire, settings.cooldown * 3.0);
      }
      return CircuitSnapshot(state, raw.failures, raw.openedAt);
    }

    method RecordFailure(call: Call) returns (snapshot: CircuitSnapshot)
      requires call.Failure?
      modifies this
      ensures key == AfterFailure(settings, old(key), call)
      ensures snapshot == Failed(settings, old(key), call)
    {
      var current := Get(call.look);
      var failures := current.failures + 1;
      var state := if failures >= settings.threshold then OPEN else current.state;
      var openedAt := if state == OPEN then Some(call.opening) else current.openedAt;
      HSet(call.write, state, Some(failures), openedAt);
      Expire(call.expire, settings.cooldown * 3.0);
      return CircuitSnapshot(state, failures, openedAt);
    }

    method RecordSuccess() returns (snapshot: CircuitSnapshot)
      modifies this
      ensures key == None && snapshot == CircuitSnapshot(CLOSED, 0, None)
    {
      key := None;
      return CircuitSnapshot(CLOSED, 0, None);
    }
  }

  // ---------------------------------------------------------------- histories

  // Calls in time order, none before `start`.
  predicate Ordered(calls: seq<Call>, start: real) {
    && (forall i :: 0 <= i < |calls| ==> start <= StartOf(calls[i]) && InOrder(calls[i]))
    && (forall i, j :: 0 <= i < j < |calls| ==> EndOf(calls[i]) <= StartOf(calls[j]))
  }

  function AfterCall(c: Settings, s: Option<Stored>, call: Call): Option<Stored> {
    match call
    case Get(look) => AfterLook(c, s, look)
    case Failure(_, _, _, _) => AfterFailure(c, s, call)
    case Success(_) => None
  }

  function AfterCalls(c: Settings, s: Option<Stored>, calls: seq<Call>): Option<Stored> {
    if calls == [] then s else AfterCall(c, AfterCalls(c, s, calls[..|calls| - 1]), calls[|calls| - 1])
  }

  function LastTime(calls: seq<Call>, start: real): real {
    if calls == [] then start else EndOf(calls[|calls| - 1])
  }

  // Closed: some failures but fewer than the threshold, and no opening time.
  ghost predicate ClosedOk(c: Settings, s: Stored) {
    s.state == CLOSED && 1 <= s.failures < c.threshold && s.openedAt.None?
  }

  // Open or half open: the threshold was reached, at a recorded time, and the key does not expire
  // before three cooldowns after it.
  ghost predicate OpenOk(c: Settings, s: Stored, now: real) {
    && s.state != CLOSED && c.threshold <= s.failures && s.openedAt.Some? && s.openedAt.value <= now
    && s.expiresAt.Some? && s.expiresAt.value >= s.openedAt.value + 3.0 * c.cooldown
    && (s.state == HALF_OPEN ==> s.openedAt.value + c.cooldown <= now)
  }

  // Half open without an opening time and with too few failures: the hash a half-opening write
  // makes when the key has expired since it was read.
  ghost predicate Orphan(c: Settings, s: Stored) {
    s.state == HALF_OPEN && s.failures < c.threshold && s.openedAt.None?
  }

  ghost predicate KeyOk(c: Settings, s: Option<Stored>, now: real) {
    s.Some? ==> s.value.expiresAt.Some? && (ClosedOk(c, s.value) || OpenOk(c, s.value, now))
  }

  ghost predicate KeyShape(c: Settings, s: Option<Stored>, now: real) {
    KeyOk(c, s, now) || (s.Some? && s.value.expiresAt.Some? && Orphan(c, s.value))
  }

  // A read that half-opens the circuit, and whose write finds that the key has expired.
  predicate Torn(c: Settings, s: Option<Stored>, call: Call) {
    call.Get? && HalfOpens(c, s, call.look) && Found(s, call.look.write).None?
  }

  lemma {:induction false} CallKeepsShape(c: Settings, s: Option<Stored>, call: Call, before: real)
    requires SettingsOk(c) && KeyShape(c, s, before) && before <= StartOf(call) && InOrder(call)
    ensures KeyShape(c, AfterCall(c, s, call), EndOf(call))
  {}

  // One call leaves the hash in order exactly when it is not such a read. A failure that finds the
  // key gone writes every field anew.
  lemma {:induction false} CallKeepsOk(c: Settings, s: Option<Stored>, call: Call, before: real)
    requires SettingsOk(c) && KeyOk(c, s, before) && before <= StartOf(call) && InOrder(call)
    ensures KeyOk(c, AfterCall(c, s, call), EndOf(call)) <==> !Torn(c, s, call)
  {}

  // Whatever the calls and their timing: closed, open or half open in order, or an orphan.
  lemma {:induction false} HistoryShape(c: Settings, calls: seq<Call>, start: real)
    requires SettingsOk(c) && Ordered(calls, start)
    ensures KeyShape(c, AfterCalls(c, None, calls), LastTime(calls, start))
  {
    if calls == [] {
    } else {
      var n := |calls| - 1;
      HistoryShape(c, calls[..n], start);
      CallKeepsShape(c, AfterCalls(c, None, calls[..n]), calls[n], LastTime(calls[..n], start));
    }
  }

  ghost predicate AlwaysOk(c: Settings, calls: seq<Call>, start: real) {
    forall n :: 0 <= n <= |calls| ==> KeyOk(c, AfterCalls(c, None, calls[..n]), LastTime(calls[..n], start))
  }

  ghost predicate NeverTorn(c: Settings, calls: seq<Call>) {
    forall n :: 0 <= n < |calls| ==> !Torn(c, AfterCalls(c, None, calls[..n]), calls[n])
  }

  lemma {:induction false} NextCall(c: Settings, s: Option<Stored>, calls: seq<Call>, n: nat)
    requires n < |calls|
    ensures AfterCalls(c, s, calls[..n + 1]) == AfterCall(c, AfterCalls(c, s, calls[..n]), calls[n])
  {
    assert calls[..n + 1][..n] == calls[..n];
  }

  // The hash is in order after every call of a history exactly when no read in it is torn.
  lemma {:induction false} HistoryOk(c: Settings, calls: seq<Call>, start: real)
    requires SettingsOk(c) && Ordered(calls, start)
    ensures AlwaysOk(c, calls, start) <==> NeverTorn(c, calls)
  {
    if AlwaysOk(c, calls, start) {
      forall n | 0 <= n < |calls| ensures !Torn(c, AfterCalls(c, None, calls[..n]), calls[n]) {
        NextCall(c, None, calls, n);
        CallKeepsOk(c, AfterCalls(c, None, calls[..n]), calls[n], LastTime(calls[..n], start));
      }
    }
    if NeverTorn(c, calls) {
      forall n | 0 <= n <= |calls| ensures KeyOk(c, AfterCalls(c, None, calls[..n]), LastTime(calls[..n], start)) {
        UntornOk(c, calls, start, n);
      }
    }
  }

  lemma {:induction false} UntornOk(c: Settings, calls: seq<Call>, start: real, n: nat)
    requires SettingsOk(c) && Ordered(calls, start) && NeverTorn(c, calls) && n <= |calls|
    ensures KeyOk(c, AfterCalls(c, None, calls[..n]), LastTime(calls[..n], start))
  {
    if n == 0 {
    } else {
      UntornOk(c, calls, start, n - 1);
      NextCall(c, None, calls, n - 1);
      CallKeepsOk(c, AfterCalls(c, None, calls[..n - 1]), calls[n - 1], LastTime(calls[..n - 1], start));
    }
  }

  // A failure whose commands all take effect at one moment, and a look read and written apart.
  function FailureAt(at: real): Call {
    Failure(Look(at, at, at, at), at, at, at)
  }

  function GetBetween(read: real, write: real): Call {
    Get(Look(read, read, write, write))
  }

  // The condition is needed: opened by two failures, the key is read a quarter of a second before it
  // expires and half-opened a quarter of a second after. One more failure does not reopen the circuit.
  lemma {:induction false} TornRead() returns (c: Settings, calls: seq<Call>)
    ensures c == Settings(2, 1.0) && calls == [FailureAt(1.0), FailureAt(2.0), GetBetween(4.75, 5.25), FailureAt(6.0)]
    ensures SettingsOk(c) && Ordered(calls, 0.0)
    ensures AfterCalls(c, None, calls[..2]) == Some(Stored(OPEN, 2, Some(2.0), Some(5.0)))
    ensures AfterCalls(c, None, calls[..3]) == Some(Stored(HALF_OPEN, 0, None, Some(8.25)))
    ensures AfterCalls(c, None, calls[..4]) == Some(Stored(HALF_OPEN, 1, None, Some(9.0)))
  {
    c, calls := TornCalls();
    AfterFour(c, calls);
    TwoFailures();
    OneLook();
  }

  lemma {:induction false} TornCalls() returns (c: Settings, calls: seq<Call>)
    ensures c == Settings(2, 1.0) && calls == [FailureAt(1.0), FailureAt(2.0), GetBetween(4.75, 5.25), FailureAt(6.0)]
    ensures |calls| == 4 && calls[0] == FailureAt(1.0) && calls[1] == FailureAt(2.0)
    ensures calls[2] == GetBetween(4.75, 5.25) && calls[3] == FailureAt(6.0)
    ensures SettingsOk(c) && Ordered(calls, 0.0)
  {
    c, calls := Settings(2, 1.0), [FailureAt(1.0), FailureAt(2.0), GetBetween(4.75, 5.25), FailureAt(6.0)];
  }

  lemma {:induction false} AfterFour(c: Settings, calls: seq<Call>)
    requires |calls| == 4
    ensures AfterCalls(c, None, calls[..2]) == AfterCall(c, AfterCall(c, None, calls[0]), calls[1])
    ensures AfterCalls(c, None, calls[..3]) == AfterCall(c, AfterCalls(c, None, calls[..2]), calls[2])
    ensures AfterCalls(c, None, calls[..4]) == AfterCall(c, AfterCalls(c, None, calls[..3]), calls[3])
  {
    NextCall(c, None, calls, 0);
    NextCall(c, None, calls, 1);
    NextCall(c, None, calls, 2);
    NextCall(c, None, calls, 3);
  }

  lemma {:induction false} TwoFailures()
    ensures AfterCall(Settings(2, 1.0), None, FailureAt(1.0)) == Some(Stored(CLOSED, 1, None, Some(4.0)))
    ensures AfterCall(Settings(2, 1.0), Some(Stored(CLOSED, 1, None, Some(4.0))), FailureAt(2.0)) ==
            Some(Stored(OPEN, 2, Some(2.0), Some(5.0)))
  {}

  lemma {:induction false} OneLook()
    ensures AfterCall(Settings(2, 1.0), Some(Stored(OPEN, 2, Some(2.0), Some(5.0))), GetBetween(4.75, 5.25)) ==
            Some(Stored(HALF_OPEN, 0, None, Some(8.25)))
    ensures AfterCall(Settings(2, 1.0), Some(Stored(HALF_OPEN, 0, None, Some(8.25))), FailureAt(6.0)) ==
            Some(Stored(HALF_OPEN, 1, None, Some(9.0)))
  {}

  // ---------------------------------------------------------------- open circuits

  // After any history, an open circuit reads as open exactly until its cooldown is over: the key
  // cannot expire first.
  lemma {:induction false} OpenUntilCooled(c: Settings, calls: seq<Call>, start: real, look: Look)
    requires SettingsOk(c) && Ordered(calls, start) && LastTime(calls, start) <= look.read && LookInOrder(look)
    requires AfterCalls(c, None, calls).Some? && AfterCalls(c, None, calls).value.state == OPEN
    ensures var s := AfterCalls(c, None, calls);
      && s.value.openedAt.Some?
      && (Reported(c, s, look).state == OPEN <==> look.now < s.value.openedAt.value + c.cooldown)
  {
    HistoryShape(c, calls, start);
  }

  // The key expires between a failure's write and the expiry the failure sets, and takes the failure
  // with it.
  predicate Lost(c: Settings, s: Option<Stored>, call: Call) {
    && call.Failure?
    && Found(AfterLook(c, s, call.look), call.write).Some?
    && Found(AfterLook(c, s, call.look), call.expire).None?
  }

  lemma {:induction false} FailureStored(c: Settings, s: Option<Stored>, call: Call)
    requires call.Failure? && InOrder(call)
    ensures AfterFailure(c, s, call).None? <==> Lost(c, s, call)
    ensures !Lost(c, s, call) ==>
      var t := AfterFailure(c, s, call).value;
      t.state == Failed(c, s, call).state && t.failures == Failed(c, s, call).failures && t.expiresAt == Some(call.expire + 3.0 * c.cooldown)
  {}

  // It can happen to the very failure that opens the circuit.
  lemma {:induction false} FailureCanBeLost()
    ensures
      var c := Settings(2, 1.0);
      var second := Failure(Look(3.5, 3.5, 3.5, 3.5), 3.5, 3.75, 4.25);
      var calls := [FailureAt(1.0), second];
      && SettingsOk(c) && Ordered(calls, 0.0)
      && Failed(c, AfterCalls(c, None, calls[..1]), second).state == OPEN
      && AfterCalls(c, None, calls[..2]) == None
  {
    var c := Settings(2, 1.0);
    var calls := [FailureAt(1.0), Failure(Look(3.5, 3.5, 3.5, 3.5), 3.5, 3.75, 4.25)];
    TwoFailures();
    NextCall(c, None, calls, 0);
    NextCall(c, None, calls, 1);
  }

  ghost predicate IsOpen(c: Settings, s: Option<Stored>, since: real, now: real) {
    s.Some? && s.value.state == OPEN && OpenOk(c, s.value, now) && s.value.openedAt.value >= since
  }

  // Calls without a success whose clock readings all lie within a cooldown of `since`.
  predicate Early(c: Settings, calls: seq<Call>, since: real) {
    forall n :: 0 <= n < |calls| ==> !calls[n].Success? && calls[n].look.now < since + c.cooldown
  }

  lemma {:induction false} EarlyCall(c: Settings, s: Option<Stored>, call: Call, since: real, now: real)
    requires SettingsOk(c) && IsOpen(c, s, since, now) && now <= StartOf(call) && InOrder(call)
    requires !call.Success? && call.look.now < since + c.cooldown
    ensures IsOpen(c, AfterCall(c, s, call), since, EndOf(call)) <==> !Lost(c, s, call)
  {}

  // Without a success, whatever else arrives within a cooldown, an open circuit stays open exactly
  // as long as no failure is lost; further failures can only move the opening later.
  lemma {:induction false} StaysOpen(c: Settings, s: Stored, calls: seq<Call>, now: real)
    requires SettingsOk(c) && s.state == OPEN && OpenOk(c, s, now) && Ordered(calls, now)
    requires Early(c, calls, s.openedAt.value)
    ensures (forall n :: 0 <= n <= |calls| ==> IsOpen(c, AfterCalls(c, Some(s), calls[..n]), s.openedAt.value, LastTime(calls[..n], now)))
       <==> (forall n :: 0 <= n < |calls| ==> !Lost(c, AfterCalls(c, Some(s), calls[..n]), calls[n]))
  {
    var since := s.openedAt.value;
    if forall n :: 0 <= n <= |calls| ==> IsOpen(c, AfterCalls(c, Some(s), calls[..n]), since, LastTime(calls[..n], now)) {
      forall n | 0 <= n < |calls| ensures !Lost(c, AfterCalls(c, Some(s), calls[..n]), calls[n]) {
        NextCall(c, Some(s), calls, n);
        EarlyCall(c, AfterCalls(c, Some(s), calls[..n]), calls[n], since, LastTime(calls[..n], now));
      }
    }
    if forall n :: 0 <= n < |calls| ==> !Lost(c, AfterCalls(c, Some(s), calls[..n]), calls[n]) {
      forall n | 0 <= n <= |calls| ensures IsOpen(c, AfterCalls(c, Some(s), calls[..n]), since, LastTime(calls[..n], now)) {
        KeptOpen(c, s, calls, now, n);
      }
    }
  }

  lemma {:induction false} KeptOpen(c: Settings, s: Stored, calls: seq<Call>, now: real, n: nat)
    requires SettingsOk(c) && s.state == OPEN && OpenOk(c, s, now) && Ordered(calls, now) && n <= |calls|
    requires Early(c, calls, s.openedAt.value)
    requires forall m :: 0 <= m < |calls| ==> !Lost(c, AfterCalls(c, Some(s), calls[..m]), calls[m])
    ensures IsOpen(c, AfterCalls(c, Some(s), calls[..n]), s.openedAt.value, LastTime(calls[..n], now))
  {
    if n == 0 {
    } else {
      KeptOpen(c, s, calls, now, n - 1);
      NextCall(c, Some(s), calls, n - 1);
      EarlyCall(c, AfterCalls(c, Some(s), calls[..n - 1]), calls[n - 1], s.openedAt.value, LastTime(calls[..n - 1], now));
    }
  }

  // A failure that finds the circuit half open opens it again from that moment, exactly when the
  // circuit had reached its threshold before, as it has unless it is an orphan with more than one
  // failure to go.
  lemma {:induction false} HalfOpenReopens(c: Settings, s: Option<Stored>, call: Call, before: real)
    requires SettingsOk(c) && KeyShape(c, s, before) && call.Failure? && before <= StartOf(call) && InOrder(call)
    requires Reported(c, s, call.look).state == HALF_OPEN && !Lost(c, s, call)
    ensures var t := AfterFailure(c, s, call);
      && t.Some? && t.value.failures == s.value.failures + 1
      && (t.value.state == OPEN && t.value.openedAt == Some(call.opening) <==> !Orphan(c, s.value) || s.value.failures + 1 == c.threshold)
  {}

  // ---------------------------------------------------------------- counting

  function FailuresSinceSuccess(calls: seq<Call>): nat {
    if calls == [] || calls[|calls| - 1].Success? then 0
    else FailuresSinceSuccess(calls[..|calls| - 1]) + if calls[|calls| - 1].Failure? then 1 else 0
  }

  // No command of the call finds that the key has expired.
  predicate LookIntact(c: Settings, s: Option<Stored>, look: Look) {
    s.Some? ==> Found(s, look.read).Some? && (HalfOpens(c, s, look) ==> Found(s, look.expire).Some?)
  }

  predicate Intact(c: Settings, s: Option<Stored>, call: Call) {
    match call
    case Get(look) => LookIntact(c, s, look)
    case Failure(look, _, _, expire) =>
      LookIntact(c, s, look) && (AfterLook(c, s, look).Some? ==> Found(AfterLook(c, s, look), expire).Some?)
    case Success(_) => true
  }

  ghost predicate NeverExpired(c: Settings, calls: seq<Call>) {
    forall n :: 0 <= n < |calls| ==> Intact(c, AfterCalls(c, None, calls[..n]), calls[n])
  }

  function Count(s: Option<Stored>): nat {
    if s.Some? then s.value.failures else 0
  }

  // While no expiry comes in between, the stored count is the number of failures since the last
  // success, the hash is in order, and the circuit is closed exactly below the threshold.
  lemma {:induction false} CountsFailures(c: Settings, calls: seq<Call>, start: real, n: nat)
    requires SettingsOk(c) && Ordered(calls, start) && NeverExpired(c, calls) && n <= |calls|
    ensures var s := AfterCalls(c, None, calls[..n]);
      && KeyOk(c, s, LastTime(calls[..n], start)) && Count(s) == FailuresSinceSuccess(calls[..n])
      && (s.None? || s.value.state == CLOSED <==> FailuresSinceSuccess(calls[..n]) < c.threshold)
  {
    if n == 0 {
    } else {
      CountsFailures(c, calls, start, n - 1);
      NextCall(c, None, calls, n - 1);
      CallKeepsOk(c, AfterCalls(c, None, calls[..n - 1]), calls[n - 1], LastTime(calls[..n - 1], start));
      assert calls[..n][..n - 1] == calls[..n - 1];
    }
  }

  // Calls that always end within three cooldowns of the last failure never meet an expiry.
  lemma {:induction false} FrequentCallsNeverExpire(c: Settings, calls: seq<Call>, start: real)
    requires SettingsOk(c) && Ordered(calls, start)
    requires forall m, n :: 0 <= m < n < |calls| && calls[m].Failure? && (forall k :: m < k < n ==> !calls[k].Failure?) ==>
      EndOf(calls[n]) < EndOf(calls[m]) + 3.0 * c.cooldown
    ensures NeverExpired(c, calls)
  {
    forall n | 0 <= n < |calls| ensures Intact(c, AfterCalls(c, None, calls[..n]), calls[n]) {
      if AfterCalls(c, None, calls[..n]).Some? {
        var m := LastFailure(c, calls, start, n);
      }
    }
  }

  // A stored key goes back to a failure, and expires no earlier than three cooldowns after it.
  lemma {:induction false} LastFailure(c: Settings, calls: seq<Call>, start: real, n: nat) returns (m: nat)
    requires SettingsOk(c) && Ordered(calls, start) && n <= |calls| && AfterCalls(c, None, calls[..n]).Some?
    ensures m < n && calls[m].Failure? && forall k :: m < k < n ==> !calls[k].Failure?
    ensures var s := AfterCalls(c, None, calls[..n]).value;
      s.expiresAt.Some? && s.expiresAt.value >= EndOf(calls[m]) + 3.0 * c.cooldown
  {
    assert n > 0;
    NextCall(c, None, calls, n - 1);
    if calls[n - 1].Failure? {
      m := n - 1;
    } else {
      m := LastFailure(c, calls, start, n - 1);
    }
  }
}
