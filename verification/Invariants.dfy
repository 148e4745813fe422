/** What every reachable state of the tables satisfies, one predicate a concern, and the proof that
  every step keeps all of them. */
module Invariants {
  import opened Options
  import opened Calendar
  import opened Entities
  import opened BudgetRules
  import opened Protocol
  import opened Sums

  // ---------------------------------------------------------------- the predicates

  // What a request row still holds of its project's budget.
  function Contribution(r: Request): nat {
    if r.status == Completed then r.inputTokens + r.outputTokens
    else if Terminal(r) then 0
    else r.reserved
  }

  // How far a worker's report went past the reservation.
  function Overrun(r: Request): nat {
    if r.status == Completed then AtLeastZero(r.inputTokens + r.outputTokens - r.reserved) else 0
  }

  ghost function OnDay(p: ProjectId, day: Date): Request -> int {
    (r: Request) => if r.project == p && r.budgetDay == day then Contribution(r) else 0
  }

  ghost function InMonth(p: ProjectId, month: Date): Request -> int {
    (r: Request) => if r.project == p && r.budgetMonth == month then Contribution(r) else 0
  }

  ghost function OverrunOnDay(p: ProjectId, day: Date): Request -> int {
    (r: Request) => if r.project == p && r.budgetDay == day then Overrun(r) else 0
  }

  ghost function OverrunInMonth(p: ProjectId, month: Date): Request -> int {
    (r: Request) => if r.project == p && r.budgetMonth == month then Overrun(r) else 0
  }

  ghost predicate RowOk(r: Request, lease: nat) {
    && r.reserved >= 1
    && r.budgetMonth == MonthOf(r.budgetDay)
    && r.retryCount <= r.maxRetries == MAX_RETRIES
    && (r.status.Queued? || r.status.Assigned? || r.status.Completed? || r.status.FailedFinal? || r.status.Expired?)
    && (r.result.Some? <==> r.status == Completed)
    && (r.completedAt.Some? <==> r.status == Completed)
    && (r.leaseExpires.Some? <==> Live(r))
    && (r.assignedTo.Some? <==> Live(r) || r.status == Completed)
    && (Live(r) ==> r.leaseExpires.value < r.expiresAt + lease)
  }

  ghost predicate RowsOk(s: State) {
    && s.lease >= 1
    && (forall k :: k in s.keys ==> s.keys[k].project in s.projects)
    && (forall i :: i in s.requests ==>
          && RowOk(s.requests[i], s.lease)
          && s.requests[i].apiKey in s.keys
          && s.requests[i].project == s.keys[s.requests[i].apiKey].project)
  }

  // A project with requests has usage dates that follow the clock, and none of its requests was
  // charged to a later period.
  ghost predicate PeriodOk(s: State, r: Request)
    requires r.project in s.projects
  {
    var p := s.projects[r.project];
    && NotAfter(r.budgetDay, p.dailyDate)
    && NotAfter(p.dailyDate, Today(s.clock))
    && p.monthlyMonth == MonthOf(p.dailyDate)
  }

  // No key has been counted on a day that is still to come.
  ghost predicate PeriodsOk(s: State)
    requires RowsOk(s)
  {
    && (forall i :: i in s.requests ==> PeriodOk(s, s.requests[i]))
    && (forall k :: k in s.keys ==> KeyReadUnderLock(s.keys[k], s.clock))
  }

  ghost predicate BalancedAt(p: ProjectId, row: Project, requests: map<RequestId, Request>) {
    && row.dailyUsed == Total(requests, OnDay(p, row.dailyDate))
    && row.monthlyUsed == Total(requests, InMonth(p, row.monthlyMonth))
  }

  ghost predicate Ledger(s: State) {
    forall p :: p in s.projects ==> BalancedAt(p, s.projects[p], s.requests)
  }

  ghost predicate WithinAt(p: ProjectId, row: Project, requests: map<RequestId, Request>) {
    && row.dailyUsed <= row.dailyLimit + Total(requests, OverrunOnDay(p, row.dailyDate))
    && row.monthlyUsed <= row.monthlyLimit + Total(requests, OverrunInMonth(p, row.monthlyMonth))
  }

  ghost predicate WithinLimits(s: State) {
    forall p :: p in s.projects ==> WithinAt(p, s.projects[p], s.requests)
  }

  ghost predicate Records(u: UsageRecord, r: Request) {
    && r.status == Completed
    && r.assignedTo == Some(u.worker)
    && u.project == r.project && u.apiKey == r.apiKey && u.model == r.resolvedModel
    && u.inputTokens == r.inputTokens && u.outputTokens == r.outputTokens
  }

  ghost predicate UsageOk(s: State) {
    && (forall u :: u in s.usage ==> s.usage[u].request in s.requests && Records(s.usage[u], s.requests[s.usage[u].request]))
    && (forall u, v :: u in s.usage && v in s.usage && s.usage[u].request == s.usage[v].request ==> u == v)
    && (forall i :: i in s.requests && s.requests[i].status == Completed ==> exists u :: u in s.usage && s.usage[u].request == i)
  }

  ghost function OfKey(k: KeyId): UsageRecord -> int {
    (u: UsageRecord) => if u.apiKey == k then 1 else 0
  }

  ghost function TokensOfKey(k: KeyId): UsageRecord -> int {
    (u: UsageRecord) => if u.apiKey == k then u.inputTokens + u.outputTokens else 0
  }

  ghost predicate KeyTotals(s: State) {
    forall k :: k in s.keys ==>
      && s.keys[k].totalRequests == Total(s.usage, OfKey(k))
      && s.keys[k].totalTokens == Total(s.usage, TokensOfKey(k))
      && s.keys[k].dailyUsed <= s.keys[k].dailyLimit
  }

  ghost predicate IdempotencyOk(s: State) {
    forall i, j :: i in s.requests && j in s.requests && i != j ==>
      !SameIdempotency(s.requests[j], s.requests[i].apiKey, s.requests[i].idempotencyKey)
  }

  ghost predicate Inv(s: State) {
    RowsOk(s) && PeriodsOk(s) && Ledger(s) && WithinLimits(s) && UsageOk(s) && KeyTotals(s) && IdempotencyOk(s)
  }

  lemma {:induction false} InitialInv(s: State)
    requires Init(s)
    ensures Inv(s)
  {}

  // ---------------------------------------------------------------- row rewriting

  // How a step may change one existing row: the terms of the request are fixed for ever.
  ghost predicate SameTerms(a: Request, b: Request) {
    && b.project == a.project && b.apiKey == a.apiKey && b.idempotencyKey == a.idempotencyKey
    && b.priority == a.priority && b.createdAt == a.createdAt && b.expiresAt == a.expiresAt
    && b.reserved == a.reserved && b.budgetDay == a.budgetDay && b.budgetMonth == a.budgetMonth
    && b.maxRetries == a.maxRetries && b.payload == a.payload
    && b.modelAlias == a.modelAlias && b.resolvedModel == a.resolvedModel && b.required == a.required
  }

  // The hold of a request on its project never exceeds what the project has counted.
  lemma {:induction false} CountedAtLeast(p: ProjectId, row: Project, requests: map<RequestId, Request>, i: RequestId)
    requires BalancedAt(p, row, requests) && i in requests && requests[i].project == p
    ensures row.dailyDate == requests[i].budgetDay ==> Contribution(requests[i]) <= row.dailyUsed
    ensures row.monthlyMonth == requests[i].budgetMonth ==> Contribution(requests[i]) <= row.monthlyUsed
  {
    TotalCovers(requests, OnDay(p, row.dailyDate), i);
    TotalCovers(requests, InMonth(p, row.monthlyMonth), i);
  }

  // The clamp in the reconciliation never changes a value: the counter it moves still contains the
  // whole hold of the request being settled.
  lemma {:induction false} ClampNeverFires(s: State, i: RequestId, actual: nat)
    requires Inv(s) && i in s.requests && !Terminal(s.requests[i])
    ensures var r := s.requests[i]; var p := s.projects[r.project]; var delta := actual - r.reserved;
      && (p.dailyDate == r.budgetDay ==> p.dailyUsed + delta >= actual)
      && (p.monthlyMonth == r.budgetMonth ==> p.monthlyUsed + delta >= actual)
  {
    CountedAtLeast(s.requests[i].project, s.projects[s.requests[i].project], s.requests, i);
  }

  // Replacing one row and moving the counters by the change of its contribution keeps the balance.
  lemma {:induction false} PutKeepsBalance(p: ProjectId, row: Project, requests: map<RequestId, Request>, i: RequestId, after: Request)
    requires BalancedAt(p, row, requests) && i in requests && SameTerms(requests[i], after)
    ensures BalancedAt(p, AdjustIfOf(p, row, requests[i], Contribution(after) - Contribution(requests[i])), requests[i := after])
  {
    TotalPut(requests, OnDay(p, row.dailyDate), i, after);
    TotalPut(requests, InMonth(p, row.monthlyMonth), i, after);
    if requests[i].project == p {
      CountedAtLeast(p, row, requests, i);
    }
  }

  function AdjustIfOf(p: ProjectId, row: Project, r: Request, delta: int): Project {
    if r.project == p then Adjust(row, delta, r.budgetDay, r.budgetMonth) else row
  }

  lemma {:induction false} PutKeepsLimits(p: ProjectId, row: Project, requests: map<RequestId, Request>, i: RequestId, after: Request)
    requires BalancedAt(p, row, requests) && WithinAt(p, row, requests) && i in requests && SameTerms(requests[i], after)
    requires !Terminal(requests[i]) && Contribution(after) - requests[i].reserved <= Overrun(after)
    ensures WithinAt(p, AdjustIfOf(p, row, requests[i], Contribution(after) - Contribution(requests[i])), requests[i := after])
  {
    TotalPut(requests, OverrunOnDay(p, row.dailyDate), i, after);
    TotalPut(requests, OverrunInMonth(p, row.monthlyMonth), i, after);
    if requests[i].project == p {
      CountedAtLeast(p, row, requests, i);
    }
  }

  lemma {:induction false} SettleKeepsLedger(s: State, i: RequestId, row: Request)
    requires Ledger(s) && WithinLimits(s)
    requires i in s.requests && s.requests[i].project in s.projects
    requires SameTerms(s.requests[i], row) && !Terminal(s.requests[i]) && Contribution(row) - row.reserved <= Overrun(row)
    ensures var t := Settle(s, i, row, Contribution(row)); Ledger(t) && WithinLimits(t)
  {
    var t := Settle(s, i, row, Contribution(row));
    forall p | p in t.projects
      ensures BalancedAt(p, t.projects[p], t.requests) && WithinAt(p, t.projects[p], t.requests)
    {
      PutKeepsBalance(p, s.projects[p], s.requests, i, row);
      PutKeepsLimits(p, s.projects[p], s.requests, i, row);
    }
  }

  // A row rewritten without any change of its hold is a settlement at its own reservation.
  lemma {:induction false} RewriteIsSettle(s: State, i: RequestId, row: Request)
    requires i in s.requests && s.requests[i].project in s.projects
    ensures s.(requests := s.requests[i := row]) == Settle(s, i, row, s.requests[i].reserved)
  {
    var r := s.requests[i];
    assert Adjust(s.projects[r.project], 0, r.budgetDay, r.budgetMonth) == s.projects[r.project];
    assert s.projects[r.project := s.projects[r.project]] == s.projects;
  }

  lemma {:induction false} SettleKeepsRows(s: State, i: RequestId, row: Request, actual: nat)
    requires RowsOk(s) && i in s.requests && SameTerms(s.requests[i], row) && RowOk(row, s.lease)
    ensures RowsOk(Settle(s, i, row, actual))
  {
    var t := Settle(s, i, row, actual);
    assert t.projects.Keys == s.projects.Keys;
  }

  lemma {:induction false} SettleKeepsPeriods(s: State, i: RequestId, row: Request, actual: nat)
    requires RowsOk(s) && PeriodsOk(s) && i in s.requests && SameTerms(s.requests[i], row)
    requires RowsOk(Settle(s, i, row, actual))
    ensures PeriodsOk(Settle(s, i, row, actual))
  {
    var t := Settle(s, i, row, actual);
    forall j | j in t.requests ensures PeriodOk(t, t.requests[j]) {
      assert PeriodOk(s, s.requests[j]);
    }
  }

  lemma {:induction false} SettleKeepsIdempotency(s: State, i: RequestId, row: Request, actual: nat)
    requires IdempotencyOk(s) && i in s.requests && s.requests[i].project in s.projects && SameTerms(s.requests[i], row)
    ensures IdempotencyOk(Settle(s, i, row, actual))
  {}

  lemma {:induction false} SettleKeepsUsage(s: State, i: RequestId, row: Request, actual: nat)
    requires UsageOk(s) && i in s.requests && s.requests[i].project in s.projects
    requires s.requests[i].status != Completed && row.status != Completed
    ensures UsageOk(Settle(s, i, row, actual))
  {}

  // `t` is `s` with one open row rewritten and its project settled at what the new row holds.
  ghost predicate Rewrites(s: State, i: RequestId, row: Request, t: State) {
    && i in s.requests && s.requests[i].project in s.projects && !Terminal(s.requests[i])
    && SameTerms(s.requests[i], row) && RowOk(row, s.lease) && row.status != Completed
    && t == Settle(s, i, row, Contribution(row))
  }

  lemma {:induction false} RewriteKeepsInv(s: State, i: RequestId, row: Request, t: State)
    requires Inv(s) && Rewrites(s, i, row, t)
    ensures Inv(t)
  {
    SettleKeepsLedger(s, i, row);
    SettleKeepsRows(s, i, row, Contribution(row));
    SettleKeepsPeriods(s, i, row, Contribution(row));
    SettleKeepsIdempotency(s, i, row, Contribution(row));
    SettleKeepsUsage(s, i, row, Contribution(row));
  }

  // ---------------------------------------------------------------- one lemma a step

  lemma {:induction false} KeyReadingsKept(s: State, to: nat)
    requires RowsOk(s) && PeriodsOk(s) && s.clock <= to
    ensures forall k :: k in s.keys ==> KeyReadUnderLock(s.keys[k], to)
  {
    TodayNeverGoesBack(s.clock, to);
    forall k | k in s.keys && s.keys[k].dailyUsed > 0 ensures NotAfter(s.keys[k].dailyDate, Today(to)) {
      assert KeyReadUnderLock(s.keys[k], s.clock);
      DatesTransitive(s.keys[k].dailyDate, Today(s.clock), Today(to));
    }
  }

  lemma {:induction false} TickKeepsInv(s: State, to: nat)
    requires Inv(s) && s.clock <= to
    ensures Inv(s.(clock := to))
  {
    var t := s.(clock := to);
    forall i | i in t.requests ensures PeriodOk(t, t.requests[i]) {
      assert PeriodOk(s, s.requests[i]);
      TodayNeverGoesBack(s.clock, to);
      DatesTransitive(s.projects[s.requests[i].project].dailyDate, Today(s.clock), Today(to));
    }
    KeyReadingsKept(s, to);
  }

  lemma DatesTransitive(a: Date, b: Date, c: Date)
    requires NotAfter(a, b) && NotAfter(b, c)
    ensures NotAfter(a, c)
  {}

  // The rows of project `p` charged to no later period than `row` carries, with `row` up to date.
  ghost predicate ChargedBy(p: ProjectId, row: Project, requests: map<RequestId, Request>, today: Date) {
    forall i :: i in requests && requests[i].project == p ==>
      && NotAfter(requests[i].budgetDay, row.dailyDate)
      && NotAfter(row.dailyDate, today)
      && row.monthlyMonth == MonthOf(row.dailyDate)
      && requests[i].budgetMonth == MonthOf(requests[i].budgetDay)
  }

  // Opening a new period is sound because no request can have been charged to it yet.
  lemma {:induction false} RollOverKeepsBalance(p: ProjectId, row: Project, requests: map<RequestId, Request>, today: Date)
    requires BalancedAt(p, row, requests) && ChargedBy(p, row, requests, today)
    ensures BalancedAt(p, RollOver(row, today), requests)
    ensures ChargedBy(p, RollOver(row, today), requests, today)
  {
    var now := RollOver(row, today);
    forall i | i in requests && requests[i].project == p
      ensures now.dailyDate != row.dailyDate ==> requests[i].budgetDay != today
      ensures now.monthlyMonth != row.monthlyMonth ==> requests[i].budgetMonth != MonthOf(today)
      ensures NotAfter(requests[i].budgetDay, today)
    {
      DatesTransitive(requests[i].budgetDay, row.dailyDate, today);
      MonthsKeepOrder(requests[i].budgetDay, row.dailyDate);
      MonthsKeepOrder(row.dailyDate, today);
    }
    if now.dailyDate != row.dailyDate {
      TotalZero(requests, OnDay(p, today));
    }
    if now.monthlyMonth != row.monthlyMonth {
      TotalZero(requests, InMonth(p, MonthOf(today)));
    }
  }

  lemma {:induction false} InsertKeepsBalance(p: ProjectId, row: Project, requests: map<RequestId, Request>, i: RequestId, r: Request)
    requires BalancedAt(p, row, requests) && i !in requests && Contribution(r) == r.reserved
    requires r.project == p ==> r.budgetDay == row.dailyDate && r.budgetMonth == row.monthlyMonth
    ensures BalancedAt(p, if r.project == p then Charge(row, r.reserved) else row, requests[i := r])
  {
    TotalPut(requests, OnDay(p, row.dailyDate), i, r);
    TotalPut(requests, InMonth(p, row.monthlyMonth), i, r);
  }

  lemma {:induction false} InsertKeepsLimits(p: ProjectId, row: Project, requests: map<RequestId, Request>, i: RequestId, r: Request)
    requires i !in requests && Overrun(r) == 0
    requires if r.project == p then EnforceBudget(SnapshotOf(row), r.reserved).None? else WithinAt(p, row, requests)
    ensures WithinAt(p, if r.project == p then Charge(row, r.reserved) else row, requests[i := r])
  {
    TotalPut(requests, OverrunOnDay(p, row.dailyDate), i, r);
    TotalPut(requests, OverrunInMonth(p, row.monthlyMonth), i, r);
    TotalNotNegative(requests, OverrunOnDay(p, row.dailyDate));
    TotalNotNegative(requests, OverrunInMonth(p, row.monthlyMonth));
  }

  lemma {:induction false} SubmitChargedBy(s: State, p: ProjectId, now: nat)
    requires RowsOk(s) && PeriodsOk(s) && p in s.projects && ClockReadUnderLock(s, p, now)
    ensures ChargedBy(p, s.projects[p], s.requests, Today(now))
  {
    forall i | i in s.requests && s.requests[i].project == p
      ensures PeriodOk(s, s.requests[i]) && NotAfter(s.projects[p].dailyDate, Today(now))
    {
    }
  }

  // A reading no older than the last committed one is always a reading under the lock.
  lemma {:induction false} CurrentReadings(s: State, now: nat)
    requires RowsOk(s) && PeriodsOk(s) && s.clock <= now
    ensures forall p :: p in s.projects ==> ClockReadUnderLock(s, p, now)
    ensures forall k :: k in s.keys ==> KeyReadUnderLock(s.keys[k], now)
  {
    KeyReadingsKept(s, now);
    TodayNeverGoesBack(s.clock, now);
    forall i | i in s.requests ensures NotAfter(s.projects[s.requests[i].project].dailyDate, Today(now)) {
      assert PeriodOk(s, s.requests[i]);
      DatesTransitive(s.projects[s.requests[i].project].dailyDate, Today(s.clock), Today(now));
    }
  }

  lemma {:induction false} SubmitKeepsHome(s: State, home: ProjectId, now: nat, id: RequestId, r: Request)
    requires RowsOk(s) && PeriodsOk(s) && home in s.projects && ClockReadUnderLock(s, home, now) && id !in s.requests
    requires BalancedAt(home, s.projects[home], s.requests) && r.project == home
    requires r.budgetDay == Today(now) && r.budgetMonth == MonthOf(Today(now)) && Contribution(r) == r.reserved && Overrun(r) == 0
    requires EnforceBudget(SnapshotOf(RollOver(s.projects[home], Today(now))), r.reserved).None?
    ensures var row := Charge(RollOver(s.projects[home], Today(now)), r.reserved);
      BalancedAt(home, row, s.requests[id := r]) && WithinAt(home, row, s.requests[id := r])
  {
    var rolled := RollOver(s.projects[home], Today(now));
    SubmitChargedBy(s, home, now);
    RollOverKeepsBalance(home, s.projects[home], s.requests, Today(now));
    InsertKeepsBalance(home, rolled, s.requests, id, r);
    InsertKeepsLimits(home, rolled, s.requests, id, r);
  }

  lemma {:induction false} SubmitKeepsLedger(s: State, key: KeyId, idem: Option<string>, o: Order, t: Times, id: RequestId)
    requires RowsOk(s) && PeriodsOk(s) && Ledger(s) && WithinLimits(s) && SubmitEnabled(s, key, idem, o, t, id)
    ensures var u := Apply(s, Submit(key, idem, o, t, id)); Ledger(u) && WithinLimits(u)
  {
    var u := Apply(s, Submit(key, idem, o, t, id));
    var home := s.keys[key].project;
    var r := u.requests[id];
    forall p | p in u.projects
      ensures BalancedAt(p, u.projects[p], u.requests) && WithinAt(p, u.projects[p], u.requests)
    {
      assert BalancedAt(p, s.projects[p], s.requests) && WithinAt(p, s.projects[p], s.requests);
      if p == home {
        SubmitKeepsHome(s, home, t.reserve, id, r);
      } else {
        InsertKeepsBalance(p, s.projects[p], s.requests, id, r);
        InsertKeepsLimits(p, s.projects[p], s.requests, id, r);
      }
    }
  }

  lemma {:induction false} SubmitKeepsRows(s: State, key: KeyId, idem: Option<string>, o: Order, t: Times, id: RequestId)
    requires RowsOk(s) && SubmitEnabled(s, key, idem, o, t, id)
    ensures RowsOk(Apply(s, Submit(key, idem, o, t, id)))
  {}

  lemma {:induction false} SubmitKeepsPeriods(s: State, key: KeyId, idem: Option<string>, o: Order, t: Times, id: RequestId)
    requires RowsOk(s) && PeriodsOk(s) && SubmitEnabled(s, key, idem, o, t, id)
    requires RowsOk(Apply(s, Submit(key, idem, o, t, id)))
    ensures PeriodsOk(Apply(s, Submit(key, idem, o, t, id)))
  {
    var u := Apply(s, Submit(key, idem, o, t, id));
    var home := s.keys[key].project;
    TodayNeverGoesBack(t.reserve, s.clock);
    TodayNeverGoesBack(t.auth, s.clock);
    forall i | i in u.requests ensures PeriodOk(u, u.requests[i]) {
      if i != id {
        assert PeriodOk(s, s.requests[i]);
        if s.requests[i].project == home {
          DatesTransitive(s.requests[i].budgetDay, s.projects[home].dailyDate, Today(t.reserve));
        }
      }
    }
  }

  lemma {:induction false} SubmitKeepsOthers(s: State, key: KeyId, idem: Option<string>, o: Order, t: Times, id: RequestId)
    requires UsageOk(s) && KeyTotals(s) && IdempotencyOk(s) && SubmitEnabled(s, key, idem, o, t, id)
    ensures var u := Apply(s, Submit(key, idem, o, t, id)); UsageOk(u) && KeyTotals(u) && IdempotencyOk(u)
  {
    SubmitKeepsIdempotency(s, key, idem, o, t, id);
  }

  lemma {:induction false} SubmitKeepsIdempotency(s: State, key: KeyId, idem: Option<string>, o: Order, t: Times, id: RequestId)
    requires IdempotencyOk(s) && SubmitEnabled(s, key, idem, o, t, id)
    ensures IdempotencyOk(Apply(s, Submit(key, idem, o, t, id)))
  {
    var u := Apply(s, Submit(key, idem, o, t, id));
    forall i, j | i in u.requests && j in u.requests && i != j
      ensures !SameIdempotency(u.requests[j], u.requests[i].apiKey, u.requests[i].idempotencyKey)
    {
      if i != id && j != id {
        assert !SameIdempotency(s.requests[j], s.requests[i].apiKey, s.requests[i].idempotencyKey);
      } else {
        var other := if i == id then j else i;
        assert !SameIdempotency(s.requests[other], key, idem);
      }
    }
  }

  // Key rows may change freely in everything but their project and their totals.
  lemma {:induction false} KeyUpdateKeepsRows(s: State, t: State)
    requires RowsOk(s) && PeriodsOk(s) && t == s.(keys := t.keys) && t.keys.Keys == s.keys.Keys
    requires forall k :: k in s.keys ==> t.keys[k].project == s.keys[k].project && KeyReadUnderLock(t.keys[k], s.clock)
    ensures RowsOk(t) && PeriodsOk(t)
  {
    forall i | i in t.requests ensures PeriodOk(t, t.requests[i]) {
      assert PeriodOk(s, s.requests[i]);
    }
  }

  lemma {:induction false} KeyUpdateKeepsOthers(s: State, t: State)
    requires Ledger(s) && WithinLimits(s) && UsageOk(s) && IdempotencyOk(s) && t == s.(keys := t.keys)
    ensures Ledger(t) && WithinLimits(t) && UsageOk(t) && IdempotencyOk(t)
  {}

  // `t` is `s` with one key row changed in nothing but its day count and its revocation.
  ghost predicate Recounts(s: State, key: KeyId, row: ApiKey, t: State) {
    && key in s.keys && row.dailyUsed <= row.dailyLimit && row.project == s.keys[key].project && KeyReadUnderLock(row, s.clock)
    && row.totalRequests == s.keys[key].totalRequests && row.totalTokens == s.keys[key].totalTokens
    && t == s.(keys := s.keys[key := row])
  }

  lemma {:induction false} RecountKeepsTotals(s: State, key: KeyId, row: ApiKey, t: State)
    requires KeyTotals(s) && Recounts(s, key, row, t)
    ensures KeyTotals(t)
  {}

  lemma {:induction false} KeyUpdateKeepsInv(s: State, key: KeyId, row: ApiKey, t: State)
    requires Inv(s) && Recounts(s, key, row, t)
    ensures Inv(t)
  {
    KeyUpdateKeepsRows(s, t);
    KeyUpdateKeepsOthers(s, t);
    RecountKeepsTotals(s, key, row, t);
  }

  // Every completed row but the credited one keeps its record, and the credited one has gained its.
  lemma {:induction false} CreditCovers(s: State, t: State, u: UsageId, record: UsageRecord, i: RequestId)
    requires UsageOk(s) && u !in s.usage && t.usage == s.usage[u := record]
    requires record.request in s.requests && t.requests.Keys == s.requests.Keys
    requires t.requests == s.requests[record.request := t.requests[record.request]]
    requires i in t.requests && t.requests[i].status == Completed
    ensures exists v :: v in t.usage && t.usage[v].request == i
  {
    if i == record.request {
      assert t.usage[u].request == i;
    } else {
      var v :| v in s.usage && s.usage[v].request == i;
      assert v in t.usage && t.usage[v].request == i;
    }
  }

  lemma {:induction false} CreditKeepsUsage(s: State, t: State, u: UsageId, record: UsageRecord)
    requires UsageOk(s) && u !in s.usage && record.request in s.requests && s.requests[record.request].status != Completed
    requires t.requests.Keys == s.requests.Keys && t.requests == s.requests[record.request := t.requests[record.request]]
    requires t.usage == s.usage[u := record] && Records(record, t.requests[record.request])
    ensures UsageOk(t)
  {
    forall i | i in t.requests && t.requests[i].status == Completed
      ensures exists v :: v in t.usage && t.usage[v].request == i
    {
      CreditCovers(s, t, u, record, i);
    }
    forall v | v in s.usage ensures s.usage[v].request != record.request {
      assert Records(s.usage[v], s.requests[s.usage[v].request]);
    }
  }

  lemma {:induction false} CreditKeepsTotals(t: State, key: KeyId, u: UsageId, record: UsageRecord)
    requires KeyTotals(t) && key in t.keys && u !in t.usage && record.apiKey == key
    ensures KeyTotals(Credit(t, key, u, record))
  {
    var v := Credit(t, key, u, record);
    forall k | k in v.keys
      ensures v.keys[k].totalRequests == Total(v.usage, OfKey(k)) && v.keys[k].totalTokens == Total(v.usage, TokensOfKey(k))
    {
      TotalPut(t.usage, OfKey(k), u, record);
      TotalPut(t.usage, TokensOfKey(k), u, record);
    }
  }

  lemma {:induction false} CreditKeepsRows(t: State, key: KeyId, u: UsageId, record: UsageRecord)
    requires RowsOk(t) && PeriodsOk(t) && Ledger(t) && WithinLimits(t) && IdempotencyOk(t) && key in t.keys
    ensures var v := Credit(t, key, u, record);
      RowsOk(v) && PeriodsOk(v) && Ledger(v) && WithinLimits(v) && IdempotencyOk(v)
  {
    var v := Credit(t, key, u, record);
    assert RowsOk(v);
    forall i | i in v.requests ensures PeriodOk(v, v.requests[i]) {
      assert PeriodOk(t, t.requests[i]);
    }
  }

  lemma {:induction false} FinishedRowOk(r: Request, w: WorkerId, result: Json, input: nat, output: nat, now: nat, lease: nat)
    requires RowOk(r, lease) && HeldBy(r, w)
    ensures var row := Finished(r, result, input, output, now);
      RowOk(row, lease) && SameTerms(r, row) && Contribution(row) - row.reserved <= Overrun(row)
  {}

  // The part of a commit that settles the row and the counters.
  lemma {:induction false} FinishKeepsRows(s: State, id: RequestId, row: Request)
    requires Inv(s) && id in s.requests && RowOk(row, s.lease) && SameTerms(s.requests[id], row)
    requires !Terminal(s.requests[id]) && Contribution(row) - row.reserved <= Overrun(row)
    ensures var t := Settle(s, id, row, Contribution(row));
      RowsOk(t) && PeriodsOk(t) && Ledger(t) && WithinLimits(t) && KeyTotals(t) && IdempotencyOk(t)
  {
    SettleKeepsLedger(s, id, row);
    SettleKeepsRows(s, id, row, Contribution(row));
    SettleKeepsPeriods(s, id, row, Contribution(row));
    SettleKeepsIdempotency(s, id, row, Contribution(row));
  }

  lemma {:induction false} CommitIsCredit(s: State, w: Worker, id: RequestId, result: Json, input: nat, output: nat, latency: nat, now: nat, u: UsageId)
    requires CommitEnabled(s, w, id, now, u)
    ensures var row := Finished(s.requests[id], result, input, output, now);
      Apply(s, Commit(w, id, result, input, output, latency, now, u)) ==
      Credit(Settle(s, id, row, Contribution(row)), row.apiKey, u, UsageOf(id, s.requests[id], w, input, output, latency))
  {}

  // `t` is `s` with one open row completed, its project settled and the usage record credited.
  ghost predicate Completes(s: State, i: RequestId, row: Request, u: UsageId, record: UsageRecord, t: State) {
    && i in s.requests && s.requests[i].project in s.projects && row.apiKey in s.keys && !Terminal(s.requests[i])
    && SameTerms(s.requests[i], row) && RowOk(row, s.lease) && Contribution(row) - row.reserved <= Overrun(row)
    && u !in s.usage && record.request == i && Records(record, row)
    && t == Credit(Settle(s, i, row, Contribution(row)), row.apiKey, u, record)
  }

  lemma {:induction false} CommitCompletesRow(s: State, w: Worker, id: RequestId, result: Json, input: nat, output: nat, latency: nat, now: nat, u: UsageId)
    requires RowsOk(s) && CommitEnabled(s, w, id, now, u)
    ensures Completes(s, id, Finished(s.requests[id], result, input, output, now), u, UsageOf(id, s.requests[id], w, input, output, latency),
                      Apply(s, Commit(w, id, result, input, output, latency, now, u)))
  {
    FinishedRowOk(s.requests[id], w.id, result, input, output, now, s.lease);
    CommitIsCredit(s, w, id, result, input, output, latency, now, u);
  }

  lemma {:induction false} CompletionKeepsUsage(s: State, i: RequestId, row: Request, u: UsageId, record: UsageRecord, t: State)
    requires UsageOk(s) && Completes(s, i, row, u, record, t)
    ensures UsageOk(t)
  {
    CreditKeepsUsage(s, t, u, record);
  }

  lemma {:induction false} CompletionKeepsRest(s: State, i: RequestId, row: Request, u: UsageId, record: UsageRecord, t: State, settled: State)
    requires Completes(s, i, row, u, record, t) && settled == Settle(s, i, row, Contribution(row))
    requires RowsOk(settled) && PeriodsOk(settled) && Ledger(settled) && WithinLimits(settled) && KeyTotals(settled) && IdempotencyOk(settled)
    ensures RowsOk(t) && PeriodsOk(t) && Ledger(t) && WithinLimits(t) && KeyTotals(t) && IdempotencyOk(t)
  {
    CreditKeepsRows(settled, row.apiKey, u, record);
    CreditKeepsTotals(settled, row.apiKey, u, record);
  }

  lemma {:induction false} CompletionKeepsInv(s: State, i: RequestId, row: Request, u: UsageId, record: UsageRecord, t: State)
    requires Inv(s) && Completes(s, i, row, u, record, t)
    ensures Inv(t)
  {
    FinishKeepsRows(s, i, row);
    CompletionKeepsRest(s, i, row, u, record, t, Settle(s, i, row, Contribution(row)));
    CompletionKeepsUsage(s, i, row, u, record, t);
  }

  lemma {:induction false} CommitKeepsInv(s: State, w: Worker, id: RequestId, result: Json, input: nat, output: nat, latency: nat, now: nat, u: UsageId)
    requires Inv(s) && CommitEnabled(s, w, id, now, u)
    ensures Inv(Apply(s, Commit(w, id, result, input, output, latency, now, u)))
  {
    CommitCompletesRow(s, w, id, result, input, output, latency, now, u);
    CompletionKeepsInv(s, id, Finished(s.requests[id], result, input, output, now), u, UsageOf(id, s.requests[id], w, input, output, latency),
                       Apply(s, Commit(w, id, result, input, output, latency, now, u)));
  }

  lemma {:induction false} ClaimedRowOk(r: Request, w: Worker, now: nat, lease: nat)
    requires RowOk(r, lease) && Claimable(r, w, now)
    ensures var row := Claimed(r, w.id, now, lease); RowOk(row, lease) && SameTerms(r, row) && Contribution(row) == r.reserved
  {}

  lemma {:induction false} ClaimRewrites(s: State, w: Worker, skipped: set<RequestId>, now: nat, id: RequestId)
    requires RowsOk(s) && ClaimEnabled(s, w, skipped, now, id)
    ensures Rewrites(s, id, Claimed(s.requests[id], w.id, now, s.lease), Apply(s, Claim(w, skipped, now, id)))
  {
    ClaimedRowOk(s.requests[id], w, now, s.lease);
    RewriteIsSettle(s, id, Claimed(s.requests[id], w.id, now, s.lease));
  }

  lemma {:induction false} ClaimKeepsInv(s: State, w: Worker, skipped: set<RequestId>, now: nat, id: RequestId)
    requires Inv(s) && ClaimEnabled(s, w, skipped, now, id)
    ensures Inv(Apply(s, Claim(w, skipped, now, id)))
  {
    ClaimRewrites(s, w, skipped, now, id);
    RewriteKeepsInv(s, id, Claimed(s.requests[id], w.id, now, s.lease), Apply(s, Claim(w, skipped, now, id)));
  }

  lemma {:induction false} ErroredRowOk(r: Request, w: WorkerId, retryable: bool, code: string, lease: nat)
    requires RowOk(r, lease) && HeldBy(r, w)
    ensures var row := Errored(r, retryable, code);
      && RowOk(row, lease) && SameTerms(r, row) && row.status != Completed
      && Contribution(row) == if Retries(r, retryable) then r.reserved else 0
  {}

  lemma {:induction false} FailRewrites(s: State, w: Worker, id: RequestId, retryable: bool, code: string)
    requires RowsOk(s) && Enabled(s, Fail(w, id, retryable, code))
    ensures Rewrites(s, id, Errored(s.requests[id], retryable, code), Apply(s, Fail(w, id, retryable, code)))
  {
    ErroredRowOk(s.requests[id], w.id, retryable, code, s.lease);
    RewriteIsSettle(s, id, Errored(s.requests[id], retryable, code));
  }

  lemma {:induction false} FailKeepsInv(s: State, w: Worker, id: RequestId, retryable: bool, code: string)
    requires Inv(s) && Enabled(s, Fail(w, id, retryable, code))
    ensures Inv(Apply(s, Fail(w, id, retryable, code)))
  {
    FailRewrites(s, w, id, retryable, code);
    RewriteKeepsInv(s, id, Errored(s.requests[id], retryable, code), Apply(s, Fail(w, id, retryable, code)));
  }

  lemma {:induction false} RecoveredRowOk(r: Request, now: nat, lease: nat)
    requires RowOk(r, lease)
    ensures RowOk(Recovered(r, now), lease) && SameTerms(r, Recovered(r, now))
    ensures Contribution(Recovered(r, now)) == Contribution(r) - (if Freed(r, now) then r.reserved else 0)
    ensures Overrun(Recovered(r, now)) == Overrun(r)
    ensures r.status == Completed <==> Recovered(r, now).status == Completed
    ensures r.status == Completed ==> Recovered(r, now) == r
  {}

  // `after` is `before` with rows rewritten within their terms; only those in `freed` give up
  // their reservation, and no row is completed.
  ghost predicate Rewritten(before: map<RequestId, Request>, after: map<RequestId, Request>, freed: map<RequestId, Request>, lease: nat) {
    && before.Keys == after.Keys && freed.Keys <= before.Keys
    && (forall i :: i in freed ==> freed[i] == before[i])
    && (forall i :: i in before ==> RowRewritten(before[i], after[i], i in freed, lease))
  }

  ghost predicate RowRewritten(a: Request, b: Request, freed: bool, lease: nat) {
    && SameTerms(a, b) && RowOk(b, lease)
    && (a.status == Completed || b.status == Completed ==> a == b)
    && Overrun(b) == Overrun(a)
    && Contribution(b) == Contribution(a) - (if freed then a.reserved else 0)
  }

  lemma {:induction false} RecoverRewrites(s: State, now: nat, touched: set<RequestId>)
    requires RowsOk(s) && Enabled(s, Recover(now, touched))
    ensures Rewritten(s.requests, Apply(s, Recover(now, touched)).requests, FreedRows(s.requests, now, touched), s.lease)
  {
    var after := Apply(s, Recover(now, touched)).requests;
    var freed := FreedRows(s.requests, now, touched);
    forall i | i in s.requests ensures RowRewritten(s.requests[i], after[i], i in freed, s.lease) {
      RecoveredRowOk(s.requests[i], now, s.lease);
    }
  }

  // What the rows in `freed` had reserved is what the period totals lose; overruns are untouched.
  lemma {:induction false} RewriteTotals(
    before: map<RequestId, Request>, after: map<RequestId, Request>, freed: map<RequestId, Request>, lease: nat,
    p: ProjectId, day: Date, month: Date)
    requires Rewritten(before, after, freed, lease)
    ensures Total(after, OnDay(p, day)) == Total(before, OnDay(p, day)) - Total(freed, ReservedOn(p, day))
    ensures Total(after, InMonth(p, month)) == Total(before, InMonth(p, month)) - Total(freed, ReservedIn(p, month))
  {
    RewriteDay(before, after, freed, lease, p, day);
    RewriteMonth(before, after, freed, lease, p, month);
  }

  lemma {:induction false} RewriteDay(
    before: map<RequestId, Request>, after: map<RequestId, Request>, freed: map<RequestId, Request>, lease: nat, p: ProjectId, day: Date)
    requires Rewritten(before, after, freed, lease)
    ensures Total(after, OnDay(p, day)) == Total(before, OnDay(p, day)) - Total(freed, ReservedOn(p, day))
  {
    TotalRewrite(before, after, freed, OnDay(p, day), ReservedOn(p, day));
  }

  lemma {:induction false} RewriteMonth(
    before: map<RequestId, Request>, after: map<RequestId, Request>, freed: map<RequestId, Request>, lease: nat, p: ProjectId, month: Date)
    requires Rewritten(before, after, freed, lease)
    ensures Total(after, InMonth(p, month)) == Total(before, InMonth(p, month)) - Total(freed, ReservedIn(p, month))
  {
    TotalRewrite(before, after, freed, InMonth(p, month), ReservedIn(p, month));
  }

  lemma {:induction false} RewriteOverruns(
    before: map<RequestId, Request>, after: map<RequestId, Request>, freed: map<RequestId, Request>, lease: nat,
    p: ProjectId, day: Date, month: Date)
    requires Rewritten(before, after, freed, lease)
    ensures Total(after, OverrunOnDay(p, day)) == Total(before, OverrunOnDay(p, day))
    ensures Total(after, OverrunInMonth(p, month)) == Total(before, OverrunInMonth(p, month))
  {
    TotalRewrite(before, after, map[], OverrunOnDay(p, day), ReservedOn(p, day));
    TotalRewrite(before, after, map[], OverrunInMonth(p, month), ReservedIn(p, month));
  }

  // Giving back what `freed` had reserved never meets the clamp and keeps the balance.
  lemma {:induction false} GiveBackKeepsBalance(
    p: ProjectId, row: Project,
    before: map<RequestId, Request>, after: map<RequestId, Request>, freed: map<RequestId, Request>, lease: nat)
    requires Rewritten(before, after, freed, lease)
    requires BalancedAt(p, row, before) && WithinAt(p, row, before)
    ensures Total(freed, ReservedOn(p, row.dailyDate)) <= row.dailyUsed
    ensures Total(freed, ReservedIn(p, row.monthlyMonth)) <= row.monthlyUsed
    ensures BalancedAt(p, GiveBack(p, row, freed), after) && WithinAt(p, GiveBack(p, row, freed), after)
  {
    RewriteTotals(before, after, freed, lease, p, row.dailyDate, row.monthlyMonth);
    RewriteOverruns(before, after, freed, lease, p, row.dailyDate, row.monthlyMonth);
    NotNegative(p, row, after, freed);
  }

  lemma {:induction false} NotNegative(p: ProjectId, row: Project, after: map<RequestId, Request>, freed: map<RequestId, Request>)
    ensures Total(after, OnDay(p, row.dailyDate)) >= 0 && Total(after, InMonth(p, row.monthlyMonth)) >= 0
    ensures Total(freed, ReservedOn(p, row.dailyDate)) >= 0 && Total(freed, ReservedIn(p, row.monthlyMonth)) >= 0
  {
    TotalNotNegative(after, OnDay(p, row.dailyDate));
    TotalNotNegative(after, InMonth(p, row.monthlyMonth));
    TotalNotNegative(freed, ReservedOn(p, row.dailyDate));
    TotalNotNegative(freed, ReservedIn(p, row.monthlyMonth));
  }

  lemma {:induction false} RecoverKeepsLedger(s: State, now: nat, touched: set<RequestId>)
    requires RowsOk(s) && Ledger(s) && WithinLimits(s) && Enabled(s, Recover(now, touched))
    ensures var t := Apply(s, Recover(now, touched)); Ledger(t) && WithinLimits(t)
  {
    var t := Apply(s, Recover(now, touched));
    RecoverRewrites(s, now, touched);
    forall p | p in t.projects
      ensures BalancedAt(p, t.projects[p], t.requests) && WithinAt(p, t.projects[p], t.requests)
    {
      GiveBackKeepsBalance(p, s.projects[p], s.requests, t.requests, FreedRows(s.requests, now, touched), s.lease);
    }
  }

  lemma {:induction false} RecoverKeepsInv(s: State, now: nat, touched: set<RequestId>)
    requires Inv(s) && Enabled(s, Recover(now, touched))
    ensures Inv(Apply(s, Recover(now, touched)))
  {
    RecoverKeepsLedger(s, now, touched);
    RecoverRewrites(s, now, touched);
    RewrittenKeeps(s, Apply(s, Recover(now, touched)), FreedRows(s.requests, now, touched));
  }

  // Rewriting any number of rows within their terms, none of them completed before or after.
  lemma {:induction false} RewrittenKeeps(s: State, t: State, freed: map<RequestId, Request>)
    requires RowsOk(s) && PeriodsOk(s) && UsageOk(s) && KeyTotals(s) && IdempotencyOk(s)
    requires t.clock == s.clock && t.lease == s.lease && t.keys == s.keys && t.usage == s.usage
    requires t.projects.Keys == s.projects.Keys
    requires forall p :: p in s.projects ==>
      t.projects[p].dailyDate == s.projects[p].dailyDate && t.projects[p].monthlyMonth == s.projects[p].monthlyMonth
    requires Rewritten(s.requests, t.requests, freed, s.lease)
    ensures RowsOk(t) && PeriodsOk(t) && UsageOk(t) && KeyTotals(t) && IdempotencyOk(t)
  {
    RewrittenKeepsPeriods(s, t, freed);
    RewrittenKeepsUsage(s, t, freed);
    forall i, j | i in t.requests && j in t.requests && i != j
      ensures !SameIdempotency(t.requests[j], t.requests[i].apiKey, t.requests[i].idempotencyKey)
    {
      assert RowRewritten(s.requests[i], t.requests[i], i in freed, s.lease);
      assert RowRewritten(s.requests[j], t.requests[j], j in freed, s.lease);
      assert !SameIdempotency(s.requests[j], s.requests[i].apiKey, s.requests[i].idempotencyKey);
    }
  }

  lemma {:induction false} RewrittenKeepsPeriods(s: State, t: State, freed: map<RequestId, Request>)
    requires RowsOk(s) && PeriodsOk(s)
    requires t.clock == s.clock && t.lease == s.lease && t.keys == s.keys && t.projects.Keys == s.projects.Keys
    requires forall p :: p in s.projects ==>
      t.projects[p].dailyDate == s.projects[p].dailyDate && t.projects[p].monthlyMonth == s.projects[p].monthlyMonth
    requires Rewritten(s.requests, t.requests, freed, s.lease)
    ensures RowsOk(t) && PeriodsOk(t)
  {
    forall i | i in t.requests
      ensures RowOk(t.requests[i], t.lease) && SameTerms(s.requests[i], t.requests[i]) && i in s.requests
    {
      assert RowRewritten(s.requests[i], t.requests[i], i in freed, s.lease);
    }
    assert RowsOk(t);
    forall i | i in t.requests ensures PeriodOk(t, t.requests[i]) {
      assert PeriodOk(s, s.requests[i]);
    }
  }

  lemma {:induction false} RewrittenKeepsUsage(s: State, t: State, freed: map<RequestId, Request>)
    requires UsageOk(s) && t.usage == s.usage && Rewritten(s.requests, t.requests, freed, s.lease)
    ensures UsageOk(t)
  {
    forall i | i in t.requests
      ensures s.requests[i].status == Completed || t.requests[i].status == Completed ==> t.requests[i] == s.requests[i]
    {
      assert RowRewritten(s.requests[i], t.requests[i], i in freed, s.lease);
    }
  }

  lemma {:induction false} SubmitKeepsInv(s: State, key: KeyId, idem: Option<string>, o: Order, t: Times, id: RequestId)
    requires Inv(s) && SubmitEnabled(s, key, idem, o, t, id)
    ensures Inv(Apply(s, Submit(key, idem, o, t, id)))
  {
    SubmitKeepsLedger(s, key, idem, o, t, id);
    SubmitKeepsRows(s, key, idem, o, t, id);
    SubmitKeepsPeriods(s, key, idem, o, t, id);
    SubmitKeepsOthers(s, key, idem, o, t, id);
  }

  lemma {:induction false} ReplayKeepsInv(s: State, key: KeyId, auth: nat)
    requires Inv(s) && Enabled(s, Replay(key, auth))
    ensures Inv(Apply(s, Replay(key, auth)))
  {
    TodayNeverGoesBack(auth, s.clock);
    KeyUpdateKeepsInv(s, key, CountRequest(s.keys[key], Today(auth)), Apply(s, Replay(key, auth)));
  }

  lemma {:induction false} RevokeKeepsInv(s: State, key: KeyId, now: nat)
    requires Inv(s) && Enabled(s, RevokeKey(key, now))
    ensures Inv(Apply(s, RevokeKey(key, now)))
  {
    KeyUpdateKeepsInv(s, key, Apply(s, RevokeKey(key, now)).keys[key], Apply(s, RevokeKey(key, now)));
  }

  lemma {:induction false} StepKeepsInv(s: State, step: Step)
    requires Inv(s) && Enabled(s, step)
    ensures Inv(Apply(s, step))
  {
    if step.Tick? {
      TickKeepsInv(s, step.to);
    } else if step.Submit? {
      SubmitKeepsInv(s, step.key, step.idem, step.order, step.times, step.id);
    } else if step.Replay? {
      ReplayKeepsInv(s, step.key, step.auth);
    } else if step.Claim? {
      ClaimKeepsInv(s, step.worker, step.skipped, step.now, step.id);
    } else if step.Commit? {
      CommitKeepsInv(s, step.worker, step.id, step.result, step.input, step.output, step.latency, step.now, step.usageId);
    } else if step.Fail? {
      FailKeepsInv(s, step.worker, step.id, step.retryable, step.code);
    } else if step.Recover? {
      RecoverKeepsInv(s, step.now, step.touched);
    } else {
      RevokeKeepsInv(s, step.key, step.now);
    }
  }
}
