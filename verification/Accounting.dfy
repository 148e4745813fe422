/** What the ledger invariants mean for a project: the overshoot bound, the day inside the month,
  and the agreement with the usage table once the project's queue has drained. */
module Accounting {
  import opened Options
  import opened Calendar
  import opened Entities
  import opened BudgetRules
  import opened Protocol
  import opened Invariants
  import opened Runs
  import opened Sums

  // The counters are exactly what the period's requests hold: reservations while they are open,
  // actual tokens once completed, nothing once failed or expired.
  lemma {:induction false} CountersAreExact(r: Run, n: nat, p: ProjectId)
    requires IsRun(r) && n < |r.states| && p in r.states[n].projects
    ensures var s := r.states[n]; var row := s.projects[p];
      && row.dailyUsed == Total(s.requests, OnDay(p, row.dailyDate))
      && row.monthlyUsed == Total(s.requests, InMonth(p, row.monthlyMonth))
  {
    ReachableInv(r, n);
    assert BalancedAt(p, r.states[n].projects[p], r.states[n].requests);
  }

  // Usage can pass a limit only by what workers reported beyond their reservations.
  lemma {:induction false} OvershootIsOverrun(r: Run, n: nat, p: ProjectId)
    requires IsRun(r) && n < |r.states| && p in r.states[n].projects
    ensures var s := r.states[n]; var row := s.projects[p];
      && row.dailyUsed <= row.dailyLimit + Total(s.requests, OverrunOnDay(p, row.dailyDate))
      && row.monthlyUsed <= row.monthlyLimit + Total(s.requests, OverrunInMonth(p, row.monthlyMonth))
  {
    ReachableInv(r, n);
    assert WithinAt(p, r.states[n].projects[p], r.states[n].requests);
  }

  // ---------------------------------------------------------------- when the limits hold

  ghost predicate WithinBoth(s: State, p: ProjectId) {
    && p in s.projects
    && s.projects[p].dailyUsed <= s.projects[p].dailyLimit
    && s.projects[p].monthlyUsed <= s.projects[p].monthlyLimit
  }

  ghost predicate ResultFor(s: State, step: Step, p: ProjectId) {
    step.Commit? && step.id in s.requests && s.requests[step.id].project == p
  }

  // A reported result, in place of the reservation, fits each period of its project that is not
  // over yet.
  ghost predicate Fits(s: State, step: Step, p: ProjectId)
    requires ResultFor(s, step, p) && p in s.projects
  {
    var q, row := s.requests[step.id], s.projects[p];
    var delta := step.input + step.output - q.reserved;
    && row.dailyUsed + (if row.dailyDate == q.budgetDay then delta else 0) <= row.dailyLimit
    && row.monthlyUsed + (if row.monthlyMonth == q.budgetMonth then delta else 0) <= row.monthlyLimit
  }

  lemma {:induction false} CommitAdjusts(s: State, step: Step)
    requires Enabled(s, step) && step.Commit?
    ensures var q := s.requests[step.id];
      Apply(s, step).projects ==
      s.projects[q.project := Adjust(s.projects[q.project], step.input + step.output - q.reserved, q.budgetDay, q.budgetMonth)]
  {
    var Commit(w, id, result, input, output, latency, now, u) := step;
    CommitIsCredit(s, w, id, result, input, output, latency, now, u);
  }

  // An accepted result leaves its project within its limits exactly when it fits.
  lemma {:induction false} CommitWithinLimit(s: State, step: Step, p: ProjectId)
    requires Enabled(s, step) && ResultFor(s, step, p)
    ensures p in s.projects && (WithinBoth(Apply(s, step), p) <==> Fits(s, step, p))
  {
    CommitAdjusts(s, step);
  }

  lemma {:induction false} SubmitWithin(s: State, step: Step, p: ProjectId)
    requires Enabled(s, step) && step.Submit? && WithinBoth(s, p)
    ensures WithinBoth(Apply(s, step), p)
  {}

  lemma {:induction false} FailWithin(s: State, step: Step, p: ProjectId)
    requires Enabled(s, step) && step.Fail? && WithinBoth(s, p)
    ensures WithinBoth(Apply(s, step), p)
  {}

  lemma {:induction false} RecoverWithin(s: State, step: Step, p: ProjectId)
    requires Enabled(s, step) && step.Recover? && WithinBoth(s, p)
    ensures WithinBoth(Apply(s, step), p)
  {
    var freed := FreedRows(s.requests, step.now, step.touched);
    TotalNotNegative(freed, ReservedOn(p, s.projects[p].dailyDate));
    TotalNotNegative(freed, ReservedIn(p, s.projects[p].monthlyMonth));
  }

  lemma {:induction false} OtherCommitWithin(s: State, step: Step, p: ProjectId)
    requires Enabled(s, step) && step.Commit? && !ResultFor(s, step, p) && WithinBoth(s, p)
    ensures WithinBoth(Apply(s, step), p)
  {
    CommitAdjusts(s, step);
  }

  // Nothing else takes a project over a limit: not a submission, whatever its periods, nor an error
  // or a recovery pass, nor any step of another project.
  lemma {:induction false} StepWithin(s: State, step: Step, p: ProjectId)
    requires Enabled(s, step) && WithinBoth(s, p)
    ensures WithinBoth(Apply(s, step), p) <==> (ResultFor(s, step, p) ==> Fits(s, step, p))
  {
    if ResultFor(s, step, p) {
      CommitWithinLimit(s, step, p);
    } else {
      match step
      case Submit(_, _, _, _, _) => SubmitWithin(s, step, p);
      case Commit(_, _, _, _, _, _, _, _) => OtherCommitWithin(s, step, p);
      case Fail(_, _, _, _) => FailWithin(s, step, p);
      case Recover(_, _) => RecoverWithin(s, step, p);
      case _ =>
    }
  }

  ghost predicate AlwaysWithin(r: Run, n: nat, p: ProjectId)
    requires n < |r.states|
  {
    forall m :: 0 <= m <= n ==> WithinBoth(r.states[m], p)
  }

  // Every result before n that was accepted for the project fitted.
  ghost predicate AllFit(r: Run, n: nat, p: ProjectId)
    requires n <= |r.steps| < |r.states|
  {
    forall m :: 0 <= m < n && ResultFor(r.states[m], r.steps[m], p) ==>
      p in r.states[m].projects && Fits(r.states[m], r.steps[m], p)
  }

  // A project stays within both limits over a whole run if and only if every result accepted for
  // one of its requests fits the periods that are still open when it arrives.
  lemma {:induction false} LimitsHoldExactly(r: Run, n: nat, p: ProjectId)
    requires IsRun(r) && n < |r.states| && p in r.states[0].projects
    ensures AlwaysWithin(r, n, p) <==> AllFit(r, n, p)
  {
    if n == 0 {
      assert WithinBoth(r.states[0], p);
    } else {
      LimitsHoldExactly(r, n - 1, p);
      assert Next(r.states[n - 1], r.steps[n - 1], r.states[n]);
      if AlwaysWithin(r, n - 1, p) {
        StepWithin(r.states[n - 1], r.steps[n - 1], p);
      }
    }
  }

  // In particular they hold if no result accepted for the project reports more than its reservation.
  lemma {:induction false} LimitsAreHard(r: Run, n: nat, p: ProjectId)
    requires IsRun(r) && n < |r.states| && p in r.states[0].projects
    requires forall m :: 0 <= m < n && ResultFor(r.states[m], r.steps[m], p) ==>
      r.steps[m].input + r.steps[m].output <= r.states[m].requests[r.steps[m].id].reserved
    ensures AlwaysWithin(r, n, p) && AllFit(r, n, p)
  {
    if n == 0 {
      assert WithinBoth(r.states[0], p);
    } else {
      LimitsAreHard(r, n - 1, p);
      assert Next(r.states[n - 1], r.steps[n - 1], r.states[n]);
      StepWithin(r.states[n - 1], r.steps[n - 1], p);
    }
  }

  // ---------------------------------------------------------------- a limit passed

  const SMALL := Project(true, 10, 0, Today(0), 10, 0, MonthOf(Today(0)))
  const ORDER := Order("alias", "model", "", map[], 5)
  const TIMES := Times(0, 0, 0, 0)
  const WORKER := Worker(0, "local", true, ["model"], map[])

  lemma {:induction false} FiveReserved(s: State) returns (t: State)
    requires s == State(0, 60, map[0 := SMALL], map[0 := ApiKey(0, None, None, 5, 0, Today(0), 0, 0)], map[], map[])
    ensures Next(s, Submit(0, None, ORDER, TIMES, 0), t)
    ensures t.clock == 0 && t.requests == map[0 := NewRequest(0, 0, None, ORDER, TIMES)] && t.usage == map[]
    ensures 0 in t.keys && t.projects == map[0 := Charge(SMALL, 5)]
  {
    t := Apply(s, Submit(0, None, ORDER, TIMES, 0));
    assert RollOver(SMALL, Today(0)) == SMALL;
  }

  lemma {:induction false} FiveClaimed(s: State) returns (t: State)
    requires s.clock == 0 && s.requests == map[0 := NewRequest(0, 0, None, ORDER, TIMES)]
    ensures Next(s, Claim(WORKER, {}, 0, 0), t)
    ensures t == s.(requests := map[0 := Claimed(s.requests[0], 0, 0, s.lease)])
  {
    t := Apply(s, Claim(WORKER, {}, 0, 0));
  }

  lemma {:induction false} HundredReported(s: State) returns (t: State)
    requires s.clock == 0 && 0 in s.requests && s.usage == map[] && 0 in s.keys && s.projects == map[0 := Charge(SMALL, 5)]
    requires s.requests[0] == Claimed(NewRequest(0, 0, None, ORDER, TIMES), 0, 0, s.lease)
    ensures Next(s, Commit(WORKER, 0, "", 100, 0, 0, 0, 0), t)
    ensures 0 in t.projects && t.projects[0].dailyUsed == 100 && t.projects[0].dailyLimit == 10
  {
    t := Apply(s, Commit(WORKER, 0, "", 100, 0, 0, 0, 0));
    CommitAdjusts(s, Commit(WORKER, 0, "", 100, 0, 0, 0, 0));
  }

  // The limits are not hard by themselves: five tokens are reserved, a hundred reported, and a
  // limit of ten is passed.
  lemma {:induction false} LimitCanBePassed() returns (r: Run)
    ensures IsRun(r) && |r.steps| == 3 && 0 in r.states[3].projects
    ensures r.states[3].projects[0].dailyUsed > r.states[3].projects[0].dailyLimit
  {
    var s := State(0, 60, map[0 := SMALL], map[0 := ApiKey(0, None, None, 5, 0, Today(0), 0, 0)], map[], map[]);
    var reserved := FiveReserved(s);
    var claimed := FiveClaimed(reserved);
    var reported := HundredReported(claimed);
    r := Run([s, reserved, claimed, reported],
             [Submit(0, None, ORDER, TIMES, 0), Claim(WORKER, {}, 0, 0), Commit(WORKER, 0, "", 100, 0, 0, 0, 0)]);
  }

  // The day's usage is part of the month's.
  lemma {:induction false} DayWithinMonth(r: Run, n: nat, p: ProjectId)
    requires IsRun(r) && n < |r.states| && p in r.states[n].projects
    ensures r.states[n].projects[p].dailyUsed <= r.states[n].projects[p].monthlyUsed
  {
    var s := r.states[n];
    var row := s.projects[p];
    CountersAreExact(r, n, p);
    ReachableInv(r, n);
    forall i | i in s.requests
      ensures OnDay(p, row.dailyDate)(s.requests[i]) <= InMonth(p, row.monthlyMonth)(s.requests[i])
    {
      assert PeriodOk(s, s.requests[i]) && RowOk(s.requests[i], s.lease);
    }
    TotalAtMost(s.requests, OnDay(p, row.dailyDate), s.requests, InMonth(p, row.monthlyMonth));
  }

  // ---------------------------------------------------------------- agreement with the usage table

  ghost function UsedOnDay(requests: map<RequestId, Request>, p: ProjectId, day: Date): UsageRecord -> int {
    (u: UsageRecord) =>
      if u.project == p && u.request in requests && requests[u.request].budgetDay == day
      then u.inputTokens + u.outputTokens else 0
  }

  ghost function UsedInMonth(requests: map<RequestId, Request>, p: ProjectId, month: Date): UsageRecord -> int {
    (u: UsageRecord) =>
      if u.project == p && u.request in requests && requests[u.request].budgetMonth == month
      then u.inputTokens + u.outputTokens else 0
  }

  ghost predicate Drained(s: State, p: ProjectId) {
    forall i :: i in s.requests && s.requests[i].project == p ==> Terminal(s.requests[i])
  }

  // Once every request of a project is terminal its counters are the tokens on record.
  lemma {:induction false} DrainedMatchesUsage(s: State, p: ProjectId)
    requires Inv(s) && p in s.projects && Drained(s, p)
    ensures s.projects[p].dailyUsed == Total(s.usage, UsedOnDay(s.requests, p, s.projects[p].dailyDate))
    ensures s.projects[p].monthlyUsed == Total(s.usage, UsedInMonth(s.requests, p, s.projects[p].monthlyMonth))
  {
    assert BalancedAt(p, s.projects[p], s.requests);
    DrainedDay(s, p, s.projects[p].dailyDate);
    DrainedMonth(s, p, s.projects[p].monthlyMonth);
  }

  lemma {:induction false} DrainedDay(s: State, p: ProjectId, day: Date)
    requires UsageOk(s) && Drained(s, p)
    ensures Total(s.requests, OnDay(p, day)) == Total(s.usage, UsedOnDay(s.requests, p, day))
  {
    RecordsCover(s, p, OnDay(p, day), UsedOnDay(s.requests, p, day));
  }

  lemma {:induction false} DrainedMonth(s: State, p: ProjectId, month: Date)
    requires UsageOk(s) && Drained(s, p)
    ensures Total(s.requests, InMonth(p, month)) == Total(s.usage, UsedInMonth(s.requests, p, month))
  {
    RecordsCover(s, p, InMonth(p, month), UsedInMonth(s.requests, p, month));
  }

  lemma {:induction false} RecordsCover(s: State, p: ProjectId, v: Request -> int, w: UsageRecord -> int)
    requires UsageOk(s) && Drained(s, p)
    requires forall i :: i in s.requests && v(s.requests[i]) != 0 ==>
      s.requests[i].project == p && Contribution(s.requests[i]) != 0
    requires forall u :: u in s.usage && s.usage[u].request in s.requests && Records(s.usage[u], s.requests[s.usage[u].request]) ==>
      w(s.usage[u]) == v(s.requests[s.usage[u].request])
    ensures Total(s.usage, w) == Total(s.requests, v)
  {
    var to := map u | u in s.usage :: s.usage[u].request;
    forall i | i in s.requests && v(s.requests[i]) != 0 ensures exists u :: u in s.usage && to[u] == i {
      var u :| u in s.usage && s.usage[u].request == i;
      assert to[u] == i;
    }
    TotalAcross(s.usage, w, s.requests, v, to);
  }

  // ---------------------------------------------------------------- drain

  ghost function Pass(s: State, now: nat): Step {
    Recover(now, s.requests.Keys)
  }

  // One recovery pass, at any time from a request's queue expiry plus the lease length on, ends the
  // request whatever its history: no lease can reach that far.
  lemma {:induction false} PassEnds(r: Run, n: nat, now: nat, i: RequestId)
    requires IsRun(r) && n < |r.states| && now <= r.states[n].clock && i in r.states[n].requests
    requires r.states[n].requests[i].expiresAt + r.states[n].lease <= now
    ensures Terminal(Apply(r.states[n], Pass(r.states[n], now)).requests[i])
  {
    ReachableRows(r, n);
    RowEnds(r.states[n].requests[i], now, r.states[n].lease);
  }

  lemma RowEnds(q: Request, now: nat, lease: nat)
    requires RowOk(q, lease) && lease >= 1 && q.expiresAt + lease <= now
    ensures Terminal(Recovered(q, now))
  {}

  // A pass at a time when all of a project's requests are that old drains the project, and leaves
  // its counters equal to the usage table.
  lemma {:induction false} PassDrains(r: Run, n: nat, now: nat, p: ProjectId)
    requires IsRun(r) && n < |r.states| && now <= r.states[n].clock && p in r.states[n].projects
    requires forall i :: i in r.states[n].requests && r.states[n].requests[i].project == p ==>
      r.states[n].requests[i].expiresAt + r.states[n].lease <= now
    ensures var t := Apply(r.states[n], Pass(r.states[n], now));
      && Drained(t, p) && p in t.projects
      && t.projects[p].dailyUsed == Total(t.usage, UsedOnDay(t.requests, p, t.projects[p].dailyDate))
      && t.projects[p].monthlyUsed == Total(t.usage, UsedInMonth(t.requests, p, t.projects[p].monthlyMonth))
  {
    var s := r.states[n];
    var t := Apply(s, Pass(s, now));
    ReachableInv(r, n);
    StepKeepsInv(s, Pass(s, now));
    forall i | i in t.requests && t.requests[i].project == p ensures Terminal(t.requests[i]) {
      RecoveredRowOk(s.requests[i], now, s.lease);
      PassEnds(r, n, now, i);
    }
    DrainedMatchesUsage(t, p);
  }
}
