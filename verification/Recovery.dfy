/** The recovery pass: three guarded bulk updates, then one release for every row they ended. */
module Recovery {
  import opened Options
  import opened Entities
  import opened BudgetRules
  import opened Protocol
  import opened Invariants
  import opened Sums
  import opened Database
  import opened BudgetService

  // ---------------------------------------------------------------- rows

  // The rows the second and third updates return are exactly those the pass ends, and no row is
  // returned twice, not even one requeued by the first update and expired by the third.
  lemma ReturnedOnce(r: Request, now: nat)
    ensures var queued := Requeue(r, now); var given := GiveUp(queued, now);
      && (Freed(r, now) <==> Exhausted(queued, now) || QueueExpired(given, now))
      && !(Exhausted(queued, now) && QueueExpired(given, now))
  {}

  predicate Exhausted(r: Request, now: nat) {
    LeaseLost(r, now) && r.retryCount >= r.maxRetries
  }

  // The rows given another try: those charged one retry more.
  function Retried(before: map<RequestId, Request>, after: map<RequestId, Request>): set<RequestId> {
    set i | i in before && i in after && after[i].retryCount == before[i].retryCount + 1
  }

  // ---------------------------------------------------------------- the release loop

  lemma {:induction false} ReservedNotNegative(p: ProjectId, row: Project, freed: map<RequestId, Request>)
    ensures Total(freed, ReservedOn(p, row.dailyDate)) >= 0 && Total(freed, ReservedIn(p, row.monthlyMonth)) >= 0
  {
    TotalNotNegative(freed, ReservedOn(p, row.dailyDate));
    TotalNotNegative(freed, ReservedIn(p, row.monthlyMonth));
  }

  // One more release is one more row in the sum, whatever the order and however often the clamp
  // was met on the way.
  lemma {:induction false} ReleaseAddsUp(p: ProjectId, row: Project, requests: map<RequestId, Request>, ids: seq<RequestId>, n: nat)
    requires Distinct(ids) && n < |ids| && ids[n] in requests
    ensures var r := requests[ids[n]]; var sofar := GiveBack(p, row, Listed(requests, ids[..n]));
      GiveBack(p, row, Listed(requests, ids[..n + 1])) ==
      if r.project == p then Adjust(sofar, 0 - r.reserved, r.budgetDay, r.budgetMonth) else sofar
  {
    TotalNextListed(requests, ids, ReservedOn(p, row.dailyDate), n);
    TotalNextListed(requests, ids, ReservedIn(p, row.monthlyMonth), n);
    ReservedNotNegative(p, row, Listed(requests, ids[..n]));
  }

  // The release loop: one row after the other, in the order listed.
  ghost function ReleaseEach(projects: map<ProjectId, Project>, requests: map<RequestId, Request>, ids: seq<RequestId>)
    : (after: map<ProjectId, Project>)
    requires forall i :: i in ids ==> i in requests && requests[i].project in projects
    ensures after.Keys == projects.Keys
  {
    if ids == [] then projects else
      var sofar := ReleaseEach(projects, requests, ids[..|ids| - 1]);
      var r := requests[ids[|ids| - 1]];
      sofar[r.project := Adjust(sofar[r.project], 0 - r.reserved, r.budgetDay, r.budgetMonth)]
  }

  // Whatever the order of the rows, the loop gives back to each project what its rows had reserved.
  lemma {:induction false} OrderDoesNotMatter(
    projects: map<ProjectId, Project>, requests: map<RequestId, Request>, ids: seq<RequestId>, p: ProjectId)
    requires Distinct(ids) && p in projects && forall i :: i in ids ==> i in requests && requests[i].project in projects
    ensures ReleaseEach(projects, requests, ids)[p] == GiveBack(p, projects[p], Listed(requests, ids))
  {
    if ids == [] {
      assert Listed(requests, ids) == map[];
    } else {
      var n := |ids| - 1;
      OrderDoesNotMatter(projects, requests, ids[..n], p);
      assert ids[..n + 1] == ids && ids[n] in ids;
      ReleaseAddsUp(p, projects[p], requests, ids, n);
    }
  }

  // Update results come back in some order.
  method Enumerate(ids: set<RequestId>) returns (rows: seq<RequestId>)
    ensures Distinct(rows)
    ensures forall i :: i in rows <==> i in ids
  {
    rows := [];
    var left := ids;
    while left != {}
      invariant Distinct(rows) && left <= ids
      invariant forall i :: i in rows <==> i in ids && i !in left
      decreases left
    {
      var i :| i in left;
      left := left - {i};
      rows := rows + [i];
    }
  }

  lemma {:induction false} DistinctTogether(a: seq<RequestId>, b: seq<RequestId>)
    requires Distinct(a) && Distinct(b) && forall i :: i in a ==> i !in b
    ensures Distinct(a + b)
  {
    forall i, j | 0 <= i < j < |a + b| ensures (a + b)[i] != (a + b)[j] {
      if i < |a| <= j {
        assert a[i] in a && b[j - |a|] in b;
      }
    }
  }

  // The rows returned keep their projects.
  lemma {:induction false} RowsKnown(
    before: map<RequestId, Request>, after: map<RequestId, Request>, projects: map<ProjectId, Project>, rows: seq<RequestId>, now: nat)
    requires forall i :: i in before ==> before[i].project in projects
    requires after == RecoverRows(before, now, before.Keys)
    requires forall i :: i in rows ==> i in before
    ensures forall i :: i in rows ==> i in after && after[i].project in projects
  {}

  // Updates and releases together are the protocol's step.
  lemma {:induction false} PassIsRecover(s: State, now: nat, rows: seq<RequestId>, t: State)
    requires now <= s.clock && t == s.(requests := t.requests, projects := t.projects)
    requires t.requests == RecoverRows(s.requests, now, s.requests.Keys)
    requires Distinct(rows) && forall i :: i in rows <==> i in s.requests && Freed(s.requests[i], now)
    requires forall i :: i in rows ==> t.requests[i].project in s.projects
    requires t.projects == ReleaseEach(s.projects, t.requests, rows)
    ensures Next(s, Recover(now, s.requests.Keys), t)
  {
    ReleasedIsGivenBack(s.requests, t.requests, t.projects, s.projects, rows, now);
  }

  // The rows returned, read after the updates, release what they held before.
  lemma {:induction false} ReleasedIsGivenBack(
    before: map<RequestId, Request>, after: map<RequestId, Request>,
    projects: map<ProjectId, Project>, start: map<ProjectId, Project>, ids: seq<RequestId>, now: nat)
    requires after == RecoverRows(before, now, before.Keys)
    requires forall i :: i in ids <==> i in before && Freed(before[i], now)
    requires Distinct(ids) && forall i :: i in ids ==> after[i].project in start
    requires projects == ReleaseEach(start, after, ids)
    ensures projects == GiveBackAll(start, FreedRows(before, now, before.Keys))
  {
    forall p | p in start ensures projects[p] == GiveBack(p, start[p], FreedRows(before, now, before.Keys)) {
      OrderDoesNotMatter(start, after, ids, p);
      ListedIsFreed(before, after, ids, now, p, start[p]);
    }
  }

  lemma {:induction false} ListedIsFreed(
    before: map<RequestId, Request>, after: map<RequestId, Request>, ids: seq<RequestId>, now: nat, p: ProjectId, row: Project)
    requires after == RecoverRows(before, now, before.Keys)
    requires forall i :: i in ids <==> i in before && Freed(before[i], now)
    ensures GiveBack(p, row, Listed(after, ids)) == GiveBack(p, row, FreedRows(before, now, before.Keys))
  {
    var freed := FreedRows(before, now, before.Keys);
    var listed := Listed(after, ids);
    assert freed.Keys == listed.Keys;
    forall i | i in freed ensures SameReservation(freed[i], listed[i]) {
      assert listed[i] == Recovered(before[i], now);
    }
    SameGivenBack(p, row, freed, listed);
  }

  ghost predicate SameReservation(a: Request, b: Request) {
    a.project == b.project && a.reserved == b.reserved && a.budgetDay == b.budgetDay && a.budgetMonth == b.budgetMonth
  }

  lemma {:induction false} SameGivenBack(p: ProjectId, row: Project, m: map<RequestId, Request>, n: map<RequestId, Request>)
    requires m.Keys == n.Keys && forall i :: i in m ==> SameReservation(m[i], n[i])
    ensures GiveBack(p, row, m) == GiveBack(p, row, n)
  {
    TotalSame(m, ReservedOn(p, row.dailyDate), n, ReservedOn(p, row.dailyDate));
    TotalSame(m, ReservedIn(p, row.monthlyMonth), n, ReservedIn(p, row.monthlyMonth));
  }

  // Only the first update charges a retry.
  lemma {:induction false} OneRow(r: Request, queued: Request, given: Request, after: Request, now: nat)
    requires queued == Requeue(r, now) && given == GiveUp(queued, now) && after == ExpireQueued(given, now)
    ensures after == Recovered(r, now) && after.retryCount == queued.retryCount
  {
    RecoveredIsThreeUpdates(r, now);
  }

  // The tables after each of the three updates, and the rows the last two return.
  ghost predicate ThreeUpdates(
    start: map<RequestId, Request>, queued: map<RequestId, Request>, given: map<RequestId, Request>,
    after: map<RequestId, Request>, failed: set<RequestId>, expired: set<RequestId>, now: nat)
  {
    && queued == (map i | i in start :: Requeue(start[i], now))
    && given == (map i | i in queued :: GiveUp(queued[i], now)) && failed == (set i | i in queued && Exhausted(queued[i], now))
    && after == (map i | i in given :: ExpireQueued(given[i], now)) && expired == (set i | i in given && QueueExpired(given[i], now))
  }

  lemma {:induction false} UpdatesCompose(
    start: map<RequestId, Request>, queued: map<RequestId, Request>, given: map<RequestId, Request>,
    after: map<RequestId, Request>, failed: set<RequestId>, expired: set<RequestId>, now: nat)
    requires ThreeUpdates(start, queued, given, after, failed, expired, now)
    ensures after == RecoverRows(start, now, start.Keys)
  {
    forall i | i in start ensures i in after && after[i] == Recovered(start[i], now) {
      OneRow(start[i], queued[i], given[i], after[i], now);
    }
  }

  lemma {:induction false} UpdatesReturn(
    start: map<RequestId, Request>, queued: map<RequestId, Request>, given: map<RequestId, Request>,
    after: map<RequestId, Request>, failed: set<RequestId>, expired: set<RequestId>, now: nat)
    requires ThreeUpdates(start, queued, given, after, failed, expired, now)
    ensures failed !! expired
    ensures forall i :: i in failed || i in expired <==> i in start && Freed(start[i], now)
  {
    forall i | i in start
      ensures i in failed || i in expired <==> Freed(start[i], now)
      ensures !(i in failed && i in expired)
    {
      ReturnedOnce(start[i], now);
    }
  }

  lemma {:induction false} UpdatesRetry(
    start: map<RequestId, Request>, queued: map<RequestId, Request>, given: map<RequestId, Request>,
    after: map<RequestId, Request>, failed: set<RequestId>, expired: set<RequestId>, now: nat)
    requires ThreeUpdates(start, queued, given, after, failed, expired, now)
    ensures Retried(start, queued) == Retried(start, after)
  {
    forall i | i in start ensures i in after && after[i].retryCount == queued[i].retryCount {
      OneRow(start[i], queued[i], given[i], after[i], now);
    }
  }

  // ---------------------------------------------------------------- no release meets the clamp

  // What the first rows of a list had reserved, and the next one, is part of what all had.
  lemma {:induction false} SoFarAtMost(requests: map<RequestId, Request>, ids: seq<RequestId>, n: nat, w: Request -> int)
    requires Distinct(ids) && n <= |ids| && forall i :: i in ids ==> i in requests && 0 <= w(requests[i])
    ensures Total(Listed(requests, ids[..n]), w) <= Total(Listed(requests, ids), w)
    decreases |ids| - n
  {
    if n == |ids| {
      assert ids[..n] == ids;
    } else {
      assert ids[n] in ids;
      TotalNextListed(requests, ids, w, n);
      SoFarAtMost(requests, ids, n + 1, w);
    }
  }

  lemma {:induction false} ListedTotals(
    before: map<RequestId, Request>, after: map<RequestId, Request>, ids: seq<RequestId>, now: nat, w: Request -> int)
    requires after == RecoverRows(before, now, before.Keys)
    requires forall i :: i in ids <==> i in before && Freed(before[i], now)
    requires forall a: Request, b: Request :: SameReservation(a, b) ==> w(a) == w(b)
    ensures Total(Listed(after, ids), w) == Total(FreedRows(before, now, before.Keys), w)
  {
    var freed := FreedRows(before, now, before.Keys);
    var listed := Listed(after, ids);
    assert freed.Keys == listed.Keys;
    forall i | i in freed ensures w(freed[i]) == w(listed[i]) {
      assert SameReservation(freed[i], Recovered(before[i], now));
    }
    TotalSame(freed, w, listed, w);
  }

  // Before the release of a row, its project still counts at least what the row had reserved.
  lemma {:induction false} StillCounted(
    row: Project, requests: map<RequestId, Request>, ids: seq<RequestId>, n: nat)
    requires Distinct(ids) && n < |ids| && forall i :: i in ids ==> i in requests
    requires var p := requests[ids[n]].project;
      && Total(Listed(requests, ids), ReservedOn(p, row.dailyDate)) <= row.dailyUsed
      && Total(Listed(requests, ids), ReservedIn(p, row.monthlyMonth)) <= row.monthlyUsed
    ensures var q := requests[ids[n]]; var sofar := GiveBack(q.project, row, Listed(requests, ids[..n]));
      && (sofar.dailyDate == q.budgetDay ==> sofar.dailyUsed >= q.reserved)
      && (sofar.monthlyMonth == q.budgetMonth ==> sofar.monthlyUsed >= q.reserved)
  {
    var q := requests[ids[n]];
    TotalNextListed(requests, ids, ReservedOn(q.project, row.dailyDate), n);
    TotalNextListed(requests, ids, ReservedIn(q.project, row.monthlyMonth), n);
    SoFarAtMost(requests, ids, n + 1, ReservedOn(q.project, row.dailyDate));
    SoFarAtMost(requests, ids, n + 1, ReservedIn(q.project, row.monthlyMonth));
  }

  // What the rows of a pass had reserved is counted by their projects.
  lemma {:induction false} ReturnedCounted(s: State, now: nat, ids: seq<RequestId>, p: ProjectId)
    requires RowsOk(s) && Ledger(s) && WithinLimits(s) && now <= s.clock && p in s.projects
    requires forall i :: i in ids <==> i in s.requests && Freed(s.requests[i], now)
    ensures var listed := Listed(RecoverRows(s.requests, now, s.requests.Keys), ids); var row := s.projects[p];
      && Total(listed, ReservedOn(p, row.dailyDate)) <= row.dailyUsed
      && Total(listed, ReservedIn(p, row.monthlyMonth)) <= row.monthlyUsed
  {
    var after := RecoverRows(s.requests, now, s.requests.Keys);
    var row := s.projects[p];
    RecoverRewrites(s, now, s.requests.Keys);
    GiveBackKeepsBalance(p, row, s.requests, after, FreedRows(s.requests, now, s.requests.Keys), s.lease);
    ListedTotals(s.requests, after, ids, now, ReservedOn(p, row.dailyDate));
    ListedTotals(s.requests, after, ids, now, ReservedIn(p, row.monthlyMonth));
  }

  lemma {:induction false} ReturnedKnown(s: State, now: nat, ids: seq<RequestId>)
    requires RowsOk(s)
    requires forall i :: i in ids <==> i in s.requests && Freed(s.requests[i], now)
    ensures var after := RecoverRows(s.requests, now, s.requests.Keys);
      forall i :: i in ids ==> i in after && after[i].project in s.projects
  {}

  lemma {:induction false} NextRelease(projects: map<ProjectId, Project>, requests: map<RequestId, Request>, ids: seq<RequestId>, n: nat)
    requires Distinct(ids) && n < |ids|
    requires forall i :: i in ids ==> i in requests && requests[i].project in projects
    requires ids[n] in ids && var p := requests[ids[n]].project;
      && Total(Listed(requests, ids), ReservedOn(p, projects[p].dailyDate)) <= projects[p].dailyUsed
      && Total(Listed(requests, ids), ReservedIn(p, projects[p].monthlyMonth)) <= projects[p].monthlyUsed
    ensures var q := requests[ids[n]]; var row := ReleaseEach(projects, requests, ids[..n])[q.project];
      && (row.dailyDate == q.budgetDay ==> row.dailyUsed >= q.reserved)
      && (row.monthlyMonth == q.budgetMonth ==> row.monthlyUsed >= q.reserved)
  {
    var p := requests[ids[n]].project;
    StillCounted(projects[p], requests, ids, n);
    OrderDoesNotMatter(projects, requests, ids[..n], p);
  }

  // So no release of a pass ever meets the clamp, in whatever order the rows come.
  lemma {:induction false} ReleasesNeverClamped(s: State, now: nat, ids: seq<RequestId>, n: nat)
    requires RowsOk(s) && Ledger(s) && WithinLimits(s) && now <= s.clock && Distinct(ids) && n < |ids|
    requires forall i :: i in ids <==> i in s.requests && Freed(s.requests[i], now)
    ensures var after := RecoverRows(s.requests, now, s.requests.Keys);
      && (forall i :: i in ids ==> i in after && after[i].project in s.projects) && ids[n] in ids
      && var q := after[ids[n]]; var row := ReleaseEach(s.projects, after, ids[..n])[q.project];
      && (row.dailyDate == q.budgetDay ==> row.dailyUsed >= q.reserved)
      && (row.monthlyMonth == q.budgetMonth ==> row.monthlyUsed >= q.reserved)
  {
    var after := RecoverRows(s.requests, now, s.requests.Keys);
    assert ids[n] in ids;
    ReturnedKnown(s, now, ids);
    ReturnedCounted(s, now, ids, after[ids[n]].project);
    NextRelease(s.projects, after, ids, n);
  }

  class LeaseRecovery {
    const budget: Budgets

    constructor (budget: Budgets)
      ensures this.budget == budget
    {
      this.budget := budget;
    }

    method ReleaseRows(db: Tables, rows: seq<RequestId>)
      requires forall i :: i in rows ==> i in db.requests && db.requests[i].project in db.projects
      modifies db`projects
      ensures db.projects == ReleaseEach(old(db.projects), db.requests, rows)
    {
      for n := 0 to |rows|
        invariant db.projects == ReleaseEach(old(db.projects), db.requests, rows[..n])
      {
        assert rows[..n + 1][..n] == rows[..n] && rows[n] in rows;
        var row := db.requests[rows[n]];
        budget.Release(db, row.project, row.reserved, row.budgetDay, row.budgetMonth);
      }
      assert rows[..|rows|] == rows;
    }

    // The first update: leases lost with retries left.
    method RequeueLost(db: Tables, now: nat) returns (requeued: set<RequestId>)
      modifies db`requests
      ensures requeued == Retried(old(db.requests), db.requests)
      ensures db.requests == map i | i in old(db.requests) :: Requeue(old(db.requests)[i], now)
    {
      requeued := set i | i in db.requests && LeaseLost(db.requests[i], now) && db.requests[i].retryCount < db.requests[i].maxRetries;
      db.requests := map i | i in db.requests ::
        var r := db.requests[i];
        if i in requeued
        then r.(status := Queued, assignedTo := None, leaseExpires := None, retryCount := r.retryCount + 1)
        else r;
    }

    // The second: leases lost with none left.
    method FailExhausted(db: Tables, now: nat) returns (failed: set<RequestId>)
      modifies db`requests
      ensures failed == set i | i in old(db.requests) && Exhausted(old(db.requests)[i], now)
      ensures db.requests == map i | i in old(db.requests) :: GiveUp(old(db.requests)[i], now)
    {
      failed := set i | i in db.requests && LeaseLost(db.requests[i], now) && db.requests[i].retryCount >= db.requests[i].maxRetries;
      db.requests := map i | i in db.requests ::
        var r := db.requests[i];
        if i in failed
        then r.(status := FailedFinal, assignedTo := None, leaseExpires := None, errorCode := Some("retry_budget_exhausted"))
        else r;
    }

    // The third: queued past their time, including rows the first update has just requeued.
    method ExpireOverdue(db: Tables, now: nat) returns (expired: set<RequestId>)
      modifies db`requests
      ensures expired == set i | i in old(db.requests) && QueueExpired(old(db.requests)[i], now)
      ensures db.requests == map i | i in old(db.requests) :: ExpireQueued(old(db.requests)[i], now)
    {
      expired := set i | i in db.requests && db.requests[i].status == Queued && db.requests[i].expiresAt < now && db.requests[i].result.None?;
      db.requests := map i | i in db.requests ::
        var r := db.requests[i];
        if i in expired then r.(status := Expired, errorCode := Some("queue_ttl_expired")) else r;
    }

    // The three updates in order: every row is where one transition takes it, and the rows to
    // release are the ones that transition ended, each returned by one update only.
    method UpdateRows(db: Tables, now: nat) returns (requeued: set<RequestId>, failed: set<RequestId>, expired: set<RequestId>)
      modifies db`requests
      ensures db.requests == RecoverRows(old(db.requests), now, old(db.requests).Keys)
      ensures requeued == Retried(old(db.requests), db.requests)
      ensures failed !! expired
      ensures forall i :: i in failed || i in expired <==> i in old(db.requests) && Freed(old(db.requests)[i], now)
    {
      ghost var start := db.requests;
      requeued := RequeueLost(db, now);
      ghost var queued := db.requests;
      failed := FailExhausted(db, now);
      ghost var given := db.requests;
      expired := ExpireOverdue(db, now);
      UpdatesCompose(start, queued, given, db.requests, failed, expired, now);
      UpdatesReturn(start, queued, given, db.requests, failed, expired, now);
      UpdatesRetry(start, queued, given, db.requests, failed, expired, now);
    }

    // The updates, the number of rows given another try, and the returned rows in the order the
    // release loop takes them: first those failed, then those expired.
    method UpdateAndReturn(db: Tables, now: nat) returns (retried: nat, rows: seq<RequestId>)
      modifies db`requests
      ensures db.requests == RecoverRows(old(db.requests), now, old(db.requests).Keys)
      ensures retried == |Retried(old(db.requests), db.requests)|
      ensures Distinct(rows) && forall i :: i in rows <==> i in old(db.requests) && Freed(old(db.requests)[i], now)
    {
      var requeued, failed, expired := UpdateRows(db, now);
      retried := |requeued|;
      var terminalRows := Enumerate(failed);
      var expiredRows := Enumerate(expired);
      DistinctTogether(terminalRows, expiredRows);
      rows := terminalRows + expiredRows;
    }

    // A whole pass is the protocol's recovery step over every request; the count returned is the
    // number of rows given another try, whether or not the same pass then expired them.
    method RecoverExpiredLeases(db: Tables, now: nat) returns (retried: nat)
      requires db.Linked() && db.clock <= now
      modifies db
      ensures Next(old(db.At(now)), Recover(now, old(db.requests).Keys), db.Snapshot())
      ensures retried == |Retried(old(db.requests), db.requests)|
    {
      db.clock := now;
      ghost var s := db.Snapshot();
      var rows;
      retried, rows := UpdateAndReturn(db, now);
      RowsKnown(s.requests, db.requests, db.projects, rows, now);
      ReleaseRows(db, rows);
      PassIsRecover(s, now, rows, db.Snapshot());
    }
  }
}
