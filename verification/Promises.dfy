/** What clients, workers and operators can rely on over whole runs, in the rows' own numbers. */
module Promises {
  import opened Options
  import opened Calendar
  import opened Entities
  import opened Protocol
  import opened Invariants
  import opened Runs
  import opened Idempotency

  lemma {:induction false} SameLease(r: Run, n: nat)
    requires IsRun(r) && n < |r.states|
    ensures r.states[n].lease == r.states[0].lease
  {
    if n == 0 {
    } else {
      SameLease(r, n - 1);
      assert Next(r.states[n - 1], r.steps[n - 1], r.states[n]);
    }
  }

  // ---------------------------------------------------------------- submissions

  // The request one submission makes: what was ordered, at priority 5, to be claimed within five
  // minutes of its insertion, with three retries.
  ghost predicate AsOrdered(step: Step, project: ProjectId, q: Request) {
    && step.Submit?
    && q.project == project && q.apiKey == step.key && q.idempotencyKey == step.idem
    && q.modelAlias == step.order.modelAlias && q.resolvedModel == step.order.resolvedModel
    && q.payload == step.order.payload && q.required == step.order.required && q.reserved == step.order.tokens
    && q.priority == 5 && q.maxRetries == 3
    && q.createdAt == step.times.begun && q.expiresAt == step.times.insert + 300 * SECOND
    && q.budgetDay == Today(step.times.reserve) && q.budgetMonth == Today(step.times.reserve).(day := 1)
  }

  lemma {:induction false} SubmitOrders(s: State, step: Step)
    requires Enabled(s, step) && step.Submit?
    ensures step.key in s.keys && step.id !in s.requests
    ensures var t := Apply(s, step);
      && step.id in t.requests && AsOrdered(step, s.keys[step.key].project, t.requests[step.id])
      && var q := t.requests[step.id];
      && q.status == Queued && q.retryCount == 0 && q.result == None && q.assignedTo == None && q.leaseExpires == None
  {}

  lemma {:induction false} StaysAsOrdered(step: Step, project: ProjectId, a: Request, b: Request)
    requires AsOrdered(step, project, a) && RowEvolves(a, b)
    ensures AsOrdered(step, project, b)
  {}

  // Every request there ever is was submitted once, and is for ever what was ordered then.
  lemma {:induction false} RequestAsOrdered(r: Run, n: nat, i: RequestId) returns (m: nat)
    requires IsRun(r) && n < |r.states| && i in r.states[n].requests
    ensures m < n && r.steps[m].Submit? && r.steps[m].id == i && r.steps[m].key in r.states[m].keys
    ensures AsOrdered(r.steps[m], r.states[m].keys[r.steps[m].key].project, r.states[n].requests[i])
  {
    LastStep(r, n, i);
    if i in r.states[n - 1].requests {
      m := RequestAsOrdered(r, n - 1, i);
      StaysAsOrdered(r.steps[m], r.states[m].keys[r.steps[m].key].project, r.states[n - 1].requests[i], r.states[n].requests[i]);
    } else {
      m := n - 1;
      assert Next(r.states[m], r.steps[m], r.states[n]);
      SubmitOrders(r.states[m], r.steps[m]);
    }
  }

  // Whoever is admitted holds a key of an active project that is neither revoked nor, at the clock
  // reading, expired, and that has been used on that UTC day less often than its limit.
  lemma {:induction false} AdmittedKeyIsGood(s: State, step: Step)
    requires Enabled(s, step) && (step.Submit? || step.Replay?)
    ensures step.key in s.keys && s.keys[step.key].project in s.projects
    ensures var k := s.keys[step.key]; var now := if step.Submit? then step.times.auth else step.auth;
      && s.projects[k.project].active && k.revokedAt == None
      && (k.expiresAt.Some? ==> now < k.expiresAt.value)
      && (if k.dailyDate == Today(now) then k.dailyUsed else 0) < k.dailyLimit
  {}

  // ---------------------------------------------------------------- claims

  ghost predicate Serves(w: Worker, q: Request) {
    && (q.resolvedModel in w.supportedModels || q.modelAlias in w.supportedModels)
    && forall c :: c in q.required ==> c in w.capabilities && w.capabilities[c] == q.required[c]
  }

  // A claim takes a queued request whose time is not over and which the worker can serve; no other
  // such request has a smaller priority, or the same and an earlier creation, unless it was locked.
  lemma {:induction false} ClaimTakesOldest(s: State, step: Step, j: RequestId)
    requires Enabled(s, step) && step.Claim?
    ensures step.id in s.requests
    ensures var q := s.requests[step.id]; q.status == Queued && step.now < q.expiresAt && Serves(step.worker, q)
    ensures j in s.requests && j !in step.skipped && s.requests[j].status == Queued
            && step.now < s.requests[j].expiresAt && Serves(step.worker, s.requests[j]) ==>
      var q, other := s.requests[step.id], s.requests[j];
      q.priority < other.priority || (q.priority == other.priority && q.createdAt <= other.createdAt)
  {}

  ghost predicate HeldUntil(q: Request, w: WorkerId, until: nat) {
    q.status == Assigned && q.assignedTo == Some(w) && q.leaseExpires == Some(until) && q.result == None
  }

  lemma {:induction false} ClaimLeases(s: State, step: Step)
    requires Enabled(s, step) && step.Claim? && RowsOk(s)
    ensures step.id in Apply(s, step).requests
    ensures var q := Apply(s, step).requests[step.id];
      && HeldUntil(q, step.worker.id, step.now + s.lease)
      && step.id in s.requests && q.retryCount == s.requests[step.id].retryCount
  {
    assert RowOk(s.requests[step.id], s.lease);
  }

  // This step leaves a lease alone that ends at `until`: it is no result or error for the request,
  // and no recovery pass with a later clock reading.
  predicate Spares(step: Step, i: RequestId, until: nat) {
    && !(step.Commit? && step.id == i) && !(step.Fail? && step.id == i)
    && !(step.Recover? && i in step.touched && until < step.now)
  }

  lemma {:induction false} SparedStaysHeld(s: State, step: Step, i: RequestId, w: WorkerId, until: nat)
    requires Enabled(s, step) && i in s.requests && HeldUntil(s.requests[i], w, until) && Spares(step, i, until)
    ensures i in Apply(s, step).requests && Apply(s, step).requests[i] == s.requests[i]
  {
    StepRows(s, step, i);
  }

  // A lease is honoured: the request stays with the worker that claimed it until that worker reports
  // on it or a recovery pass reads a clock beyond the lease.
  lemma {:induction false} LeaseHonoured(r: Run, m: nat, n: nat, i: RequestId)
    requires IsRun(r) && m < n <= |r.steps| && r.steps[m].Claim? && r.steps[m].id == i
    requires forall k :: m < k < n ==> Spares(r.steps[k], i, r.steps[m].now + r.states[0].lease)
    ensures i in r.states[n].requests
    ensures HeldUntil(r.states[n].requests[i], r.steps[m].worker.id, r.steps[m].now + r.states[0].lease)
    decreases n
  {
    assert Next(r.states[n - 1], r.steps[n - 1], r.states[n]);
    if n == m + 1 {
      SameLease(r, m);
      ReachableRows(r, m);
      ClaimLeases(r.states[m], r.steps[m]);
    } else {
      LeaseHonoured(r, m, n - 1, i);
      SparedStaysHeld(r.states[n - 1], r.steps[n - 1], i, r.steps[m].worker.id, r.steps[m].now + r.states[0].lease);
    }
  }

  // ---------------------------------------------------------------- recovery passes

  // What a pass with clock reading `now` makes of a row: a lease that is over costs a retry, and the
  // request is queued again, or expires if its queue time is over too, or fails if no retry is left;
  // a queued request expires once its time is over; every other row is left alone.
  ghost predicate Passed(a: Request, now: nat, b: Request) {
    var lost := a.status == Assigned && a.leaseExpires.Some? && a.leaseExpires.value < now;
    if lost && a.retryCount >= a.maxRetries then
      b.status == FailedFinal && b.retryCount == a.retryCount && b.assignedTo == None && b.leaseExpires == None
      && b.errorCode == Some("retry_budget_exhausted")
    else if lost && a.expiresAt < now then
      b.status == Expired && b.retryCount == a.retryCount + 1 && b.assignedTo == None && b.leaseExpires == None
      && b.errorCode == Some("queue_ttl_expired")
    else if lost then
      b.status == Queued && b.retryCount == a.retryCount + 1 && b.assignedTo == None && b.leaseExpires == None
    else if a.status == Queued && a.expiresAt < now then
      b.status == Expired && b.retryCount == a.retryCount && b.errorCode == Some("queue_ttl_expired")
    else b == a
  }

  lemma {:induction false} PassOnRow(a: Request, lease: nat, now: nat)
    requires RowOk(a, lease)
    ensures Passed(a, now, Recovered(a, now))
  {}

  // A pass does exactly that to every row it touches, and nothing to the others.
  lemma {:induction false} PassInNumbers(r: Run, n: nat, i: RequestId)
    requires IsRun(r) && n < |r.steps| && r.steps[n].Recover? && i in r.states[n].requests
    ensures i in r.states[n + 1].requests
    ensures if i in r.steps[n].touched then Passed(r.states[n].requests[i], r.steps[n].now, r.states[n + 1].requests[i])
            else r.states[n + 1].requests[i] == r.states[n].requests[i]
  {
    assert Next(r.states[n], r.steps[n], r.states[n + 1]);
    ReachableRows(r, n);
    PassOnRow(r.states[n].requests[i], r.states[n].lease, r.steps[n].now);
  }

  // A pass over a leased request whose clock reading is beyond the lease takes it from the worker.
  lemma {:induction false} LeaseEnds(r: Run, m: nat, n: nat, i: RequestId)
    requires IsRun(r) && m < n < |r.steps| && r.steps[m].Claim? && r.steps[m].id == i
    requires forall k :: m < k < n ==> Spares(r.steps[k], i, r.steps[m].now + r.states[0].lease)
    requires r.steps[n].Recover? && i in r.steps[n].touched && r.steps[m].now + r.states[0].lease < r.steps[n].now
    ensures i in r.states[n].requests && i in r.states[n + 1].requests
    ensures var a, b := r.states[n].requests[i], r.states[n + 1].requests[i];
      && b.assignedTo == None && b.leaseExpires == None
      && b.status == (if a.retryCount >= 3 then FailedFinal else if a.expiresAt < r.steps[n].now then Expired else Queued)
      && b.retryCount == (if a.retryCount >= 3 then a.retryCount else a.retryCount + 1)
  {
    LeaseHonoured(r, m, n, i);
    PassInNumbers(r, n, i);
    ReachableRows(r, n);
  }

  // This step leaves a queued request alone: it is no claim of it, and no recovery pass with a clock
  // reading beyond its queue time.
  predicate Waits(step: Step, i: RequestId, expiresAt: nat) {
    !(step.Claim? && step.id == i) && !(step.Recover? && i in step.touched && expiresAt < step.now)
  }

  lemma {:induction false} WaitingStays(s: State, step: Step, i: RequestId)
    requires Enabled(s, step) && i in s.requests && s.requests[i].status == Queued && Waits(step, i, s.requests[i].expiresAt)
    ensures i in Apply(s, step).requests && Apply(s, step).requests[i] == s.requests[i]
  {
    StepRows(s, step, i);
  }

  // A queued request waits unchanged until it is claimed or a pass reads a clock beyond its time.
  lemma {:induction false} QueueTimeHonoured(r: Run, m: nat, n: nat, i: RequestId)
    requires IsRun(r) && m <= n < |r.states| && i in r.states[m].requests && r.states[m].requests[i].status == Queued
    requires forall k :: m <= k < n ==> Waits(r.steps[k], i, r.states[m].requests[i].expiresAt)
    ensures i in r.states[n].requests && r.states[n].requests[i] == r.states[m].requests[i]
    decreases n
  {
    if m == n {
    } else {
      QueueTimeHonoured(r, m, n - 1, i);
      assert Next(r.states[n - 1], r.steps[n - 1], r.states[n]);
      WaitingStays(r.states[n - 1], r.steps[n - 1], i);
    }
  }

  // ---------------------------------------------------------------- results

  // The row of a completed request, and its usage record, as the worker reported.
  ghost predicate AsReported(step: Step, q: Request) {
    && step.Commit? && q.status == Completed
    && q.result == Some(step.result) && q.inputTokens == step.input && q.outputTokens == step.output
    && q.completedAt == Some(step.now) && q.assignedTo == Some(step.worker.id)
  }

  ghost predicate RecordedAs(step: Step, u: UsageRecord) {
    && step.Commit? && u.request == step.id
    && u.worker == step.worker.id && u.provider == step.worker.provider && u.latency == step.latency
    && u.inputTokens == step.input && u.outputTokens == step.output
  }

  lemma {:induction false} CommitStores(s: State, step: Step)
    requires Enabled(s, step) && step.Commit?
    ensures step.id in s.requests && s.requests[step.id].result == None
    ensures s.requests[step.id].assignedTo == Some(step.worker.id)
    ensures step.id in Apply(s, step).requests && AsReported(step, Apply(s, step).requests[step.id])
    ensures step.usageId !in s.usage && step.usageId in Apply(s, step).usage
    ensures RecordedAs(step, Apply(s, step).usage[step.usageId])
  {
    CommitIsCredit(s, step.worker, step.id, step.result, step.input, step.output, step.latency, step.now, step.usageId);
  }

  lemma {:induction false} ResultAppears(s: State, step: Step, i: RequestId)
    requires Enabled(s, step) && i in Apply(s, step).requests && Apply(s, step).requests[i].result.Some?
    requires i in s.requests ==> s.requests[i].result.None?
    ensures step.Commit? && step.id == i
  {
    if i in s.requests {
      StepRows(s, step, i);
    } else {
      OnlySubmitsAdd(s, step, i);
      SubmitOrders(s, step);
    }
  }

  // A result is what the worker reported, and so are the tokens.
  lemma {:induction false} ResultAsReported(r: Run, n: nat, i: RequestId) returns (m: nat)
    requires IsRun(r) && n < |r.states| && i in r.states[n].requests && r.states[n].requests[i].result.Some?
    ensures m < n && r.steps[m].Commit? && r.steps[m].id == i && AsReported(r.steps[m], r.states[n].requests[i])
  {
    LastStep(r, n, i);
    assert Next(r.states[n - 1], r.steps[n - 1], r.states[n]);
    if i in r.states[n - 1].requests && r.states[n - 1].requests[i].result.Some? {
      m := ResultAsReported(r, n - 1, i);
    } else {
      ResultAppears(r.states[n - 1], r.steps[n - 1], i);
      m := n - 1;
      CommitStores(r.states[m], r.steps[m]);
    }
  }

  // A usage record is what the worker reported.
  lemma {:induction false} RecordAsReported(r: Run, n: nat, u: UsageId) returns (m: nat)
    requires IsRun(r) && n < |r.states| && u in r.states[n].usage
    ensures m < n && r.steps[m].Commit? && r.steps[m].usageId == u && RecordedAs(r.steps[m], r.states[n].usage[u])
  {
    assert n > 0;
    assert Next(r.states[n - 1], r.steps[n - 1], r.states[n]);
    if u in r.states[n - 1].usage {
      m := RecordAsReported(r, n - 1, u);
      RunStepEvolves(r, n);
    } else {
      m := n - 1;
      CommitStores(r.states[m], r.steps[m]);
    }
  }

  // What a client is told about a request is its result, exactly as a worker reported it, once the
  // request is completed, and its status before and otherwise.
  lemma {:induction false} ReplyAsReported(r: Run, n: nat, i: RequestId)
    requires IsRun(r) && n < |r.states| && i in r.states[n].requests
    ensures var q := r.states[n].requests[i];
      if q.status == Completed then
        exists m :: 0 <= m < n && r.steps[m].Commit? && r.steps[m].id == i && ReplyFor(q) == WithResult(r.steps[m].result)
      else
        ReplyFor(q) == InProgress(q.status)
  {
    CommittedOnce(r, n, i);
    if r.states[n].requests[i].status == Completed {
      var m := ResultAsReported(r, n, i);
    }
  }

  // ---------------------------------------------------------------- errors

  lemma {:induction false} FailCounts(s: State, step: Step)
    requires Enabled(s, step) && step.Fail? && RowsOk(s)
    ensures step.id in s.requests && s.requests[step.id].assignedTo == Some(step.worker.id)
    ensures step.id in Apply(s, step).requests
    ensures var a, b := s.requests[step.id], Apply(s, step).requests[step.id];
      && b.assignedTo == None && b.leaseExpires == None && b.result == None && b.errorCode == Some(step.code)
      && (if step.retryable && a.retryCount < 3
          then b.status == Queued && b.retryCount == a.retryCount + 1
          else b.status == FailedFinal && b.retryCount == a.retryCount)
  {
    assert RowOk(s.requests[step.id], s.lease);
  }

  // An error the worker calls retryable sends the request back to the queue while a retry is left;
  // any other error ends it for good.
  lemma {:induction false} ErrorsCount(r: Run, m: nat, n: nat)
    requires IsRun(r) && m < n < |r.states| && r.steps[m].Fail?
    ensures var i := r.steps[m].id;
      && i in r.states[m].requests && i in r.states[m + 1].requests && i in r.states[n].requests
      && (if r.steps[m].retryable && r.states[m].requests[i].retryCount < 3
          then r.states[m + 1].requests[i].status == Queued
          else r.states[n].requests[i].status == FailedFinal && r.states[n].requests[i].errorCode == Some(r.steps[m].code))
  {
    assert Next(r.states[m], r.steps[m], r.states[m + 1]);
    ReachableRows(r, m);
    FailCounts(r.states[m], r.steps[m]);
    RunEvolves(r, m + 1, n);
  }

  // ---------------------------------------------------------------- revocation

  // A revocation is stamped with the clock reading of the first request for it.
  lemma {:induction false} RevocationStamped(s: State, step: Step)
    requires Enabled(s, step) && step.RevokeKey?
    ensures step.key in s.keys && step.key in Apply(s, step).keys
    ensures Apply(s, step).keys[step.key].revokedAt ==
            if s.keys[step.key].revokedAt == None then Some(step.now) else s.keys[step.key].revokedAt
  {}
}
