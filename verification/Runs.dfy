/** What holds over whole runs of the queue: which rows can change and how often, which worker a
  result comes from, what a replayed submission sees, and how every request ends. */
module Runs {
  import opened Options
  import opened Entities
  import opened Protocol
  import opened Invariants
  import opened Sums

  datatype Run = Run(states: seq<State>, steps: seq<Step>)

  ghost predicate IsRun(r: Run) {
    && |r.states| == |r.steps| + 1
    && Init(r.states[0])
    && forall n :: 0 <= n < |r.steps| ==> Next(r.states[n], r.steps[n], r.states[n + 1])
  }

  // Every reachable state satisfies every invariant: the exact ledger, the limits up to overruns,
  // the usage table, the key totals and idempotency.
  lemma {:induction false} ReachableInv(r: Run, n: nat)
    requires IsRun(r) && n < |r.states|
    ensures Inv(r.states[n])
  {
    if n == 0 {
      InitialInv(r.states[0]);
    } else {
      ReachableInv(r, n - 1);
      RunStepKeepsInv(r, n);
    }
  }

  lemma {:induction false} RunStepKeepsInv(r: Run, n: nat)
    requires IsRun(r) && 0 < n <= |r.steps| && Inv(r.states[n - 1])
    ensures Inv(r.states[n])
  {
    assert Next(r.states[n - 1], r.steps[n - 1], r.states[n]);
    StepKeepsInv(r.states[n - 1], r.steps[n - 1]);
  }

  lemma {:induction false} ReachableRows(r: Run, n: nat)
    requires IsRun(r) && n < |r.states|
    ensures RowsOk(r.states[n])
  {
    ReachableInv(r, n);
  }

  // ---------------------------------------------------------------- how a row evolves

  function Rank(r: Request): nat {
    if Terminal(r) then 0 else if Live(r) then 1 else 2
  }

  function Measure(r: Request): int {
    2 * (r.maxRetries - r.retryCount) + Rank(r)
  }

  // A row keeps its terms, is final once terminal, and every change uses up some of its measure.
  ghost predicate RowEvolves(a: Request, b: Request) {
    && SameTerms(a, b)
    && (Terminal(a) ==> b == a)
    && (b == a || Measure(b) < Measure(a))
  }

  ghost predicate Evolves(s: State, t: State) {
    && (forall i :: i in s.requests ==> i in t.requests && RowEvolves(s.requests[i], t.requests[i]))
    && (forall u :: u in s.usage ==> u in t.usage && t.usage[u] == s.usage[u])
    && (forall k :: k in s.keys ==> k in t.keys && (s.keys[k].revokedAt.Some? ==> t.keys[k].revokedAt == s.keys[k].revokedAt))
  }

  // No step touches an existing row except by one of the four row transitions.
  ghost predicate RowStep(s: State, step: Step, i: RequestId, after: Request)
    requires i in s.requests
  {
    var r := s.requests[i];
    || after == r
    || (step.Claim? && step.id == i && Claimable(r, step.worker, step.now) && after == Claimed(r, step.worker.id, step.now, s.lease))
    || (step.Commit? && step.id == i && HeldBy(r, step.worker.id) && after == Finished(r, step.result, step.input, step.output, step.now))
    || (step.Fail? && step.id == i && HeldBy(r, step.worker.id) && after == Errored(r, step.retryable, step.code))
    || (step.Recover? && i in step.touched && after == Recovered(r, step.now))
  }

  lemma {:induction false} StepRows(s: State, step: Step, i: RequestId)
    requires Enabled(s, step) && i in s.requests
    ensures i in Apply(s, step).requests && RowStep(s, step, i, Apply(s, step).requests[i])
  {
    match step
    case Tick(_) =>
    case Submit(_, _, _, _, _) =>
    case Replay(_, _) =>
    case Claim(_, _, _, _) =>
    case Commit(w, id, result, input, output, latency, now, u) =>
      CommitIsCredit(s, w, id, result, input, output, latency, now, u);
    case Fail(_, _, _, _) =>
    case Recover(_, _) =>
    case RevokeKey(_, _) =>
  }

  lemma {:induction false} RowStepEvolves(s: State, step: Step, i: RequestId, after: Request)
    requires i in s.requests && RowOk(s.requests[i], s.lease) && RowStep(s, step, i, after)
    ensures RowEvolves(s.requests[i], after) && (after != s.requests[i] ==> after.status != s.requests[i].status)
  {}

  lemma {:induction false} StepEvolves(s: State, step: Step)
    requires RowsOk(s) && Enabled(s, step)
    ensures Evolves(s, Apply(s, step))
  {
    var t := Apply(s, step);
    forall i | i in s.requests ensures i in t.requests && RowEvolves(s.requests[i], t.requests[i]) {
      StepRows(s, step, i);
      RowStepEvolves(s, step, i, t.requests[i]);
    }
    StepKeepsTables(s, step);
  }

  lemma {:induction false} StepKeepsTables(s: State, step: Step)
    requires Enabled(s, step)
    ensures var t := Apply(s, step);
      && (forall u :: u in s.usage ==> u in t.usage && t.usage[u] == s.usage[u])
      && (forall k :: k in s.keys ==> k in t.keys && (s.keys[k].revokedAt.Some? ==> t.keys[k].revokedAt == s.keys[k].revokedAt))
  {}

  lemma {:induction false} RowEvolvesOn(a: Request, b: Request, c: Request)
    requires RowEvolves(a, b) && RowEvolves(b, c)
    ensures RowEvolves(a, c)
  {}

  lemma {:induction false} RunStepEvolves(r: Run, n: nat)
    requires IsRun(r) && 0 < n <= |r.steps|
    ensures Evolves(r.states[n - 1], r.states[n])
  {
    ReachableRows(r, n - 1);
    assert Next(r.states[n - 1], r.steps[n - 1], r.states[n]);
    StepEvolves(r.states[n - 1], r.steps[n - 1]);
  }

  lemma {:induction false} RunEvolves(r: Run, m: nat, n: nat)
    requires IsRun(r) && m <= n < |r.states|
    ensures Evolves(r.states[m], r.states[n])
    decreases n
  {
    if m == n {
    } else {
      RunEvolves(r, m, n - 1);
      RunStepEvolves(r, n);
      EvolvesOn(r.states[m], r.states[n - 1], r.states[n]);
    }
  }

  lemma {:induction false} EvolvesOn(s: State, t: State, u: State)
    requires Evolves(s, t) && Evolves(t, u)
    ensures Evolves(s, u)
  {
    forall i | i in s.requests ensures i in u.requests && RowEvolves(s.requests[i], u.requests[i]) {
      RowEvolvesOn(s.requests[i], t.requests[i], u.requests[i]);
    }
  }

  // ---------------------------------------------------------------- counting steps

  type Event = (State, Step, State) -> bool

  ghost function Count(r: Run, n: nat, e: Event): nat
    requires IsRun(r) && n <= |r.steps|
  {
    if n == 0 then 0
    else Count(r, n - 1, e) + if e(r.states[n - 1], r.steps[n - 1], r.states[n]) then 1 else 0
  }

  ghost function ClaimOf(i: RequestId): Event {
    (s: State, step: Step, t: State) => step.Claim? && step.id == i
  }

  ghost function CommitOf(i: RequestId): Event {
    (s: State, step: Step, t: State) => step.Commit? && step.id == i
  }

  ghost function ReservationFor(key: KeyId, idem: Option<string>): Event {
    (s: State, step: Step, t: State) => step.Submit? && step.key == key && step.idem == idem
  }

  ghost function AnySubmit(): Event {
    (s: State, step: Step, t: State) => step.Submit?
  }

  ghost function StatusChangeOf(i: RequestId): Event {
    (s: State, step: Step, t: State) =>
      i in s.requests && i in t.requests && s.requests[i].status != t.requests[i].status
  }

  // Any change to the queue other than a new request.
  ghost function Effective(): Event {
    (s: State, step: Step, t: State) => !step.Submit? && t.requests != s.requests
  }

  // What the last step of a prefix may have done to row `i`.
  ghost predicate RowHistory(s: State, step: Step, t: State, i: RequestId) {
    && (i in s.requests ==>
          && i in t.requests && RowOk(s.requests[i], s.lease)
          && RowStep(s, step, i, t.requests[i]) && RowEvolves(s.requests[i], t.requests[i])
          && (t.requests[i] != s.requests[i] ==> t.requests[i].status != s.requests[i].status))
    && (i !in s.requests && i in t.requests ==> step.Submit? && step.id == i && Fresh(t.requests[i]))
    && (i in t.requests ==> RowOk(t.requests[i], t.lease))
  }

  lemma {:induction false} StepHistory(s: State, step: Step, i: RequestId)
    requires RowsOk(s) && Enabled(s, step) && RowsOk(Apply(s, step))
    ensures RowHistory(s, step, Apply(s, step), i)
  {
    if i in s.requests {
      StepRows(s, step, i);
      RowStepEvolves(s, step, i, Apply(s, step).requests[i]);
    } else if i in Apply(s, step).requests {
      OnlySubmitsAdd(s, step, i);
    }
  }

  lemma {:induction false} LastStep(r: Run, n: nat, i: RequestId)
    requires IsRun(r) && 0 < n <= |r.steps|
    ensures Enabled(r.states[n - 1], r.steps[n - 1]) && RowHistory(r.states[n - 1], r.steps[n - 1], r.states[n], i)
  {
    assert Next(r.states[n - 1], r.steps[n - 1], r.states[n]);
    ReachableRows(r, n - 1);
    ReachableRows(r, n);
    StepHistory(r.states[n - 1], r.steps[n - 1], i);
  }

  ghost predicate Fresh(r: Request) {
    r.status == Queued && r.retryCount == 0 && r.maxRetries == MAX_RETRIES
  }

  lemma {:induction false} OnlySubmitsAdd(s: State, step: Step, i: RequestId)
    requires Enabled(s, step) && i !in s.requests && i in Apply(s, step).requests
    ensures step.Submit? && step.id == i && Fresh(Apply(s, step).requests[i])
    ensures Apply(s, step).requests[i].apiKey == step.key && Apply(s, step).requests[i].idempotencyKey == step.idem
  {}

  // How the number of claims shows in the row.
  ghost predicate ClaimTally(requests: map<RequestId, Request>, i: RequestId, claims: nat) {
    if i in requests then
      claims == requests[i].retryCount + (if requests[i].status == Queued || requests[i].status == Expired then 0 else 1)
    else claims == 0
  }

  lemma {:induction false} ClaimClaims(s: State, step: Step)
    requires Enabled(s, step) && step.Claim?
    ensures step.id in s.requests && s.requests[step.id].status == Queued
    ensures step.id in Apply(s, step).requests && Apply(s, step).requests[step.id].status == Assigned
  {}

  lemma {:induction false} StepTallies(s: State, step: Step, t: State, i: RequestId, claims: nat)
    requires RowHistory(s, step, t, i) && ClaimTally(s.requests, i, claims)
    requires step.Claim? && step.id == i ==>
      i in s.requests && s.requests[i].status == Queued && i in t.requests && t.requests[i].status == Assigned
    ensures ClaimTally(t.requests, i, claims + if step.Claim? && step.id == i then 1 else 0)
  {}

  // A request has been claimed once for every retry it used, once more if it left the queue by a
  // claim; so never more than MAX_RETRIES + 1 times.
  lemma {:induction false} ClaimsCounted(r: Run, n: nat, i: RequestId)
    requires IsRun(r) && n <= |r.steps|
    ensures ClaimTally(r.states[n].requests, i, Count(r, n, ClaimOf(i)))
    ensures Count(r, n, ClaimOf(i)) <= MAX_RETRIES + 1
  {
    if n == 0 {
    } else {
      ClaimsCounted(r, n - 1, i);
      LastStep(r, n, i);
      if r.steps[n - 1].Claim? && r.steps[n - 1].id == i {
        ClaimClaims(r.states[n - 1], r.steps[n - 1]);
      }
      StepTallies(r.states[n - 1], r.steps[n - 1], r.states[n], i, Count(r, n - 1, ClaimOf(i)));
    }
  }

  // A request changes status at most 2 * MAX_RETRIES + 2 times, whatever happens to it.
  lemma {:induction false} StatusChangesBounded(r: Run, n: nat, i: RequestId)
    requires IsRun(r) && n <= |r.steps|
    ensures i !in r.states[n].requests ==> Count(r, n, StatusChangeOf(i)) == 0
    ensures i in r.states[n].requests ==>
      Count(r, n, StatusChangeOf(i)) + Measure(r.states[n].requests[i]) <= 2 * MAX_RETRIES + 2
    ensures Count(r, n, StatusChangeOf(i)) <= 2 * MAX_RETRIES + 2
  {
    if n == 0 {
    } else {
      StatusChangesBounded(r, n - 1, i);
      LastStep(r, n, i);
    }
  }

  // Exactly one result is ever accepted for a request that is completed, none for any other.
  lemma {:induction false} CommitsCounted(r: Run, n: nat, i: RequestId)
    requires IsRun(r) && n <= |r.steps|
    ensures Count(r, n, CommitOf(i)) == if i in r.states[n].requests && r.states[n].requests[i].status == Completed then 1 else 0
  {
    if n == 0 {
    } else {
      CommitsCounted(r, n - 1, i);
      LastStep(r, n, i);
      if r.steps[n - 1].Commit? && r.steps[n - 1].id == i {
        CommitCompletes(r.states[n - 1], r.steps[n - 1]);
      }
    }
  }

  lemma {:induction false} CommitCompletes(s: State, step: Step)
    requires Enabled(s, step) && step.Commit?
    ensures step.id in s.requests && s.requests[step.id].status != Completed
    ensures step.id in Apply(s, step).requests && Apply(s, step).requests[step.id].status == Completed
  {
    var Commit(w, id, result, input, output, latency, now, u) := step;
    CommitIsCredit(s, w, id, result, input, output, latency, now, u);
  }

  // ---------------------------------------------------------------- termination of whole runs

  ghost function MeasureOf(): Request -> int {
    (r: Request) => Measure(r)
  }

  lemma {:induction false} EffectiveStepDescends(s: State, step: Step)
    requires RowsOk(s) && Enabled(s, step) && !step.Submit?
    ensures var t := Apply(s, step);
      && Total(t.requests, MeasureOf()) <= Total(s.requests, MeasureOf())
      && (t.requests != s.requests ==> Total(t.requests, MeasureOf()) < Total(s.requests, MeasureOf()))
  {
    var t := Apply(s, step);
    assert t.requests.Keys == s.requests.Keys;
    forall i | i in s.requests ensures RowEvolves(s.requests[i], t.requests[i]) {
      assert RowOk(s.requests[i], s.lease);
      StepRows(s, step, i);
      RowStepEvolves(s, step, i, t.requests[i]);
    }
    TotalDescends(s.requests, t.requests);
  }

  lemma {:induction false} TotalDescends(before: map<RequestId, Request>, after: map<RequestId, Request>)
    requires before.Keys == after.Keys && forall i :: i in before ==> RowEvolves(before[i], after[i])
    ensures Total(after, MeasureOf()) <= Total(before, MeasureOf())
    ensures after != before ==> Total(after, MeasureOf()) < Total(before, MeasureOf())
  {
    TotalAtMost(after, MeasureOf(), before, MeasureOf());
    if after != before {
      var i :| i in before && after[i] != before[i];
      TotalWithout(after, MeasureOf(), i);
      TotalWithout(before, MeasureOf(), i);
      TotalAtMost(after - {i}, MeasureOf(), before - {i}, MeasureOf());
    }
  }

  // Every submission pays for at most 2 * MAX_RETRIES + 2 effective steps, so a run with finitely
  // many submissions has finitely many of them.
  lemma {:induction false} EffectiveStepsBounded(r: Run, n: nat)
    requires IsRun(r) && n <= |r.steps|
    ensures Count(r, n, Effective()) + Total(r.states[n].requests, MeasureOf()) <= (2 * MAX_RETRIES + 2) * Count(r, n, AnySubmit())
    ensures Count(r, n, Effective()) <= (2 * MAX_RETRIES + 2) * Count(r, n, AnySubmit())
  {
    EffectiveStepsPaid(r, n);
    MeasuresNotNegative(r, n);
  }

  lemma {:induction false} EffectiveStepsPaid(r: Run, n: nat)
    requires IsRun(r) && n <= |r.steps|
    ensures Count(r, n, Effective()) + Total(r.states[n].requests, MeasureOf()) <= (2 * MAX_RETRIES + 2) * Count(r, n, AnySubmit())
  {
    if n == 0 {
    } else {
      EffectiveStepsPaid(r, n - 1);
      LastStepPays(r, n);
    }
  }

  lemma {:induction false} LastStepPays(r: Run, n: nat)
    requires IsRun(r) && 0 < n <= |r.steps|
    ensures var s, step, t := r.states[n - 1], r.steps[n - 1], r.states[n];
      Total(t.requests, MeasureOf()) + (if Effective()(s, step, t) then 1 else 0)
      <= Total(s.requests, MeasureOf()) + (if AnySubmit()(s, step, t) then 2 * MAX_RETRIES + 2 else 0)
  {
    ReachableRows(r, n - 1);
    assert Next(r.states[n - 1], r.steps[n - 1], r.states[n]);
    StepPaysForItself(r.states[n - 1], r.steps[n - 1]);
  }

  // A submission adds one fresh row's measure; every other step pays for the change it makes.
  lemma {:induction false} StepPaysForItself(s: State, step: Step)
    requires RowsOk(s) && Enabled(s, step)
    ensures var t := Apply(s, step);
      Total(t.requests, MeasureOf()) + (if !step.Submit? && t.requests != s.requests then 1 else 0)
      <= Total(s.requests, MeasureOf()) + (if step.Submit? then 2 * MAX_RETRIES + 2 else 0)
  {
    if step.Submit? {
      TotalPut(s.requests, MeasureOf(), step.id, Apply(s, step).requests[step.id]);
    } else {
      EffectiveStepDescends(s, step);
    }
  }

  lemma {:induction false} MeasuresNotNegative(r: Run, n: nat)
    requires IsRun(r) && n < |r.states|
    ensures 0 <= Total(r.states[n].requests, MeasureOf())
  {
    var s := r.states[n];
    ReachableRows(r, n);
    forall i | i in s.requests ensures 0 <= MeasureOf()(s.requests[i]) {
      assert RowOk(s.requests[i], s.lease);
    }
    TotalNotNegative(s.requests, MeasureOf());
  }

  // ---------------------------------------------------------------- results and their worker

  // A request has a result exactly when it is completed, exactly when one usage record names it,
  // and that record repeats the row: its tokens and the worker it was assigned to.
  lemma {:induction false} CommittedOnce(r: Run, n: nat, i: RequestId)
    requires IsRun(r) && n < |r.states| && i in r.states[n].requests
    ensures var s := r.states[n]; var q := s.requests[i];
      && (q.status == Completed <==> q.result.Some?)
      && (q.status == Completed <==> exists u :: u in s.usage && s.usage[u].request == i)
      && (forall u, v :: u in s.usage && v in s.usage && s.usage[u].request == i == s.usage[v].request ==> u == v)
      && (forall u :: u in s.usage && s.usage[u].request == i ==> Records(s.usage[u], q))
  {
    ReachableInv(r, n);
  }

  // Once completed, a request keeps its result, its tokens and its usage record for ever.
  lemma {:induction false} ResultIsFinal(r: Run, m: nat, n: nat, i: RequestId, u: UsageId)
    requires IsRun(r) && m <= n < |r.states| && i in r.states[m].requests && r.states[m].requests[i].result.Some?
    requires u in r.states[m].usage && r.states[m].usage[u].request == i
    ensures i in r.states[n].requests && r.states[n].requests[i] == r.states[m].requests[i]
    ensures u in r.states[n].usage && r.states[n].usage[u] == r.states[m].usage[u]
    ensures forall v :: v in r.states[n].usage && r.states[n].usage[v].request == i ==> v == u
  {
    CommittedOnce(r, m, i);
    RunEvolves(r, m, n);
    CommittedOnce(r, n, i);
  }

  ghost predicate ClaimedAt(r: Run, m: nat, i: RequestId, w: Option<WorkerId>)
    requires IsRun(r)
  {
    m < |r.steps| && r.steps[m].Claim? && r.steps[m].id == i && w == Some(r.steps[m].worker.id)
  }

  ghost predicate Untouched(r: Run, m: nat, n: nat, i: RequestId)
    requires IsRun(r)
  {
    n < |r.states| && i in r.states[n].requests
    && forall k :: m < k <= n ==> i in r.states[k].requests && r.states[k].requests[i] == r.states[n].requests[i]
  }

  // A row becomes live only by a claim.
  lemma {:induction false} LiveByClaim(s: State, step: Step, t: State, i: RequestId)
    requires RowHistory(s, step, t, i) && i in t.requests && Live(t.requests[i])
    ensures i in s.requests
    ensures t.requests[i] == s.requests[i] || (step.Claim? && step.id == i && t.requests[i].assignedTo == Some(step.worker.id))
  {}

  // A row held by a worker was claimed by that worker and has not been touched since.
  lemma {:induction false} HeldSinceClaim(r: Run, n: nat, i: RequestId) returns (m: nat)
    requires IsRun(r) && n < |r.states| && i in r.states[n].requests && Live(r.states[n].requests[i])
    ensures m < n && ClaimedAt(r, m, i, r.states[n].requests[i].assignedTo) && Untouched(r, m, n, i)
  {
    LastStep(r, n, i);
    LiveByClaim(r.states[n - 1], r.steps[n - 1], r.states[n], i);
    if r.states[n - 1].requests[i] == r.states[n].requests[i] {
      m := HeldSinceClaim(r, n - 1, i);
    } else {
      m := n - 1;
    }
  }

  // An accepted result comes from the worker whose claim is the last thing that happened to the row.
  lemma {:induction false} ResultFromHolder(r: Run, n: nat) returns (m: nat)
    requires IsRun(r) && n < |r.steps| && r.steps[n].Commit?
    ensures m < n && ClaimedAt(r, m, r.steps[n].id, Some(r.steps[n].worker.id)) && Untouched(r, m, n, r.steps[n].id)
  {
    assert Next(r.states[n], r.steps[n], r.states[n + 1]);
    m := HeldSinceClaim(r, n, r.steps[n].id);
  }
}
