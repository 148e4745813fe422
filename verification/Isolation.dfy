/** Why interleaved transactions behave like whole steps: what a transaction has read and written
  stays true of the committed rows for as long as it holds their locks. */
module Isolation {
  import opened Options
  import opened Calendar
  import opened Entities
  import opened BudgetRules
  import opened Protocol
  import opened Invariants
  import opened Sums
  import opened Interleaving

  // ---------------------------------------------------------------- an open transaction

  ghost predicate DraftOk(s: State, d: Draft, w: Writes) {
    && d.begun <= d.auth <= s.clock
    && Admits(s, d.key, d.auth) && KeyReadUnderLock(s.keys[d.key], d.auth)
    && w.keys == map[d.key := CountRequest(s.keys[d.key], Today(d.auth))]
  }

  ghost predicate ReservedOk(s: State, d: Draft, reserve: nat, w: Writes) {
    && DraftOk(s, d, w)
    && d.auth <= reserve <= s.clock
    && NoDuplicate(s.requests, d.key, d.idem)
    && ClockReadUnderLock(s, HomeOf(s, d), reserve)
    && EnforceBudget(SnapshotOf(RollOver(s.projects[HomeOf(s, d)], Today(reserve))), d.order.tokens).None?
    && w.projects == map[HomeOf(s, d) := Charge(RollOver(s.projects[HomeOf(s, d)], Today(reserve)), d.order.tokens)]
  }

  ghost predicate ReportOk(s: State, r: Report, w: Writes) {
    && r.now <= s.clock && r.id in s.requests && HeldBy(s.requests[r.id], r.worker.id)
    && s.requests[r.id].project in s.projects && s.requests[r.id].apiKey in s.keys
    && w.requests == map[r.id := Finished(s.requests[r.id], r.result, r.input, r.output, r.now)]
  }

  ghost predicate Settled(s: State, i: RequestId, delta: int, w: Writes)
    requires i in s.requests && s.requests[i].project in s.projects
  {
    var q := s.requests[i];
    w.projects == map[q.project := Adjust(s.projects[q.project], delta, q.budgetDay, q.budgetMonth)]
  }

  ghost predicate FaultOk(s: State, f: Fault, w: Writes) {
    && f.id in s.requests && HeldBy(s.requests[f.id], f.worker.id) && s.requests[f.id].project in s.projects
    && w.requests == map[f.id := Errored(s.requests[f.id], f.retryable, f.code)]
  }

  // A row touched by a recovery pass is where the whole pass takes it, or has just been requeued
  // and is still to be expired by the third update.
  ghost predicate TouchedOk(r: Request, written: Request, now: nat, update: nat) {
    || written == Recovered(r, now)
    || (update <= 3 && written == Requeue(r, now) && QueueExpired(written, now))
  }

  ghost function DoneRows(s: State, done: set<RequestId>): map<RequestId, Request> {
    map i | i in s.requests && i in done :: s.requests[i]
  }

  ghost predicate TouchedRows(s: State, held: set<Row>, written: map<RequestId, Request>, now: nat, update: nat) {
    forall i :: i in written ==>
      && RequestRow(i) in held && i in s.requests && s.requests[i].project in s.projects && !Terminal(s.requests[i])
      && TouchedOk(s.requests[i], written[i], now, update)
  }

  // The rows the pass has ended are those it has released and those it is still to release.
  ghost predicate ReturnedRows(written: map<RequestId, Request>, pending: set<RequestId>, done: set<RequestId>) {
    && pending !! done
    && (forall i :: i in pending || i in done <==> i in written && Terminal(written[i]))
  }

  // What the third update is still to expire is still due.
  ghost predicate StillDue(written: map<RequestId, Request>, update: nat, due: set<RequestId>, now: nat) {
    update == 3 ==> forall i :: i in written && QueueExpired(written[i], now) ==> i in due
  }

  // Every project row a pass has written is the committed one less what it has released so far.
  ghost predicate ReleasedExactly(s: State, held: set<Row>, written: map<ProjectId, Project>, done: map<RequestId, Request>) {
    && (forall p :: p in written ==> ProjectRow(p) in held && p in s.projects && written[p] == GiveBack(p, s.projects[p], done))
    && (forall i :: i in done ==> done[i].project in written)
  }

  ghost predicate RecoveringOk(s: State, t: Txn) {
    && t.stage.Recovering? && t.stage.now <= s.clock && 1 <= t.stage.update <= 4
    && t.writes.keys == map[] && t.writes.usage == map[]
    && TouchedRows(s, t.held, t.writes.requests, t.stage.now, t.stage.update)
    && ReturnedRows(t.writes.requests, t.stage.pending, t.stage.done)
    && StillDue(t.writes.requests, t.stage.update, t.stage.due, t.stage.now)
    && ReleasedExactly(s, t.held, t.writes.projects, DoneRows(s, t.stage.done))
  }

  ghost predicate TxnOk(s: State, t: Txn) {
    var w := t.writes;
    match t.stage
    case Authenticated(d) => DraftOk(s, d, w) && w == NOTHING.(keys := w.keys) && t.held == {KeyRow(d.key)}
    case Replaying(d) => DraftOk(s, d, w) && w == NOTHING.(keys := w.keys) && t.held == {KeyRow(d.key)}
    case NotFound(d) =>
      && DraftOk(s, d, w) && w == NOTHING.(keys := w.keys) && t.held == {KeyRow(d.key)}
      && NoDuplicate(s.requests, d.key, d.idem)
    case Reserved(d, reserve) =>
      && ReservedOk(s, d, reserve, w) && w == NOTHING.(keys := w.keys, projects := w.projects)
      && t.held == {KeyRow(d.key), ProjectRow(HomeOf(s, d))}
    case Inserted(d, times, id) =>
      && ReservedOk(s, d, times.reserve, w) && times.begun == d.begun && times.auth == d.auth
      && times.reserve <= times.insert <= s.clock && id !in s.requests
      && w == NOTHING.(keys := w.keys, projects := w.projects,
                       requests := map[id := NewRequest(HomeOf(s, d), d.key, d.idem, d.order, times)])
      && t.held == {KeyRow(d.key), ProjectRow(HomeOf(s, d)), RequestRow(id)}
    case Pulled(worker, now, id) =>
      && now <= s.clock && id in s.requests && Claimable(s.requests[id], worker, now)
      && w == NOTHING.(requests := map[id := Claimed(s.requests[id], worker.id, now, s.lease)])
      && t.held == {RequestRow(id)}
    case ResultWritten(r) =>
      ReportOk(s, r, w) && w == NOTHING.(requests := w.requests) && t.held == {RequestRow(r.id)}
    case ResultSettled(r) =>
      && ReportOk(s, r, w) && Settled(s, r.id, r.input + r.output - s.requests[r.id].reserved, w)
      && w == NOTHING.(requests := w.requests, projects := w.projects)
      && t.held == {RequestRow(r.id), ProjectRow(s.requests[r.id].project)}
    case ResultCredited(r, u) =>
      && ReportOk(s, r, w) && Settled(s, r.id, r.input + r.output - s.requests[r.id].reserved, w)
      && u !in s.usage
      && w.keys == map[s.requests[r.id].apiKey := Credited(s.keys[s.requests[r.id].apiKey], r.input + r.output)]
      && w.usage == map[u := UsageOf(r.id, s.requests[r.id], r.worker, r.input, r.output, r.latency)]
      && t.held == {RequestRow(r.id), ProjectRow(s.requests[r.id].project), KeyRow(s.requests[r.id].apiKey), UsageRow(u)}
    case ErrorWritten(f) =>
      FaultOk(s, f, w) && w == NOTHING.(requests := w.requests) && t.held == {RequestRow(f.id)}
    case ErrorSettled(f) =>
      && FaultOk(s, f, w) && !Retries(s.requests[f.id], f.retryable) && Settled(s, f.id, 0 - s.requests[f.id].reserved, w)
      && w == NOTHING.(requests := w.requests, projects := w.projects)
      && t.held == {RequestRow(f.id), ProjectRow(s.requests[f.id].project)}
    case Recovering(_, _, _, _, _) => RecoveringOk(s, t)
    case Revoking(key, now) =>
      && now <= s.clock && key in s.keys
      && w == NOTHING.(keys := map[key :=
           if s.keys[key].revokedAt.None? then s.keys[key].(revokedAt := Some(now)) else s.keys[key]])
      && t.held == {KeyRow(key)}
  }

  ghost predicate Disjoint(sys: System) {
    forall x, y :: x in sys.txns && y in sys.txns && x != y ==> sys.txns[x].held !! sys.txns[y].held
  }

  ghost predicate TxnsOk(s: State, txns: map<TxnId, Txn>) {
    forall x :: x in txns ==> TxnOk(s, txns[x])
  }

  ghost predicate SystemInv(sys: System) {
    Inv(sys.db) && Disjoint(sys) && TxnsOk(sys.db, sys.txns)
  }

  // ---------------------------------------------------------------- framing

  // Nothing a holder of `held` relies on differs between the two committed states.
  ghost predicate Agrees(s: State, t: State, held: set<Row>) {
    && s.clock <= t.clock && s.lease == t.lease
    && (forall k :: k in s.keys ==>
          k in t.keys && t.keys[k].project == s.keys[k].project && (KeyRow(k) in held ==> t.keys[k] == s.keys[k]))
    && (forall p :: p in s.projects ==>
          p in t.projects && t.projects[p].active == s.projects[p].active && (ProjectRow(p) in held ==> t.projects[p] == s.projects[p]))
    && (forall i :: i in s.requests ==>
          i in t.requests && SameTerms(s.requests[i], t.requests[i]) && (RequestRow(i) in held ==> t.requests[i] == s.requests[i]))
    && (forall i :: i in t.requests && i !in s.requests ==>
          RequestRow(i) !in held && KeyRow(t.requests[i].apiKey) !in held && ProjectRow(t.requests[i].project) !in held)
    && (forall u :: u in t.usage && u !in s.usage ==> UsageRow(u) !in held)
  }

  lemma {:induction false} AdmitsAgrees(s: State, t: State, held: set<Row>, key: KeyId, now: nat)
    requires Agrees(s, t, held) && KeyRow(key) in held && Admits(s, key, now)
    ensures Admits(t, key, now)
  {}

  lemma {:induction false} NoDuplicateAgrees(s: State, t: State, held: set<Row>, key: KeyId, idem: Option<string>)
    requires Agrees(s, t, held) && KeyRow(key) in held && NoDuplicate(s.requests, key, idem)
    ensures NoDuplicate(t.requests, key, idem)
  {}

  lemma {:induction false} ReadingAgrees(s: State, t: State, held: set<Row>, p: ProjectId, now: nat)
    requires Agrees(s, t, held) && ProjectRow(p) in held && p in s.projects && ClockReadUnderLock(s, p, now)
    ensures p in t.projects && ClockReadUnderLock(t, p, now)
  {}

  lemma {:induction false} DraftAgrees(s: State, t: State, held: set<Row>, d: Draft, w: Writes)
    requires Agrees(s, t, held) && KeyRow(d.key) in held && DraftOk(s, d, w)
    ensures DraftOk(t, d, w)
  {
    AdmitsAgrees(s, t, held, d.key, d.auth);
  }

  lemma {:induction false} ReservedAgrees(s: State, t: State, held: set<Row>, d: Draft, reserve: nat, w: Writes)
    requires Agrees(s, t, held) && ReservedOk(s, d, reserve, w) && {KeyRow(d.key), ProjectRow(HomeOf(s, d))} <= held
    ensures ReservedOk(t, d, reserve, w) && HomeOf(t, d) == HomeOf(s, d)
  {
    assert KeyRow(d.key) in held && ProjectRow(HomeOf(s, d)) in held;
    DraftAgrees(s, t, held, d, w);
    NoDuplicateAgrees(s, t, held, d.key, d.idem);
    ReadingAgrees(s, t, held, HomeOf(s, d), reserve);
  }

  lemma {:induction false} RecoveringAgrees(s: State, t: State, x: Txn)
    requires Agrees(s, t, x.held) && RecoveringOk(s, x)
    ensures RecoveringOk(t, x)
  {
    assert DoneRows(t, x.stage.done) == DoneRows(s, x.stage.done) by {
      forall i | i in x.stage.done ensures i in s.requests && i in t.requests && t.requests[i] == s.requests[i] {
        assert i in x.writes.requests && RequestRow(i) in x.held;
      }
      forall i | i in t.requests && i in x.stage.done ensures i in s.requests && t.requests[i] == s.requests[i] {
        assert i in x.writes.requests && RequestRow(i) in x.held;
      }
    }
  }

  lemma {:induction false} ReportAgrees(s: State, t: State, held: set<Row>, r: Report, w: Writes)
    requires Agrees(s, t, held) && ReportOk(s, r, w) && RequestRow(r.id) in held
    ensures ReportOk(t, r, w) && t.requests[r.id] == s.requests[r.id]
  {}

  predicate Submission(stage: Stage) {
    stage.Authenticated? || stage.Replaying? || stage.NotFound? || stage.Reserved? || stage.Inserted?
  }

  predicate Reporting(stage: Stage) {
    stage.ResultWritten? || stage.ResultSettled? || stage.ResultCredited?
  }

  lemma {:induction false} SubmissionAgrees(s: State, t: State, x: Txn)
    requires Submission(x.stage) && TxnOk(s, x) && Agrees(s, t, x.held)
    ensures TxnOk(t, x)
  {
    match x.stage
    case Authenticated(d) => DraftAgrees(s, t, x.held, d, x.writes);
    case Replaying(d) => DraftAgrees(s, t, x.held, d, x.writes);
    case NotFound(d) =>
      DraftAgrees(s, t, x.held, d, x.writes);
      NoDuplicateAgrees(s, t, x.held, d.key, d.idem);
    case Reserved(d, reserve) => ReservedAgrees(s, t, x.held, d, reserve, x.writes);
    case Inserted(d, times, id) =>
      ReservedAgrees(s, t, x.held, d, times.reserve, x.writes);
      assert RequestRow(id) in x.held;
    case _ =>
  }

  lemma {:induction false} CreditedAgrees(s: State, t: State, x: Txn)
    requires x.stage.ResultCredited? && TxnOk(s, x) && Agrees(s, t, x.held)
    ensures TxnOk(t, x)
  {
    var ResultCredited(r, u) := x.stage;
    ReportAgrees(s, t, x.held, r, x.writes);
    assert ProjectRow(s.requests[r.id].project) in x.held;
    assert KeyRow(s.requests[r.id].apiKey) in x.held && UsageRow(u) in x.held;
  }

  lemma {:induction false} WrittenAgrees(s: State, t: State, x: Txn)
    requires (x.stage.ResultWritten? || x.stage.ResultSettled?) && TxnOk(s, x) && Agrees(s, t, x.held)
    ensures TxnOk(t, x)
  {
    ReportAgrees(s, t, x.held, x.stage.r, x.writes);
    if x.stage.ResultSettled? {
      assert ProjectRow(s.requests[x.stage.r.id].project) in x.held;
    }
  }

  lemma {:induction false} FaultAgrees(s: State, t: State, x: Txn)
    requires (x.stage.ErrorWritten? || x.stage.ErrorSettled?) && TxnOk(s, x) && Agrees(s, t, x.held)
    ensures TxnOk(t, x)
  {
    assert RequestRow(x.stage.f.id) in x.held;
    if x.stage.ErrorSettled? {
      assert ProjectRow(s.requests[x.stage.f.id].project) in x.held;
    }
  }

  lemma {:induction false} OneRowAgrees(s: State, t: State, x: Txn)
    requires (x.stage.Pulled? || x.stage.Revoking?) && TxnOk(s, x) && Agrees(s, t, x.held)
    ensures TxnOk(t, x)
  {
    if x.stage.Pulled? {
      assert RequestRow(x.stage.id) in x.held;
    } else {
      assert KeyRow(x.stage.key) in x.held;
    }
  }

  // A transaction is undisturbed by whatever happens to rows it does not hold.
  lemma {:induction false} TxnAgrees(s: State, t: State, x: Txn)
    requires TxnOk(s, x) && Agrees(s, t, x.held)
    ensures TxnOk(t, x)
  {
    if Submission(x.stage) {
      SubmissionAgrees(s, t, x);
    } else if x.stage.ResultCredited? {
      CreditedAgrees(s, t, x);
    } else if Reporting(x.stage) {
      WrittenAgrees(s, t, x);
    } else if x.stage.Recovering? {
      RecoveringAgrees(s, t, x);
    } else if x.stage.ErrorWritten? || x.stage.ErrorSettled? {
      FaultAgrees(s, t, x);
    } else {
      OneRowAgrees(s, t, x);
    }
  }

  // ---------------------------------------------------------------- what a commit publishes

  // A transaction writes only rows it holds; a row it adds belongs to a key and a project it holds.
  ghost predicate WritesOk(s: State, t: Txn) {
    var w := t.writes;
    && (forall k :: k in w.keys ==> KeyRow(k) in t.held && k in s.keys && w.keys[k].project == s.keys[k].project)
    && (forall p :: p in w.projects ==> ProjectRow(p) in t.held && p in s.projects && w.projects[p].active == s.projects[p].active)
    && (forall i :: i in w.requests ==> RequestRow(i) in t.held)
    && (forall i :: i in w.requests && i in s.requests ==> SameTerms(s.requests[i], w.requests[i]))
    && (forall i :: i in w.requests && i !in s.requests ==>
          KeyRow(w.requests[i].apiKey) in t.held && ProjectRow(w.requests[i].project) in t.held)
    && (forall u :: u in w.usage ==> UsageRow(u) in t.held)
  }

  lemma {:induction false} TouchedTerms(r: Request, written: Request, now: nat, update: nat)
    requires TouchedOk(r, written, now, update)
    ensures SameTerms(r, written)
  {}

  lemma {:induction false} RecoveringWrites(s: State, t: Txn)
    requires RecoveringOk(s, t)
    ensures WritesOk(s, t)
  {
    forall i | i in t.writes.requests ensures i in s.requests && SameTerms(s.requests[i], t.writes.requests[i]) {
      TouchedTerms(s.requests[i], t.writes.requests[i], t.stage.now, t.stage.update);
    }
  }

  lemma {:induction false} ReportingWrites(s: State, t: Txn)
    requires TxnOk(s, t) && Reporting(t.stage)
    ensures WritesOk(s, t)
  {
    match t.stage
    case ResultWritten(r) => FinishedTerms(s.requests[r.id], r);
    case ResultSettled(r) => FinishedTerms(s.requests[r.id], r);
    case ResultCredited(r, _) => FinishedTerms(s.requests[r.id], r);
    case _ =>
  }

  lemma {:induction false} SubmissionWrites(s: State, t: Txn)
    requires TxnOk(s, t) && Submission(t.stage)
    ensures WritesOk(s, t)
  {}

  lemma {:induction false} FaultWrites(s: State, t: Txn)
    requires TxnOk(s, t) && (t.stage.ErrorWritten? || t.stage.ErrorSettled?)
    ensures WritesOk(s, t)
  {}

  lemma {:induction false} OneRowWrites(s: State, t: Txn)
    requires TxnOk(s, t) && (t.stage.Pulled? || t.stage.Revoking?)
    ensures WritesOk(s, t)
  {}

  lemma {:induction false} TxnWrites(s: State, t: Txn)
    requires TxnOk(s, t)
    ensures WritesOk(s, t)
  {
    if Submission(t.stage) {
      SubmissionWrites(s, t);
    } else if Reporting(t.stage) {
      ReportingWrites(s, t);
    } else if t.stage.Recovering? {
      RecoveringWrites(s, t);
    } else if t.stage.Pulled? || t.stage.Revoking? {
      OneRowWrites(s, t);
    } else {
      FaultWrites(s, t);
    }
  }

  lemma {:induction false} FinishedTerms(q: Request, r: Report)
    ensures SameTerms(q, Finished(q, r.result, r.input, r.output, r.now))
  {}

  // Publishing a transaction's writes touches nothing that any other transaction holds.
  lemma {:induction false} PublishAgrees(s: State, t: Txn, held: set<Row>)
    requires WritesOk(s, t) && t.held !! held
    ensures Agrees(s, Overlay(s, t.writes), held)
  {
    PublishKeepsKeys(s, t, held);
    PublishKeepsRequests(s, t, held);
  }

  lemma {:induction false} PublishKeepsKeys(s: State, t: Txn, held: set<Row>)
    requires WritesOk(s, t) && t.held !! held
    ensures var after := Overlay(s, t.writes);
      && (forall k :: k in s.keys ==>
            k in after.keys && after.keys[k].project == s.keys[k].project && (KeyRow(k) in held ==> after.keys[k] == s.keys[k]))
      && (forall p :: p in s.projects ==>
            p in after.projects && after.projects[p].active == s.projects[p].active
            && (ProjectRow(p) in held ==> after.projects[p] == s.projects[p]))
  {}

  lemma {:induction false} PublishKeepsRequests(s: State, t: Txn, held: set<Row>)
    requires WritesOk(s, t) && t.held !! held
    ensures var after := Overlay(s, t.writes);
      && (forall i :: i in s.requests ==>
            i in after.requests && SameTerms(s.requests[i], after.requests[i])
            && (RequestRow(i) in held ==> after.requests[i] == s.requests[i]))
      && (forall i :: i in after.requests && i !in s.requests ==>
            RequestRow(i) !in held && KeyRow(after.requests[i].apiKey) !in held && ProjectRow(after.requests[i].project) !in held)
      && (forall u :: u in after.usage && u !in s.usage ==> UsageRow(u) !in held)
  {}

  // ---------------------------------------------------------------- a commit is one step

  // The step a finished transaction performs.
  ghost function StepOf(s: State, t: Txn): Step
    requires TxnOk(s, t) && Committable(t)
  {
    match t.stage
    case Replaying(d) => Step.Replay(d.key, d.auth)
    case Inserted(d, times, id) => Step.Submit(d.key, d.idem, d.order, times, id)
    case Pulled(w, now, id) => Step.Claim(w, s.requests.Keys - {id}, now, id)
    case ResultCredited(r, u) => Step.Commit(r.worker, r.id, r.result, r.input, r.output, r.latency, r.now, u)
    case ErrorWritten(f) => Step.Fail(f.worker, f.id, f.retryable, f.code)
    case ErrorSettled(f) => Step.Fail(f.worker, f.id, f.retryable, f.code)
    case Recovering(now, _, _, _, _) => Step.Recover(now, t.writes.requests.Keys)
    case Revoking(key, now) => Step.RevokeKey(key, now)
  }

  lemma {:induction false} InsertedIsSubmit(s: State, t: Txn)
    requires TxnOk(s, t) && t.stage.Inserted?
    ensures Next(s, StepOf(s, t), Overlay(s, t.writes))
  {
    var Inserted(d, times, id) := t.stage;
    assert SubmitEnabled(s, d.key, d.idem, d.order, times, id);
    var home := HomeOf(s, d);
    PutOne(s.keys, d.key, t.writes.keys[d.key]);
    PutOne(s.projects, home, t.writes.projects[home]);
    PutOne(s.requests, id, t.writes.requests[id]);
    assert s.usage + t.writes.usage == s.usage;
  }

  // Merging a single row is updating it.
  lemma {:induction false} PutOne<K, V>(m: map<K, V>, k: K, v: V)
    ensures m + map[k := v] == m[k := v] && m + map[] == m
  {}

  lemma {:induction false} CreditedOverlay(s: State, w: Writes, r: Report, u: UsageId)
    requires ReportOk(s, r, w) && Settled(s, r.id, r.input + r.output - s.requests[r.id].reserved, w)
    requires w.keys == map[s.requests[r.id].apiKey := Credited(s.keys[s.requests[r.id].apiKey], r.input + r.output)]
    requires w.usage == map[u := UsageOf(r.id, s.requests[r.id], r.worker, r.input, r.output, r.latency)]
    ensures var q := s.requests[r.id];
      Overlay(s, w) == Credit(Settle(s, r.id, Finished(q, r.result, r.input, r.output, r.now), r.input + r.output),
                              q.apiKey, u, UsageOf(r.id, q, r.worker, r.input, r.output, r.latency))
  {
    var q := s.requests[r.id];
    PutOne(s.requests, r.id, w.requests[r.id]);
    PutOne(s.projects, q.project, w.projects[q.project]);
    PutOne(s.keys, q.apiKey, w.keys[q.apiKey]);
    PutOne(s.usage, u, w.usage[u]);
  }

  lemma {:induction false} CreditedIsCommit(s: State, t: Txn)
    requires TxnOk(s, t) && t.stage.ResultCredited?
    ensures Next(s, StepOf(s, t), Overlay(s, t.writes))
  {
    var ResultCredited(r, u) := t.stage;
    CreditedOverlay(s, t.writes, r, u);
    CommitIsCredit(s, r.worker, r.id, r.result, r.input, r.output, r.latency, r.now, u);
  }

  lemma {:induction false} RetryIsFail(s: State, t: Txn)
    requires TxnOk(s, t) && Committable(t) && t.stage.ErrorWritten?
    ensures Next(s, StepOf(s, t), Overlay(s, t.writes))
  {}

  lemma {:induction false} FailureOverlay(s: State, w: Writes, f: Fault)
    requires FaultOk(s, f, w) && Settled(s, f.id, 0 - s.requests[f.id].reserved, w) && w.keys == map[] && w.usage == map[]
    ensures Overlay(s, w) == Settle(s, f.id, Errored(s.requests[f.id], f.retryable, f.code), 0)
  {
    PutOne(s.requests, f.id, w.requests[f.id]);
    PutOne(s.projects, s.requests[f.id].project, w.projects[s.requests[f.id].project]);
    assert s.keys + w.keys == s.keys && s.usage + w.usage == s.usage;
  }

  lemma {:induction false} FailureIsFail(s: State, t: Txn)
    requires TxnOk(s, t) && t.stage.ErrorSettled?
    ensures Next(s, StepOf(s, t), Overlay(s, t.writes))
  {
    FailureOverlay(s, t.writes, t.stage.f);
  }

  lemma {:induction false} ReplayingIsReplay(s: State, t: Txn)
    requires TxnOk(s, t) && t.stage.Replaying?
    ensures Next(s, StepOf(s, t), Overlay(s, t.writes))
  {
    PutOne(s.keys, t.stage.d.key, t.writes.keys[t.stage.d.key]);
    assert s.projects + t.writes.projects == s.projects && s.requests + t.writes.requests == s.requests;
    assert s.usage + t.writes.usage == s.usage;
  }

  lemma {:induction false} PulledIsClaim(s: State, t: Txn)
    requires TxnOk(s, t) && t.stage.Pulled?
    ensures Next(s, StepOf(s, t), Overlay(s, t.writes))
  {
    PutOne(s.requests, t.stage.id, t.writes.requests[t.stage.id]);
    assert s.keys + t.writes.keys == s.keys && s.projects + t.writes.projects == s.projects;
    assert s.usage + t.writes.usage == s.usage;
  }

  lemma {:induction false} RevokingIsRevoke(s: State, t: Txn)
    requires TxnOk(s, t) && t.stage.Revoking?
    ensures Next(s, StepOf(s, t), Overlay(s, t.writes))
  {
    PutOne(s.keys, t.stage.key, t.writes.keys[t.stage.key]);
    assert s.projects + t.writes.projects == s.projects && s.requests + t.writes.requests == s.requests;
    assert s.usage + t.writes.usage == s.usage;
  }

  // At the end every touched row is where the pass takes it, and the rows released are those it ended.
  ghost predicate TouchedAtEnd(s: State, t: Txn, i: RequestId)
    requires t.stage.Recovering?
  {
    && i in t.writes.requests && i in s.requests
    && t.writes.requests[i] == Recovered(s.requests[i], t.stage.now)
    && (Freed(s.requests[i], t.stage.now) <==> i in t.stage.done)
  }

  lemma {:induction false} RecoveringEnds(s: State, t: Txn, i: RequestId)
    requires RecoveringOk(s, t) && t.stage.update == 4 && t.stage.pending == {} && i in t.writes.requests
    ensures TouchedAtEnd(s, t, i)
  {
    assert TouchedOk(s.requests[i], t.writes.requests[i], t.stage.now, t.stage.update);
  }

  lemma {:induction false} RecoveringRows(s: State, t: Txn)
    requires t.stage.Recovering?
    requires forall i :: i in t.writes.requests ==> TouchedAtEnd(s, t, i)
    ensures s.requests + t.writes.requests == RecoverRows(s.requests, t.stage.now, t.writes.requests.Keys)
  {
    var after := s.requests + t.writes.requests;
    forall i | i in after
      ensures i in s.requests
      ensures after[i] == if i in t.writes.requests.Keys then Recovered(s.requests[i], t.stage.now) else s.requests[i]
    {
      assert i in t.writes.requests ==> TouchedAtEnd(s, t, i);
    }
  }

  lemma {:induction false} RecoveringFreed(s: State, t: Txn)
    requires t.stage.Recovering? && t.stage.done <= t.writes.requests.Keys
    requires forall i :: i in t.writes.requests ==> TouchedAtEnd(s, t, i)
    ensures FreedRows(s.requests, t.stage.now, t.writes.requests.Keys) == DoneRows(s, t.stage.done)
  {
    forall i | i in s.requests
      ensures i in t.writes.requests && Freed(s.requests[i], t.stage.now) <==> i in t.stage.done
    {
      assert i in t.writes.requests ==> TouchedAtEnd(s, t, i);
    }
  }

  lemma {:induction false} RecoveringProjects(s: State, t: Txn)
    requires RecoveringOk(s, t)
    ensures s.projects + t.writes.projects == GiveBackAll(s.projects, DoneRows(s, t.stage.done))
  {
    forall p | p in s.projects && p !in t.writes.projects
      ensures GiveBack(p, s.projects[p], DoneRows(s, t.stage.done)) == s.projects[p]
    {
      NothingToGiveBack(p, s.projects[p], DoneRows(s, t.stage.done));
    }
  }

  lemma {:induction false} RecoveringIsRecover(s: State, t: Txn)
    requires TxnOk(s, t) && Committable(t) && t.stage.Recovering?
    ensures Next(s, StepOf(s, t), Overlay(s, t.writes))
  {
    forall i | i in t.writes.requests ensures TouchedAtEnd(s, t, i) {
      RecoveringEnds(s, t, i);
    }
    RecoveringRows(s, t);
    RecoveringFreed(s, t);
    RecoveringProjects(s, t);
    RecoverShape(s, t.stage.now, t.writes.requests.Keys, Overlay(s, t.writes));
  }

  lemma {:induction false} RecoverShape(s: State, now: nat, touched: set<RequestId>, t: State)
    requires now <= s.clock && t == s.(requests := t.requests, projects := t.projects)
    requires t.requests == RecoverRows(s.requests, now, touched)
    requires t.projects == GiveBackAll(s.projects, FreedRows(s.requests, now, touched))
    ensures Next(s, Step.Recover(now, touched), t)
  {}

  lemma {:induction false} NothingToGiveBack(p: ProjectId, row: Project, freed: map<RequestId, Request>)
    requires forall i :: i in freed ==> freed[i].project != p
    ensures GiveBack(p, row, freed) == row
  {
    TotalZero(freed, ReservedOn(p, row.dailyDate));
    TotalZero(freed, ReservedIn(p, row.monthlyMonth));
  }

  lemma {:induction false} CommitIsStep(s: State, t: Txn)
    requires TxnOk(s, t) && Committable(t)
    ensures Next(s, StepOf(s, t), Overlay(s, t.writes))
  {
    if t.stage.Replaying? {
      ReplayingIsReplay(s, t);
    } else if t.stage.Inserted? {
      InsertedIsSubmit(s, t);
    } else if t.stage.Pulled? {
      PulledIsClaim(s, t);
    } else if t.stage.ResultCredited? {
      CreditedIsCommit(s, t);
    } else if t.stage.ErrorWritten? {
      RetryIsFail(s, t);
    } else if t.stage.ErrorSettled? {
      FailureIsFail(s, t);
    } else if t.stage.Recovering? {
      RecoveringIsRecover(s, t);
    } else {
      RevokingIsRevoke(s, t);
    }
  }
}
