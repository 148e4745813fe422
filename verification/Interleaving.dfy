/** Transactions at row-lock granularity.

  A transaction takes exclusive row locks one at a time, keeps its writes to itself, and either
  commits all of them at once, releasing every lock, or aborts and leaves nothing; a deadlock
  victim is an abort. Reads without a lock see committed rows only. Every value a transaction
  writes is computed from what it read when it took the lock, possibly long before it commits. */
module Interleaving {
  import opened Options
  import opened Calendar
  import opened Entities
  import opened BudgetRules
  import opened Protocol

  type TxnId = nat

  datatype Row = KeyRow(k: KeyId) | ProjectRow(p: ProjectId) | RequestRow(i: RequestId) | UsageRow(u: UsageId)

  datatype Writes = Writes(
    keys: map<KeyId, ApiKey>, projects: map<ProjectId, Project>,
    requests: map<RequestId, Request>, usage: map<UsageId, UsageRecord>)

  // A submission after authentication, and a result or an error after its guard.
  datatype Draft = Draft(key: KeyId, idem: Option<string>, order: Order, begun: nat, auth: nat)
  datatype Report = Report(worker: Worker, id: RequestId, result: Json, input: nat, output: nat, latency: nat, now: nat)
  datatype Fault = Fault(worker: Worker, id: RequestId, retryable: bool, code: string)

  // How far a transaction has got.
  datatype Stage =
    | Authenticated(d: Draft)
    | Replaying(d: Draft)
    | NotFound(d: Draft)
    | Reserved(d: Draft, reserve: nat)
    | Inserted(d: Draft, times: Times, id: RequestId)
    | Pulled(worker: Worker, now: nat, id: RequestId)
    | ResultWritten(r: Report)
    | ResultSettled(r: Report)
    | ResultCredited(r: Report, u: UsageId)
    | ErrorWritten(f: Fault)
    | ErrorSettled(f: Fault)
    // Update 1, 2 or 3 of a recovery pass in progress, or 4: the release loop. `due` are the rows
    // the update's snapshot holds and it has not visited yet, `pending` the returned rows still to be
    // released, `done` those released.
    | Recovering(now: nat, update: nat, due: set<RequestId>, pending: set<RequestId>, done: set<RequestId>)
    | Revoking(key: KeyId, now: nat)

  datatype Txn = Txn(held: set<Row>, writes: Writes, stage: Stage)

  // The committed tables and the open transactions.
  datatype System = System(db: State, txns: map<TxnId, Txn>)

  const NOTHING := Writes(map[], map[], map[], map[])

  function Overlay(s: State, w: Writes): State {
    s.(keys := s.keys + w.keys, projects := s.projects + w.projects,
       requests := s.requests + w.requests, usage := s.usage + w.usage)
  }

  // ---------------------------------------------------------------- moves

  datatype Move =
    | Tick(to: nat)
    | Abort(x: TxnId)
    | Commit(x: TxnId)
    | Authenticate(x: TxnId, key: KeyId, idem: Option<string>, order: Order, begun: nat)
    | LookUp(x: TxnId)
    | Reserve(x: TxnId)
    | Insert(x: TxnId, id: RequestId)
    | Pull(x: TxnId, worker: Worker, id: RequestId, now: nat)
    | WriteResult(x: TxnId, r: Report)
    | SettleResult(x: TxnId)
    | CreditResult(x: TxnId, u: UsageId)
    | WriteError(x: TxnId, f: Fault)
    | SettleError(x: TxnId)
    | BeginRecovery(x: TxnId, now: nat)
    | RecoverRow(x: TxnId, id: RequestId)
    | NextUpdate(x: TxnId)
    | ReleaseRow(x: TxnId, id: RequestId)
    | Revoke(x: TxnId, key: KeyId)

  // No other transaction holds the row.
  ghost predicate Free(sys: System, x: TxnId, row: Row) {
    forall y :: y in sys.txns && y != x ==> row !in sys.txns[y].held
  }

  // The project of the key a draft belongs to, and of the request a report is about.
  function HomeOf(s: State, d: Draft): ProjectId
    requires d.key in s.keys
  {
    s.keys[d.key].project
  }

  // The row as the transaction itself sees it.
  function OwnRequest(s: State, w: Writes, i: RequestId): Request
    requires i in s.requests
  {
    if i in w.requests then w.requests[i] else s.requests[i]
  }

  function OwnProject(s: State, w: Writes, p: ProjectId): Project
    requires p in s.projects
  {
    if p in w.projects then w.projects[p] else s.projects[p]
  }

  predicate UpdateMatches(update: nat, r: Request, now: nat) {
    if update == 1 then LeaseLost(r, now) && r.retryCount < r.maxRetries
    else if update == 2 then LeaseLost(r, now) && r.retryCount >= r.maxRetries
    else update == 3 && QueueExpired(r, now)
  }

  function Updated(update: nat, r: Request, now: nat): Request {
    if update == 1 then Requeue(r, now) else if update == 2 then GiveUp(r, now) else ExpireQueued(r, now)
  }

  // The rows an update statement starts out with: those that match in the committed tables, or as
  // its own transaction has changed them before.
  function Matching(s: State, w: Writes, update: nat, now: nat): set<RequestId> {
    set i | i in s.requests && UpdateMatches(update, OwnRequest(s, w, i), now)
  }

  // A recovery pass after the current update has changed row `id`; the second and third return it.
  function RowUpdated(s: State, t: Txn, id: RequestId): Txn
    requires t.stage.Recovering? && id in s.requests
  {
    var Recovering(now, update, due, pending, done) := t.stage;
    Txn(t.held + {RequestRow(id)},
        t.writes.(requests := t.writes.requests[id := Updated(update, OwnRequest(s, t.writes, id), now)]),
        Recovering(now, update, due - {id}, if update == 1 then pending else pending + {id}, done))
  }

  // A recovery pass after its release loop has handled the returned row `id`.
  function RowReleased(s: State, t: Txn, id: RequestId): Txn
    requires t.stage.Recovering? && id in s.requests && s.requests[id].project in s.projects
  {
    var Recovering(now, update, due, pending, done) := t.stage;
    var q := s.requests[id];
    Txn(t.held + {ProjectRow(q.project)},
        t.writes.(projects := t.writes.projects[q.project :=
          Adjust(OwnProject(s, t.writes, q.project), 0 - q.reserved, q.budgetDay, q.budgetMonth)]),
        Recovering(now, update, due, pending - {id}, done + {id}))
  }

  // A transaction may commit once its work is complete.
  predicate Committable(t: Txn) {
    match t.stage
    case Replaying(_) => true
    case Inserted(_, _, _) => true
    case Pulled(_, _, _) => true
    case ResultCredited(_, _) => true
    case ErrorWritten(f) => f.id in t.writes.requests && t.writes.requests[f.id].status == Queued
    case ErrorSettled(_) => true
    case Recovering(_, update, _, pending, _) => update == 4 && pending == {}
    case Revoking(_, _) => true
    case _ => false
  }

  ghost predicate MoveEnabled(sys: System, m: Move) {
    var s := sys.db;
    match m
    case Tick(to) => s.clock <= to
    case Abort(x) => x in sys.txns
    case Commit(x) => x in sys.txns && Committable(sys.txns[x])
    case Authenticate(x, key, idem, order, begun) =>
      x !in sys.txns && Free(sys, x, KeyRow(key)) && Admits(s, key, s.clock) && begun <= s.clock
    case LookUp(x) => x in sys.txns && sys.txns[x].stage.Authenticated?
    case Reserve(x) =>
      && x in sys.txns && sys.txns[x].stage.NotFound?
      && var d := sys.txns[x].stage.d;
      && d.key in s.keys && HomeOf(s, d) in s.projects && Free(sys, x, ProjectRow(HomeOf(s, d)))
      && EnforceBudget(SnapshotOf(RollOver(s.projects[HomeOf(s, d)], Today(s.clock))), d.order.tokens).None?
    case Insert(x, id) =>
      && x in sys.txns && sys.txns[x].stage.Reserved?
      && sys.txns[x].stage.d.key in s.keys && 0 <= sys.txns[x].stage.d.order.tokens
      && id !in s.requests && Free(sys, x, RequestRow(id))
    // A pull, a report and a pass read the clock first; time may pass before they reach their rows.
    case Pull(x, w, id, now) =>
      && x !in sys.txns && w.online && now <= s.clock
      && id in s.requests && Free(sys, x, RequestRow(id)) && Claimable(s.requests[id], w, now)
      && (forall j :: j in s.requests && Free(sys, x, RequestRow(j)) && Claimable(s.requests[j], w, now)
            ==> Ahead(s.requests[id], s.requests[j]))
    case WriteResult(x, r) =>
      && x !in sys.txns && r.now <= s.clock
      && r.id in s.requests && Free(sys, x, RequestRow(r.id)) && HeldBy(s.requests[r.id], r.worker.id)
    case SettleResult(x) =>
      && x in sys.txns && sys.txns[x].stage.ResultWritten?
      && var r := sys.txns[x].stage.r;
      && r.id in s.requests && s.requests[r.id].project in s.projects && Free(sys, x, ProjectRow(s.requests[r.id].project))
    case CreditResult(x, u) =>
      && x in sys.txns && sys.txns[x].stage.ResultSettled?
      && var r := sys.txns[x].stage.r;
      && r.id in s.requests && s.requests[r.id].apiKey in s.keys && Free(sys, x, KeyRow(s.requests[r.id].apiKey))
      && u !in s.usage && Free(sys, x, UsageRow(u))
    case WriteError(x, f) =>
      && x !in sys.txns
      && f.id in s.requests && Free(sys, x, RequestRow(f.id)) && HeldBy(s.requests[f.id], f.worker.id)
    case SettleError(x) =>
      && x in sys.txns && sys.txns[x].stage.ErrorWritten? && !Committable(sys.txns[x])
      && var f := sys.txns[x].stage.f;
      && f.id in s.requests && s.requests[f.id].project in s.projects && Free(sys, x, ProjectRow(s.requests[f.id].project))
    case BeginRecovery(x, now) => x !in sys.txns && now <= s.clock
    case RecoverRow(x, id) =>
      && x in sys.txns && sys.txns[x].stage.Recovering?
      && id in sys.txns[x].stage.due && id in s.requests && Free(sys, x, RequestRow(id))
    case NextUpdate(x) =>
      x in sys.txns && sys.txns[x].stage.Recovering? && sys.txns[x].stage.update < 4 && sys.txns[x].stage.due == {}
    case ReleaseRow(x, id) =>
      && x in sys.txns && sys.txns[x].stage.Recovering? && sys.txns[x].stage.update == 4
      && id in sys.txns[x].stage.pending && id in s.requests && s.requests[id].project in s.projects
      && Free(sys, x, ProjectRow(s.requests[id].project))
    case Revoke(x, key) => x !in sys.txns && key in s.keys && Free(sys, x, KeyRow(key))
  }

  // What a move makes of its own transaction.
  ghost function Moved(sys: System, m: Move): Txn
    requires MoveEnabled(sys, m) && !m.Tick? && !m.Abort? && !m.Commit?
  {
    var s := sys.db;
    match m
    case Authenticate(x, key, idem, order, begun) =>
      Txn({KeyRow(key)}, NOTHING.(keys := map[key := CountRequest(s.keys[key], Today(s.clock))]),
          Authenticated(Draft(key, idem, order, begun, s.clock)))
    case LookUp(x) =>
      var d := sys.txns[x].stage.d;
      sys.txns[x].(stage := if NoDuplicate(s.requests, d.key, d.idem) then NotFound(d) else Replaying(d))
    case Reserve(x) =>
      var d := sys.txns[x].stage.d;
      var p := HomeOf(s, d);
      Txn(sys.txns[x].held + {ProjectRow(p)},
          sys.txns[x].writes.(projects := map[p := Charge(RollOver(s.projects[p], Today(s.clock)), d.order.tokens)]),
          Reserved(d, s.clock))
    case Insert(x, id) =>
      var Reserved(d, reserve) := sys.txns[x].stage;
      var t := Times(d.begun, d.auth, reserve, s.clock);
      Txn(sys.txns[x].held + {RequestRow(id)},
          sys.txns[x].writes.(requests := map[id := NewRequest(HomeOf(s, d), d.key, d.idem, d.order, t)]),
          Inserted(d, t, id))
    case Pull(x, w, id, now) =>
      Txn({RequestRow(id)}, NOTHING.(requests := map[id := Claimed(s.requests[id], w.id, now, s.lease)]),
          Pulled(w, now, id))
    case WriteResult(x, r) =>
      Txn({RequestRow(r.id)}, NOTHING.(requests := map[r.id := Finished(s.requests[r.id], r.result, r.input, r.output, r.now)]),
          ResultWritten(r))
    case SettleResult(x) =>
      var r := sys.txns[x].stage.r;
      var q := s.requests[r.id];
      Txn(sys.txns[x].held + {ProjectRow(q.project)},
          sys.txns[x].writes.(projects := map[q.project :=
            Adjust(s.projects[q.project], r.input + r.output - q.reserved, q.budgetDay, q.budgetMonth)]),
          ResultSettled(r))
    case CreditResult(x, u) =>
      var r := sys.txns[x].stage.r;
      var q := s.requests[r.id];
      Txn(sys.txns[x].held + {KeyRow(q.apiKey), UsageRow(u)},
          sys.txns[x].writes.(
            keys := map[q.apiKey := Credited(s.keys[q.apiKey], r.input + r.output)],
            usage := map[u := UsageOf(r.id, q, r.worker, r.input, r.output, r.latency)]),
          ResultCredited(r, u))
    case WriteError(x, f) =>
      Txn({RequestRow(f.id)}, NOTHING.(requests := map[f.id := Errored(s.requests[f.id], f.retryable, f.code)]),
          ErrorWritten(f))
    case SettleError(x) =>
      var f := sys.txns[x].stage.f;
      var q := s.requests[f.id];
      Txn(sys.txns[x].held + {ProjectRow(q.project)},
          sys.txns[x].writes.(projects := map[q.project :=
            Adjust(s.projects[q.project], 0 - q.reserved, q.budgetDay, q.budgetMonth)]),
          ErrorSettled(f))
    case BeginRecovery(x, now) => Txn({}, NOTHING, Recovering(now, 1, Matching(s, NOTHING, 1, now), {}, {}))
    // An update waits for the lock of each row of its snapshot and changes the row if it still matches.
    case RecoverRow(x, id) =>
      var t := sys.txns[x];
      if UpdateMatches(t.stage.update, OwnRequest(s, t.writes, id), t.stage.now) then RowUpdated(s, t, id)
      else t.(stage := t.stage.(due := t.stage.due - {id}))
    case NextUpdate(x) =>
      var t := sys.txns[x];
      t.(stage := t.stage.(update := t.stage.update + 1, due := Matching(s, t.writes, t.stage.update + 1, t.stage.now)))
    case ReleaseRow(x, id) =>
      RowReleased(s, sys.txns[x], id)
    case Revoke(x, key) =>
      Txn({KeyRow(key)}, NOTHING.(keys := map[key :=
            if s.keys[key].revokedAt.None? then s.keys[key].(revokedAt := Some(s.clock)) else s.keys[key]]),
          Revoking(key, s.clock))
  }

  ghost function Do(sys: System, m: Move): System
    requires MoveEnabled(sys, m)
  {
    match m
    case Tick(to) => sys.(db := sys.db.(clock := to))
    case Abort(x) => sys.(txns := sys.txns - {x})
    case Commit(x) => System(Overlay(sys.db, sys.txns[x].writes), sys.txns - {x})
    case _ => sys.(txns := sys.txns[m.x := Moved(sys, m)])
  }
}
