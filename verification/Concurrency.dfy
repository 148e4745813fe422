/** Every interleaving of transactions commits a run of whole steps. */
module Concurrency {
  import opened Calendar
  import opened Entities
  import opened BudgetRules
  import opened Protocol
  import opened Invariants
  import opened Runs
  import opened Sums
  import opened Interleaving
  import opened Isolation

  // ---------------------------------------------------------------- moves keep their transaction in order

  lemma {:induction false} SubmissionMoved(sys: System, m: Move)
    requires RowsOk(sys.db) && PeriodsOk(sys.db) && MoveEnabled(sys, m)
    requires m.Authenticate? || m.LookUp? || m.Reserve? || m.Insert? || m.Pull? || m.Revoke?
    requires m.x in sys.txns ==> TxnOk(sys.db, sys.txns[m.x])
    ensures TxnOk(sys.db, Moved(sys, m))
  {
    if m.Reserve? || m.Authenticate? {
      CurrentReadings(sys.db, sys.db.clock);
    }
  }

  lemma {:induction false} ResultMoved(sys: System, m: Move)
    requires RowsOk(sys.db) && MoveEnabled(sys, m) && (m.WriteResult? || m.SettleResult?)
    requires m.x in sys.txns ==> TxnOk(sys.db, sys.txns[m.x])
    ensures TxnOk(sys.db, Moved(sys, m))
  {}

  lemma {:induction false} CreditedOk(s: State, t: Txn, u: UsageId, after: Txn)
    requires TxnOk(s, t) && t.stage.ResultSettled? && u !in s.usage
    requires var r := t.stage.r; var q := s.requests[r.id];
      after == Txn(t.held + {KeyRow(q.apiKey), UsageRow(u)},
                   t.writes.(keys := map[q.apiKey := Credited(s.keys[q.apiKey], r.input + r.output)],
                             usage := map[u := UsageOf(r.id, q, r.worker, r.input, r.output, r.latency)]),
                   ResultCredited(r, u))
    ensures TxnOk(s, after)
  {}

  lemma {:induction false} CreditMoved(sys: System, m: Move)
    requires MoveEnabled(sys, m) && m.CreditResult? && TxnOk(sys.db, sys.txns[m.x])
    ensures TxnOk(sys.db, Moved(sys, m))
  {
    CreditedOk(sys.db, sys.txns[m.x], m.u, Moved(sys, m));
  }

  lemma {:induction false} ErrorMoved(sys: System, m: Move)
    requires RowsOk(sys.db) && MoveEnabled(sys, m) && (m.WriteError? || m.SettleError?)
    requires m.x in sys.txns ==> TxnOk(sys.db, sys.txns[m.x])
    ensures TxnOk(sys.db, Moved(sys, m))
  {}

  // A row the pass has taken where it belongs matches none of the updates any more.
  lemma RecoveredIsSettled(r: Request, now: nat)
    ensures !LeaseLost(Recovered(r, now), now) && !QueueExpired(Recovered(r, now), now)
  {}

  // One update of one row, first touched now or requeued by this transaction before.
  lemma {:induction false} UpdateTouches(r: Request, own: Request, update: nat, now: nat)
    requires own == r || TouchedOk(r, own, now, update)
    requires 1 <= update <= 3 && UpdateMatches(update, own, now)
    ensures !Terminal(r) && !Terminal(own) && TouchedOk(r, Updated(update, own, now), now, update)
    ensures Terminal(Updated(update, own, now)) <==> update != 1
  {
    RecoveredIsSettled(r, now);
  }

  lemma {:induction false} RowUpdatedTouches(s: State, t: Txn, id: RequestId)
    requires RecoveringOk(s, t) && id in s.requests && s.requests[id].project in s.projects
    requires UpdateMatches(t.stage.update, OwnRequest(s, t.writes, id), t.stage.now)
    ensures var after := RowUpdated(s, t, id);
      TouchedRows(s, after.held, after.writes.requests, t.stage.now, t.stage.update)
  {
    UpdateTouches(s.requests[id], OwnRequest(s, t.writes, id), t.stage.update, t.stage.now);
  }

  lemma {:induction false} RowUpdatedReturns(s: State, t: Txn, id: RequestId)
    requires RecoveringOk(s, t) && id in s.requests && s.requests[id].project in s.projects
    requires UpdateMatches(t.stage.update, OwnRequest(s, t.writes, id), t.stage.now)
    ensures var after := RowUpdated(s, t, id);
      ReturnedRows(after.writes.requests, after.stage.pending, after.stage.done)
  {
    UpdateTouches(s.requests[id], OwnRequest(s, t.writes, id), t.stage.update, t.stage.now);
    assert id !in t.stage.pending && id !in t.stage.done;
  }

  lemma {:induction false} RowUpdatedDue(s: State, t: Txn, id: RequestId)
    requires RecoveringOk(s, t) && id in s.requests && s.requests[id].project in s.projects
    requires UpdateMatches(t.stage.update, OwnRequest(s, t.writes, id), t.stage.now)
    ensures var after := RowUpdated(s, t, id);
      StillDue(after.writes.requests, after.stage.update, after.stage.due, after.stage.now)
  {}

  lemma {:induction false} RowUpdatedOk(s: State, t: Txn, id: RequestId)
    requires RecoveringOk(s, t) && id in s.requests && s.requests[id].project in s.projects
    requires UpdateMatches(t.stage.update, OwnRequest(s, t.writes, id), t.stage.now)
    ensures RecoveringOk(s, RowUpdated(s, t, id))
  {
    RowUpdatedTouches(s, t, id);
    RowUpdatedReturns(s, t, id);
    RowUpdatedDue(s, t, id);
  }

  // A row that no longer matches when its lock is free is left to others.
  lemma {:induction false} RowVisitedOk(s: State, t: Txn, id: RequestId)
    requires RecoveringOk(s, t) && id in s.requests && s.requests[id].project in s.projects
    ensures RecoveringOk(s,
      if UpdateMatches(t.stage.update, OwnRequest(s, t.writes, id), t.stage.now) then RowUpdated(s, t, id)
      else t.(stage := t.stage.(due := t.stage.due - {id})))
  {
    if UpdateMatches(t.stage.update, OwnRequest(s, t.writes, id), t.stage.now) {
      RowUpdatedOk(s, t, id);
    }
  }

  lemma {:induction false} NextUpdateOk(s: State, t: Txn)
    requires RecoveringOk(s, t) && t.stage.update < 4 && t.stage.due == {}
    ensures RecoveringOk(s,
      t.(stage := t.stage.(update := t.stage.update + 1, due := Matching(s, t.writes, t.stage.update + 1, t.stage.now))))
  {
    var due := Matching(s, t.writes, t.stage.update + 1, t.stage.now);
    assert TouchedRows(s, t.held, t.writes.requests, t.stage.now, t.stage.update + 1);
    assert StillDue(t.writes.requests, t.stage.update + 1, due, t.stage.now);
  }

  lemma {:induction false} GiveBackOneMore(p: ProjectId, row: Project, freed: map<RequestId, Request>, i: RequestId, r: Request)
    requires i !in freed
    ensures GiveBack(p, row, freed[i := r]) ==
      if r.project == p then Adjust(GiveBack(p, row, freed), 0 - r.reserved, r.budgetDay, r.budgetMonth) else GiveBack(p, row, freed)
  {
    TotalPut(freed, ReservedOn(p, row.dailyDate), i, r);
    TotalPut(freed, ReservedIn(p, row.monthlyMonth), i, r);
    TotalNotNegative(freed, ReservedOn(p, row.dailyDate));
    TotalNotNegative(freed, ReservedIn(p, row.monthlyMonth));
  }

  lemma {:induction false} ReleaseOneMore(
    s: State, held: set<Row>, written: map<ProjectId, Project>, done: map<RequestId, Request>, i: RequestId, r: Request, own: Project,
    after: Txn, more: map<RequestId, Request>)
    requires ReleasedExactly(s, held, written, done) && i !in done && r.project in s.projects
    requires own == if r.project in written then written[r.project] else s.projects[r.project]
    requires after.held == held + {ProjectRow(r.project)} && more == done[i := r]
    requires after.writes.projects == written[r.project := Adjust(own, 0 - r.reserved, r.budgetDay, r.budgetMonth)]
    ensures ReleasedExactly(s, after.held, after.writes.projects, more)
  {
    if r.project !in written {
      NothingToGiveBack(r.project, s.projects[r.project], done);
    }
    forall p | p in after.writes.projects
      ensures p in s.projects && after.writes.projects[p] == GiveBack(p, s.projects[p], more)
    {
      GiveBackOneMore(p, s.projects[p], done, i, r);
    }
  }

  lemma {:induction false} DoneOneMore(s: State, done: set<RequestId>, id: RequestId)
    requires id in s.requests
    ensures DoneRows(s, done + {id}) == DoneRows(s, done)[id := s.requests[id]]
  {}

  lemma {:induction false} RowReleasedTouches(s: State, t: Txn, id: RequestId)
    requires RecoveringOk(s, t) && id in t.stage.pending && id in s.requests && s.requests[id].project in s.projects
    ensures id !in t.stage.done
    ensures var after := RowReleased(s, t, id);
      && TouchedRows(s, after.held, after.writes.requests, t.stage.now, t.stage.update)
      && ReturnedRows(after.writes.requests, after.stage.pending, after.stage.done)
  {}

  lemma {:induction false} RowReleasedGives(s: State, t: Txn, id: RequestId)
    requires t.stage.Recovering? && ReleasedExactly(s, t.held, t.writes.projects, DoneRows(s, t.stage.done))
    requires id !in t.stage.done && id in s.requests && s.requests[id].project in s.projects
    ensures var after := RowReleased(s, t, id);
      ReleasedExactly(s, after.held, after.writes.projects, DoneRows(s, after.stage.done))
  {
    var after := RowReleased(s, t, id);
    var q := s.requests[id];
    DoneOneMore(s, t.stage.done, id);
    ReleaseOneMore(s, t.held, t.writes.projects, DoneRows(s, t.stage.done), id, q, OwnProject(s, t.writes, q.project),
                   after, DoneRows(s, after.stage.done));
  }

  lemma {:induction false} RowReleasedOk(s: State, t: Txn, id: RequestId)
    requires RecoveringOk(s, t) && id in t.stage.pending && id in s.requests && s.requests[id].project in s.projects
    ensures RecoveringOk(s, RowReleased(s, t, id))
  {
    RowReleasedTouches(s, t, id);
    RowReleasedGives(s, t, id);
  }

  lemma {:induction false} RecoveryMoved(sys: System, m: Move)
    requires RowsOk(sys.db) && MoveEnabled(sys, m)
    requires m.BeginRecovery? || m.RecoverRow? || m.NextUpdate? || m.ReleaseRow?
    requires m.x in sys.txns ==> TxnOk(sys.db, sys.txns[m.x])
    ensures TxnOk(sys.db, Moved(sys, m))
  {
    if m.RecoverRow? {
      RowVisitedOk(sys.db, sys.txns[m.x], m.id);
    } else if m.NextUpdate? {
      NextUpdateOk(sys.db, sys.txns[m.x]);
    } else if m.ReleaseRow? {
      RowReleasedOk(sys.db, sys.txns[m.x], m.id);
    }
  }

  ghost predicate Inner(m: Move) {
    !m.Tick? && !m.Abort? && !m.Commit?
  }

  lemma {:induction false} MovedOk(sys: System, m: Move)
    requires RowsOk(sys.db) && PeriodsOk(sys.db) && MoveEnabled(sys, m) && Inner(m)
    requires m.x in sys.txns ==> TxnOk(sys.db, sys.txns[m.x])
    ensures TxnOk(sys.db, Moved(sys, m))
  {
    if m.Authenticate? || m.LookUp? || m.Reserve? || m.Insert? || m.Pull? || m.Revoke? {
      SubmissionMoved(sys, m);
    } else if m.WriteResult? || m.SettleResult? {
      ResultMoved(sys, m);
    } else if m.CreditResult? {
      CreditMoved(sys, m);
    } else if m.WriteError? || m.SettleError? {
      ErrorMoved(sys, m);
    } else {
      RecoveryMoved(sys, m);
    }
  }

  // A move takes only rows no other transaction holds.
  lemma {:induction false} MovedStaysDisjoint(sys: System, m: Move)
    requires Disjoint(sys) && MoveEnabled(sys, m) && Inner(m)
    ensures Disjoint(Do(sys, m))
  {
    var after := Do(sys, m);
    forall y | y in sys.txns && y != m.x ensures Moved(sys, m).held !! sys.txns[y].held {
      forall row | row in Moved(sys, m).held ensures row !in sys.txns[y].held {
      }
    }
  }

  // ---------------------------------------------------------------- the refinement

  // A commit leaves every other transaction as it was, and the tables one whole step further.
  lemma {:induction false} CommitMove(sys: System, x: TxnId)
    requires SystemInv(sys) && MoveEnabled(sys, Move.Commit(x))
    ensures Next(sys.db, StepOf(sys.db, sys.txns[x]), Do(sys, Move.Commit(x)).db)
    ensures TxnsOk(Do(sys, Move.Commit(x)).db, sys.txns - {x})
  {
    CommitIsStep(sys.db, sys.txns[x]);
    TxnWrites(sys.db, sys.txns[x]);
    forall y | y in sys.txns && y != x ensures TxnOk(Overlay(sys.db, sys.txns[x].writes), sys.txns[y]) {
      PublishAgrees(sys.db, sys.txns[x], sys.txns[y].held);
      TxnAgrees(sys.db, Overlay(sys.db, sys.txns[x].writes), sys.txns[y]);
    }
  }

  lemma {:induction false} CommitKeepsSystem(sys: System, x: TxnId)
    requires SystemInv(sys) && MoveEnabled(sys, Move.Commit(x))
    ensures SystemInv(Do(sys, Move.Commit(x)))
  {
    CommitMove(sys, x);
    StepKeepsInv(sys.db, StepOf(sys.db, sys.txns[x]));
  }

  lemma {:induction false} TickKeepsTxns(s: State, to: nat, txns: map<TxnId, Txn>)
    requires TxnsOk(s, txns) && s.clock <= to
    ensures TxnsOk(s.(clock := to), txns)
  {
    forall x | x in txns ensures TxnOk(s.(clock := to), txns[x]) {
      assert Agrees(s, s.(clock := to), txns[x].held);
      TxnAgrees(s, s.(clock := to), txns[x]);
    }
  }

  lemma {:induction false} TickKeepsSystem(sys: System, to: nat)
    requires SystemInv(sys) && sys.db.clock <= to
    ensures SystemInv(Do(sys, Move.Tick(to)))
  {
    TickKeepsInv(sys.db, to);
    TickKeepsTxns(sys.db, to, sys.txns);
  }

  lemma {:induction false} InnerKeepsTxns(sys: System, m: Move)
    requires RowsOk(sys.db) && PeriodsOk(sys.db) && Disjoint(sys) && TxnsOk(sys.db, sys.txns)
    requires MoveEnabled(sys, m) && Inner(m)
    ensures Do(sys, m).db == sys.db && Disjoint(Do(sys, m)) && TxnsOk(sys.db, Do(sys, m).txns)
  {
    MovedOk(sys, m);
    MovedStaysDisjoint(sys, m);
    InnerPuts(sys, m);
  }

  lemma {:induction false} InnerPuts(sys: System, m: Move)
    requires MoveEnabled(sys, m) && Inner(m)
    ensures Do(sys, m) == sys.(txns := sys.txns[m.x := Moved(sys, m)])
  {}

  lemma {:induction false} InnerKeepsSystem(sys: System, m: Move)
    requires SystemInv(sys) && MoveEnabled(sys, m) && Inner(m)
    ensures SystemInv(Do(sys, m)) && Do(sys, m).db == sys.db
  {
    InnerKeepsTxns(sys, m);
  }

  lemma {:induction false} AbortKeepsSystem(sys: System, x: TxnId)
    requires SystemInv(sys) && x in sys.txns
    ensures SystemInv(Do(sys, Abort(x))) && Do(sys, Abort(x)).db == sys.db
  {}

  // Every move keeps the invariants of the committed tables and of every open transaction.
  lemma {:induction false} MoveKeepsSystem(sys: System, m: Move)
    requires SystemInv(sys) && MoveEnabled(sys, m)
    ensures SystemInv(Do(sys, m))
  {
    if m.Tick? {
      TickKeepsSystem(sys, m.to);
    } else if m.Abort? {
      AbortKeepsSystem(sys, m.x);
    } else if m.Commit? {
      CommitKeepsSystem(sys, m.x);
    } else {
      InnerKeepsSystem(sys, m);
    }
  }

  // Nothing changed, or one step of the protocol was taken.
  ghost predicate Steps(s: State, t: State) {
    t == s || exists step :: Next(s, step, t)
  }

  lemma {:induction false} TickRefines(sys: System, to: nat)
    requires sys.db.clock <= to
    ensures Next(sys.db, Step.Tick(to), Do(sys, Move.Tick(to)).db)
  {}

  // The committed tables move only by whole steps, and only when the clock or a commit moves them.
  lemma {:induction false} MoveRefines(sys: System, m: Move)
    requires SystemInv(sys) && MoveEnabled(sys, m)
    ensures Steps(sys.db, Do(sys, m).db)
  {
    if m.Tick? {
      TickRefines(sys, m.to);
    } else if m.Commit? {
      CommitMove(sys, m.x);
    } else if !m.Abort? {
      InnerPuts(sys, m);
    }
  }

  // ---------------------------------------------------------------- whole executions

  datatype Execution = Execution(systems: seq<System>, moves: seq<Move>)

  ghost predicate IsExecution(e: Execution) {
    && |e.systems| == |e.moves| + 1
    && Init(e.systems[0].db) && e.systems[0].txns == map[]
    && forall n :: 0 <= n < |e.moves| ==> MoveEnabled(e.systems[n], e.moves[n]) && e.systems[n + 1] == Do(e.systems[n], e.moves[n])
  }

  lemma {:induction false} ExecutionInv(e: Execution, n: nat)
    requires IsExecution(e) && n < |e.systems|
    ensures SystemInv(e.systems[n])
  {
    if n == 0 {
      InitialInv(e.systems[0].db);
    } else {
      ExecutionInv(e, n - 1);
      MoveKeepsSystem(e.systems[n - 1], e.moves[n - 1]);
    }
  }

  lemma {:induction false} ExecutionMoves(e: Execution, n: nat)
    requires IsExecution(e) && 0 < n < |e.systems|
    ensures Steps(e.systems[n - 1].db, e.systems[n].db)
  {
    ExecutionInv(e, n - 1);
    MoveRefines(e.systems[n - 1], e.moves[n - 1]);
  }

  lemma {:induction false} Extended(q: Run, s: State) returns (r: Run)
    requires IsRun(q) && Steps(q.states[|q.steps|], s)
    ensures IsRun(r) && (if s == q.states[|q.steps|] then r == q else r.states == q.states + [s])
  {
    if s == q.states[|q.steps|] {
      r := q;
    } else {
      var step :| Next(q.states[|q.steps|], step, s);
      r := Run(q.states + [s], q.steps + [step]);
      forall n | 0 <= n < |r.steps| ensures Next(r.states[n], r.steps[n], r.states[n + 1]) {
        if n < |q.steps| {
          assert Next(q.states[n], q.steps[n], q.states[n + 1]);
        }
      }
    }
  }

  // Where each system of an execution finds its committed tables in a run: never going back, and
  // passing through every state of it.
  ghost predicate Traces(states: seq<State>, systems: seq<System>, at: seq<nat>) {
    && |at| == |systems|
    && (forall m :: 0 <= m < |at| ==> at[m] < |states| && states[at[m]] == systems[m].db)
    && (forall l, m :: 0 <= l < m < |at| ==> at[l] <= at[m])
    && (forall k :: 0 <= k < |states| ==> k in at)
  }

  lemma {:induction false} TraceOn(states: seq<State>, systems: seq<System>, at: seq<nat>, more: seq<State>, sys: System)
    requires Traces(states, systems, at) && states != []
    requires if sys.db == states[|states| - 1] then more == states else more == states + [sys.db]
    ensures Traces(more, systems + [sys], at + [|more| - 1])
  {
    var later := at + [|more| - 1];
    forall k | 0 <= k < |more| ensures k in later {
      assert k < |states| ==> k in at;
      assert later[|at|] == |more| - 1;
    }
  }

  // The committed tables of an execution, move by move, are a run of the protocol; so everything
  // proved of runs holds of the committed tables under every interleaving.
  lemma {:induction false} ExecutionRefines(e: Execution, n: nat) returns (r: Run, at: seq<nat>)
    requires IsExecution(e) && n < |e.systems|
    ensures IsRun(r) && Traces(r.states, e.systems[..n + 1], at) && at[n] == |r.steps|
  {
    forall k | 0 < k < |e.systems| ensures Steps(e.systems[k - 1].db, e.systems[k].db) {
      ExecutionMoves(e, k);
    }
    r, at := StepsTraced(e.systems, n);
  }

  // Any tables that start out as they should and move only by steps pass through a run.
  lemma {:induction false} StepsTraced(systems: seq<System>, n: nat) returns (r: Run, at: seq<nat>)
    requires n < |systems| && Init(systems[0].db)
    requires forall k :: 0 < k < |systems| ==> Steps(systems[k - 1].db, systems[k].db)
    ensures IsRun(r) && Traces(r.states, systems[..n + 1], at) && at[n] == |r.steps|
  {
    if n == 0 {
      r, at := Run([systems[0].db], []), [0];
    } else {
      var q, before := StepsTraced(systems, n - 1);
      r := Extended(q, systems[n].db);
      at := before + [|r.steps|];
      TraceOn(q.states, systems[..n], before, r.states, systems[n]);
      assert systems[..n] + [systems[n]] == systems[..n + 1];
    }
  }

  // ---------------------------------------------------------------- what no interleaving can do

  // No two open transactions are at work on one request: not two pulls, nor a pull and a result.
  lemma {:induction false} NoDoubleClaim(e: Execution, n: nat, x: TxnId, y: TxnId, i: RequestId)
    requires IsExecution(e) && n < |e.systems| && x in e.systems[n].txns && y in e.systems[n].txns
    requires i in e.systems[n].txns[x].writes.requests && i in e.systems[n].txns[y].writes.requests
    ensures x == y
  {
    ExecutionInv(e, n);
    TxnWrites(e.systems[n].db, e.systems[n].txns[x]);
    TxnWrites(e.systems[n].db, e.systems[n].txns[y]);
    assert RequestRow(i) in e.systems[n].txns[x].held && RequestRow(i) in e.systems[n].txns[y].held;
  }

  // The reservation a transaction holds open: made, and not yet committed.
  predicate Reserving(stage: Stage) {
    stage.Reserved? || stage.Inserted?
  }

  function ReserveTime(stage: Stage): nat
    requires Reserving(stage)
  {
    if stage.Reserved? then stage.reserve else stage.times.reserve
  }

  // Two open reservations are never on one project, and each still fits the committed counters: so
  // of two that do not fit together, the second is checked against the first one's commit.
  lemma {:induction false} NoDoubleReservation(e: Execution, n: nat, x: TxnId, y: TxnId)
    requires IsExecution(e) && n < |e.systems| && x in e.systems[n].txns && y in e.systems[n].txns && x != y
    requires Reserving(e.systems[n].txns[x].stage) && Reserving(e.systems[n].txns[y].stage)
    ensures var s := e.systems[n].db; var stage := e.systems[n].txns[x].stage; var d, f := stage.d, e.systems[n].txns[y].stage.d;
      && d.key in s.keys && f.key in s.keys && HomeOf(s, d) in s.projects
      && HomeOf(s, d) != HomeOf(s, f) && d.key != f.key
      && EnforceBudget(SnapshotOf(RollOver(s.projects[HomeOf(s, d)], Today(ReserveTime(stage)))), d.order.tokens).None?
  {
    ExecutionInv(e, n);
    var s := e.systems[n].db;
    HoldsItsProject(s, e.systems[n].txns[x]);
    HoldsItsProject(s, e.systems[n].txns[y]);
  }

  lemma {:induction false} HoldsItsProject(s: State, t: Txn)
    requires TxnOk(s, t) && Reserving(t.stage)
    ensures var d := t.stage.d;
      && d.key in s.keys && HomeOf(s, d) in s.projects && {KeyRow(d.key), ProjectRow(HomeOf(s, d))} <= t.held
      && EnforceBudget(SnapshotOf(RollOver(s.projects[HomeOf(s, d)], Today(ReserveTime(t.stage)))), d.order.tokens).None?
  {}

  // When a submission inserts its row, no committed row and no other open transaction's row has the
  // same key and idempotency key: the unique constraint, and the conflict reply that reports it,
  // are never met.
  lemma {:induction false} InsertNeverConflicts(e: Execution, n: nat, x: TxnId, y: TxnId, i: RequestId)
    requires IsExecution(e) && n < |e.systems| && x in e.systems[n].txns && e.systems[n].txns[x].stage.Reserved?
    ensures var d := e.systems[n].txns[x].stage.d; NoDuplicate(e.systems[n].db.requests, d.key, d.idem)
    ensures y in e.systems[n].txns && y != x && i in e.systems[n].txns[y].writes.requests && i !in e.systems[n].db.requests ==>
      var d := e.systems[n].txns[x].stage.d;
      !SameIdempotency(e.systems[n].txns[y].writes.requests[i], d.key, d.idem)
  {
    ExecutionInv(e, n);
    var s := e.systems[n].db;
    assert TxnOk(s, e.systems[n].txns[x]);
    assert KeyRow(e.systems[n].txns[x].stage.d.key) in e.systems[n].txns[x].held;
    if y in e.systems[n].txns && y != x {
      TxnWrites(s, e.systems[n].txns[y]);
    }
  }
}
