/** What a recovery pass achieves while other transactions go on around it. */
module Drain {
  import opened Entities
  import opened Protocol
  import opened Invariants
  import opened Sums
  import opened Interleaving
  import opened Isolation
  import opened Concurrency
  import opened Accounting

  // Transaction x is one recovery pass with clock reading `now`, begun by move a and committed by
  // move b.
  ghost predicate PassFrom(e: Execution, a: nat, b: nat, x: TxnId, now: nat) {
    && IsExecution(e) && a < b < |e.moves|
    && e.moves[a] == BeginRecovery(x, now) && e.moves[b] == Move.Commit(x)
    && forall k :: a < k < b ==> e.moves[k] != Move.Commit(x) && e.moves[k] != Abort(x)
  }

  // No other transaction commits a change to request i between the two.
  ghost predicate Steady(e: Execution, a: nat, b: nat, i: RequestId)
    requires a <= b < |e.systems|
  {
    && i in e.systems[a].db.requests
    && forall k :: a <= k <= b ==> i in e.systems[k].db.requests && e.systems[k].db.requests[i] == e.systems[a].db.requests[i]
  }

  // No other transaction locks it.
  ghost predicate LeftAlone(e: Execution, a: nat, b: nat, x: TxnId, i: RequestId)
    requires a <= b < |e.systems|
  {
    forall k, y :: a <= k <= b && y in e.systems[k].txns && y != x ==> RequestRow(i) !in e.systems[k].txns[y].held
  }

  // Update v is still to come to row i, or has nothing left to do there.
  ghost predicate UpdateDone(s: State, t: Txn, i: RequestId, v: nat)
    requires t.stage.Recovering? && i in s.requests
  {
    || t.stage.update < v
    || (t.stage.update == v && i in t.stage.due)
    || !UpdateMatches(v, OwnRequest(s, t.writes, i), t.stage.now)
  }

  ghost predicate Progress(s: State, t: Txn, i: RequestId, now: nat) {
    && t.stage.Recovering? && t.stage.now == now && t.stage.update >= 1 && i in s.requests
    && UpdateDone(s, t, i, 1) && UpdateDone(s, t, i, 2) && UpdateDone(s, t, i, 3)
  }

  // Once changed by an update, a row matches neither it nor one before it.
  lemma {:induction false} UpdatedMatchesNoMore(r: Request, update: nat, now: nat)
    requires 1 <= update <= 3 && UpdateMatches(update, r, now)
    ensures forall v :: 1 <= v <= update ==> !UpdateMatches(v, Updated(update, r, now), now)
  {}

  lemma {:induction false} VisitProgresses(s: State, t: Txn, id: RequestId, i: RequestId, now: nat)
    requires Progress(s, t, i, now) && id in t.stage.due && id in s.requests
    ensures Progress(s,
      if UpdateMatches(t.stage.update, OwnRequest(s, t.writes, id), t.stage.now) then RowUpdated(s, t, id)
      else t.(stage := t.stage.(due := t.stage.due - {id})), i, now)
  {
    if 1 <= t.stage.update <= 3 && UpdateMatches(t.stage.update, OwnRequest(s, t.writes, id), now) {
      UpdatedMatchesNoMore(OwnRequest(s, t.writes, id), t.stage.update, now);
    }
  }

  lemma {:induction false} NextUpdateProgresses(s: State, t: Txn, i: RequestId, now: nat)
    requires Progress(s, t, i, now) && t.stage.due == {}
    ensures Progress(s,
      t.(stage := t.stage.(update := t.stage.update + 1, due := Matching(s, t.writes, t.stage.update + 1, t.stage.now))), i, now)
  {
    var due := Matching(s, t.writes, t.stage.update + 1, t.stage.now);
    assert i in due <==> UpdateMatches(t.stage.update + 1, OwnRequest(s, t.writes, i), now);
  }

  // No move but its own end takes the pass back.
  lemma {:induction false} MoveProgresses(sys: System, m: Move, x: TxnId, i: RequestId, now: nat)
    requires MoveEnabled(sys, m) && m != Move.Commit(x) && m != Abort(x)
    requires x in sys.txns && Progress(sys.db, sys.txns[x], i, now)
    requires i in Do(sys, m).db.requests && Do(sys, m).db.requests[i] == sys.db.requests[i]
    ensures x in Do(sys, m).txns && Progress(Do(sys, m).db, Do(sys, m).txns[x], i, now)
  {
    if Inner(m) && m.x == x {
      match m
      case RecoverRow(_, id) => VisitProgresses(sys.db, sys.txns[x], id, i, now);
      case NextUpdate(_) => NextUpdateProgresses(sys.db, sys.txns[x], i, now);
      case _ =>
    }
  }

  lemma {:induction false} BeginProgresses(sys: System, x: TxnId, i: RequestId, now: nat)
    requires MoveEnabled(sys, BeginRecovery(x, now)) && i in sys.db.requests
    ensures var next := Do(sys, BeginRecovery(x, now));
      next.db == sys.db && x in next.txns && Progress(next.db, next.txns[x], i, now)
  {
    var due := Matching(sys.db, NOTHING, 1, now);
    assert i in due <==> UpdateMatches(1, sys.db.requests[i], now);
  }

  ghost predicate Going(sys: System, x: TxnId, i: RequestId, now: nat) {
    x in sys.txns && Progress(sys.db, sys.txns[x], i, now)
  }

  lemma {:induction false} PassBegins(e: Execution, a: nat, x: TxnId, i: RequestId, now: nat)
    requires IsExecution(e) && a < |e.moves| && e.moves[a] == BeginRecovery(x, now) && i in e.systems[a].db.requests
    ensures Going(e.systems[a + 1], x, i, now)
  {
    BeginProgresses(e.systems[a], x, i, now);
  }

  ghost predicate GoesOn(e: Execution, n: nat, x: TxnId, i: RequestId, now: nat)
    requires n + 1 < |e.systems|
  {
    Going(e.systems[n], x, i, now) ==> Going(e.systems[n + 1], x, i, now)
  }

  lemma {:induction false} PassGoesOn(e: Execution, a: nat, b: nat, x: TxnId, i: RequestId, n: nat, now: nat)
    requires PassFrom(e, a, b, x, now) && Steady(e, a, b, i) && a < n < b
    ensures GoesOn(e, n, x, i, now)
  {
    assert e.systems[n].db.requests[i] == e.systems[n + 1].db.requests[i];
    if Going(e.systems[n], x, i, now) {
      MoveProgresses(e.systems[n], e.moves[n], x, i, now);
    }
  }

  lemma {:induction false} KeepsGoing(e: Execution, m: nat, n: nat, x: TxnId, i: RequestId, now: nat)
    requires m <= n < |e.systems| && Going(e.systems[m], x, i, now)
    requires forall k :: m <= k < n ==> GoesOn(e, k, x, i, now)
    ensures Going(e.systems[n], x, i, now)
    decreases n
  {
    if m == n {
    } else {
      KeepsGoing(e, m, n - 1, x, i, now);
      assert GoesOn(e, n - 1, x, i, now);
    }
  }

  lemma {:induction false} PassProgresses(e: Execution, a: nat, b: nat, x: TxnId, i: RequestId, now: nat)
    requires PassFrom(e, a, b, x, now) && Steady(e, a, b, i)
    ensures Going(e.systems[b], x, i, now)
  {
    forall k | a + 1 <= k < b ensures GoesOn(e, k, x, i, now) {
      PassGoesOn(e, a, b, x, i, k, now);
    }
    PassBegins(e, a, x, i, now);
    KeepsGoing(e, a + 1, b, x, i, now);
  }

  // A row in order that is overdue and matches no update has ended.
  lemma {:induction false} SettledHasEnded(r: Request, now: nat, lease: nat)
    requires RowOk(r, lease) && lease >= 1 && r.expiresAt + lease <= now
    requires forall v :: 1 <= v <= 3 ==> !UpdateMatches(v, r, now)
    ensures Terminal(r)
  {
    assert !UpdateMatches(1, r, now) && !UpdateMatches(2, r, now) && !UpdateMatches(3, r, now);
  }

  // A committed pass ends every request that was overdue by the lease length when it began, unless
  // another transaction has meanwhile committed a change to it.
  lemma {:induction false} PassEndsOverdue(e: Execution, a: nat, b: nat, x: TxnId, i: RequestId, now: nat)
    requires PassFrom(e, a, b, x, now) && Steady(e, a, b, i)
    requires e.systems[a].db.requests[i].expiresAt + e.systems[a].db.lease <= now
    ensures i in e.systems[b + 1].db.requests && Terminal(e.systems[b + 1].db.requests[i])
  {
    var sys, t := e.systems[b], e.systems[b].txns[x];
    PassProgresses(e, a, b, x, i, now);
    assert MoveEnabled(sys, e.moves[b]) && e.systems[b + 1] == Do(sys, e.moves[b]);
    ExecutionInv(e, b);
    ExecutionInv(e, b + 1);
    SameLease(e, a, b);
    PassPublishes(sys, t, i, now);
  }

  lemma {:induction false} PassPublishes(sys: System, t: Txn, i: RequestId, now: nat)
    requires Progress(sys.db, t, i, now) && Committable(t) && TxnOk(sys.db, t) && RowsOk(Overlay(sys.db, t.writes))
    requires sys.db.requests[i].expiresAt + sys.db.lease <= now
    ensures i in Overlay(sys.db, t.writes).requests && Terminal(Overlay(sys.db, t.writes).requests[i])
  {
    var own := OwnRequest(sys.db, t.writes, i);
    assert Overlay(sys.db, t.writes).requests[i] == own;
    OwnTerms(sys.db, t, i);
    NothingLeft(sys.db, t, i, now);
    SettledHasEnded(own, now, sys.db.lease);
  }

  lemma {:induction false} OwnTerms(s: State, t: Txn, i: RequestId)
    requires TxnOk(s, t) && i in s.requests
    ensures OwnRequest(s, t.writes, i).expiresAt == s.requests[i].expiresAt
  {
    TxnWrites(s, t);
  }

  lemma {:induction false} NothingLeft(s: State, t: Txn, i: RequestId, now: nat)
    requires Progress(s, t, i, now) && Committable(t)
    ensures forall v :: 1 <= v <= 3 ==> !UpdateMatches(v, OwnRequest(s, t.writes, i), now)
  {
    assert UpdateDone(s, t, i, 1) && UpdateDone(s, t, i, 2) && UpdateDone(s, t, i, 3);
  }

  lemma {:induction false} SameLease(e: Execution, a: nat, b: nat)
    requires IsExecution(e) && a <= b < |e.systems|
    ensures e.systems[b].db.lease == e.systems[a].db.lease
    decreases b
  {
    if a == b {
    } else {
      SameLease(e, a, b - 1);
      assert MoveEnabled(e.systems[b - 1], e.moves[b - 1]) && e.systems[b] == Do(e.systems[b - 1], e.moves[b - 1]);
    }
  }

  // A request no other transaction locks stays as it is: only a holder's commit could change it.
  lemma {:induction false} LeftAloneIsSteady(e: Execution, a: nat, b: nat, x: TxnId, i: RequestId, n: nat, now: nat)
    requires PassFrom(e, a, b, x, now) && LeftAlone(e, a, b, x, i) && a <= n <= b && i in e.systems[a].db.requests
    ensures i in e.systems[n].db.requests && e.systems[n].db.requests[i] == e.systems[a].db.requests[i]
    decreases n
  {
    if n == a {
    } else {
      LeftAloneIsSteady(e, a, b, x, i, n - 1, now);
      ExecutionInv(e, n - 1);
      MoveLeavesAlone(e.systems[n - 1], e.moves[n - 1], x, i);
    }
  }

  lemma {:induction false} MoveLeavesAlone(sys: System, m: Move, x: TxnId, i: RequestId)
    requires TxnsOk(sys.db, sys.txns) && MoveEnabled(sys, m) && m != Move.Commit(x) && i in sys.db.requests
    requires forall y :: y in sys.txns && y != x ==> RequestRow(i) !in sys.txns[y].held
    ensures i in Do(sys, m).db.requests && Do(sys, m).db.requests[i] == sys.db.requests[i]
  {
    if m.Commit? {
      TxnWrites(sys.db, sys.txns[m.x]);
    }
  }

  // In particular it ends every overdue request that no other transaction locks.
  lemma {:induction false} PassEndsUnlocked(e: Execution, a: nat, b: nat, x: TxnId, i: RequestId, now: nat)
    requires PassFrom(e, a, b, x, now) && LeftAlone(e, a, b, x, i) && i in e.systems[a].db.requests
    requires e.systems[a].db.requests[i].expiresAt + e.systems[a].db.lease <= now
    ensures i in e.systems[b + 1].db.requests && Terminal(e.systems[b + 1].db.requests[i])
  {
    forall n | a <= n <= b
      ensures i in e.systems[n].db.requests && e.systems[n].db.requests[i] == e.systems[a].db.requests[i]
    {
      LeftAloneIsSteady(e, a, b, x, i, n, now);
    }
    PassEndsOverdue(e, a, b, x, i, now);
  }

  // If that was all a project had left, the pass leaves its counters equal to its usage records.
  lemma {:induction false} PassLeavesUsage(e: Execution, a: nat, b: nat, x: TxnId, p: ProjectId, now: nat)
    requires PassFrom(e, a, b, x, now) && p in e.systems[b + 1].db.projects
    requires forall i :: i in e.systems[b + 1].db.requests && e.systems[b + 1].db.requests[i].project == p ==>
      Terminal(e.systems[b + 1].db.requests[i]) ||
      (Steady(e, a, b, i) && e.systems[a].db.requests[i].expiresAt + e.systems[a].db.lease <= now)
    ensures var s := e.systems[b + 1].db;
      && Drained(s, p)
      && s.projects[p].dailyUsed == Total(s.usage, UsedOnDay(s.requests, p, s.projects[p].dailyDate))
      && s.projects[p].monthlyUsed == Total(s.usage, UsedInMonth(s.requests, p, s.projects[p].monthlyMonth))
  {
    var s := e.systems[b + 1].db;
    forall i | i in s.requests && s.requests[i].project == p ensures Terminal(s.requests[i]) {
      if !Terminal(s.requests[i]) {
        PassEndsOverdue(e, a, b, x, i, now);
      }
    }
    ExecutionInv(e, b + 1);
    DrainedMatchesUsage(s, p);
  }
}
