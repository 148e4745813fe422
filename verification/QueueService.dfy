/** The queue operations as they run: guarded updates of the request table followed by the matching
  budget and usage updates. Each one that changes anything is one step of the protocol. */
module QueueService {
  import opened Options
  import opened Entities
  import opened Protocol
  import opened Invariants
  import opened Database
  import opened BudgetService
  import opened ClaimOrder

  lemma {:induction false} CreditIsCommit(
    s: State, id: RequestId, worker: Worker, result: Json, input: nat, output: nat, latency: nat, now: nat, u: UsageId, t: State)
    requires CommitEnabled(s, worker, id, now, u)
    requires var r := s.requests[id];
      t == Credit(Settle(s, id, Finished(r, result, input, output, now), input + output),
                  r.apiKey, u, UsageOf(id, r, worker, input, output, latency))
    ensures Next(s, Commit(worker, id, result, input, output, latency, now, u), t)
  {
    CommitIsCredit(s, worker, id, result, input, output, latency, now, u);
  }

  // A worker may report on a request that is assigned to it, has no result, and is in its hands.
  ghost predicate Holds(requests: map<RequestId, Request>, id: RequestId, w: WorkerId) {
    && id in requests && requests[id].assignedTo == Some(w) && requests[id].result == None
    && var status := requests[id].status;
       status == Assigned || status == Starting || status == Running || status == Streaming
  }

  lemma {:induction false} ClaimedIsClaim(s: State, w: Worker, locked: set<RequestId>, now: nat, id: RequestId, t: State)
    requires now <= s.clock && id in Eligible(s.requests, locked, w, now)
    requires forall j :: j in Eligible(s.requests, locked, w, now) ==> Ahead(s.requests[id], s.requests[j])
    requires t == s.(requests := s.requests[id := Claimed(s.requests[id], w.id, now, s.lease)])
    ensures Next(s, Claim(w, locked, now, id), t)
  {
    forall j | j in s.requests && j !in locked && Claimable(s.requests[j], w, now) ensures Ahead(s.requests[id], s.requests[j]) {
      assert j in Eligible(s.requests, locked, w, now);
    }
  }

  class Queue {
    const budget: Budgets

    constructor (budget: Budgets)
      ensures this.budget == budget
    {
      this.budget := budget;
    }

    // Claim the first unlocked request the worker can serve.
    method ClaimNext(db: Tables, worker: Worker, now: nat, locked: set<RequestId>) returns (claimed: Option<RequestId>)
      requires db.clock <= now
      modifies db
      ensures claimed.None? <==> forall i :: !MayClaim(old(db.requests), locked, worker, now, i)
      ensures claimed.Some? ==> OldestToClaim(old(db.requests), locked, worker, now, claimed.value)
      ensures claimed.None? ==> db.Snapshot() == old(db.At(now))
      ensures claimed.Some? ==> Next(old(db.At(now)), Claim(worker, locked, now, claimed.value), db.Snapshot())
    {
      db.clock := now;
      EligibleMayClaim(db.requests, locked, worker, now);
      var eligible := Eligible(db.requests, locked, worker, now);
      if eligible == {} {
        return None;
      }
      ghost var first := FirstExists(db.requests, eligible);
      var id: RequestId :| id in eligible && forall j :: j in eligible ==> Ahead(db.requests[id], db.requests[j]);
      var request := db.requests[id];
      request := request.(status := Assigned);
      request := request.(assignedTo := Some(worker.id));
      request := request.(leaseExpires := Some(now + db.lease));
      ghost var s := db.Snapshot();
      db.requests := db.requests[id := request];
      OldestIsOldest(s.requests, locked, worker, now, id);
      ClaimedIsClaim(s, worker, locked, now, id, db.Snapshot());
      return Some(id);
    }

    // Count a completed request for its key and add its usage record.
    method AddUsage(db: Tables, u: UsageId, record: UsageRecord)
      requires record.apiKey in db.keys
      modifies db`keys, db`usage
      ensures db.Snapshot() == Credit(old(db.Snapshot()), record.apiKey, u, record)
    {
      var key := db.keys[record.apiKey];
      var total := record.inputTokens + record.outputTokens;
      db.keys := db.keys[record.apiKey := key.(totalRequests := key.totalRequests + 1, totalTokens := key.totalTokens + total)];
      db.usage := db.usage[u := record];
    }

    // Accept a result from the worker that holds the request, once.
    method CommitResult(
      db: Tables, id: RequestId, worker: Worker, result: Json, input: nat, output: nat, latency: nat, now: nat, u: UsageId)
      returns (accepted: bool)
      requires db.Linked() && db.clock <= now && u !in db.usage
      modifies db
      ensures accepted <==> Holds(old(db.requests), id, worker.id)
      ensures !accepted ==> db.Snapshot() == old(db.At(now))
      ensures accepted ==> Next(old(db.At(now)), Commit(worker, id, result, input, output, latency, now, u), db.Snapshot())
    {
      db.clock := now;
      if !(id in db.requests && HeldBy(db.requests[id], worker.id)) {
        return false;
      }
      ghost var s := db.Snapshot();
      var row := db.requests[id];
      db.requests := db.requests[id := row.(
        status := Completed, result := Some(result), inputTokens := input, outputTokens := output,
        completedAt := Some(now), leaseExpires := None)];
      var total := input + output;
      budget.Reconcile(db, row.project, row.reserved, total, row.budgetDay, row.budgetMonth);
      AddUsage(db, u, UsageRecord(
        id, row.project, row.apiKey, worker.id, worker.provider, row.resolvedModel, input, output, latency));
      CreditIsCommit(s, id, worker, result, input, output, latency, now, u, db.Snapshot());
      return true;
    }

    // Record a worker's error: back to the queue while retries are left, otherwise final.
    method RecordError(db: Tables, id: RequestId, worker: Worker, retryable: bool, code: string, now: nat) returns (accepted: bool)
      requires db.Linked() && db.clock <= now
      modifies db
      ensures accepted <==> Holds(old(db.requests), id, worker.id)
      ensures !accepted ==> db.Snapshot() == old(db.At(now))
      ensures accepted ==> Next(old(db.At(now)), Fail(worker, id, retryable, code), db.Snapshot())
    {
      db.clock := now;
      if !(id in db.requests && HeldBy(db.requests[id], worker.id)) {
        return false;
      }
      var request := db.requests[id];
      request := request.(errorCode := Some(code), assignedTo := None, leaseExpires := None);
      if retryable && request.retryCount < request.maxRetries {
        request := request.(retryCount := request.retryCount + 1);
        request := request.(status := Queued);
        db.requests := db.requests[id := request];
        return true;
      }
      request := request.(status := FailedFinal);
      db.requests := db.requests[id := request];
      budget.Release(db, request.project, request.reserved, request.budgetDay, request.budgetMonth);
      return true;
    }
  }
}
