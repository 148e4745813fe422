/** The endpoints that act on the queue, each one transaction on tables that satisfy every
  invariant before and after it. */
module Gateway {
  import opened Options
  import opened Entities
  import opened Protocol
  import opened Invariants
  import opened ClaimOrder
  import opened Reservation
  import opened Database
  import opened BudgetRules
  import opened BudgetService
  import opened QueueService
  import opened ChatService
  import opened Recovery

  lemma {:induction false} StepAtKeepsInv(s: State, now: nat, step: Step, t: State)
    requires Inv(s) && s.clock <= now && Next(s.(clock := now), step, t)
    ensures Inv(t)
  {
    TickKeepsInv(s, now);
    StepKeepsInv(s.(clock := now), step);
  }

  lemma {:induction false} ValidIsLinked(s: State, now: nat)
    requires Inv(s) && s.clock <= now
    ensures forall k :: k in s.keys ==> s.keys[k].project in s.projects
    ensures forall i :: i in s.requests ==> s.requests[i].project in s.projects && s.requests[i].apiKey in s.keys
    ensures forall p :: p in s.projects ==> ClockReadUnderLock(s, p, now)
    ensures forall k :: k in s.keys ==> KeyReadUnderLock(s.keys[k], now)
  {
    CurrentReadings(s, now);
  }

  lemma {:induction false} RevokeShape(s: State, key: KeyId, now: nat, t: State)
    requires key in s.keys && now <= s.clock
    requires t == if s.keys[key].revokedAt.None? then s.(keys := s.keys[key := s.keys[key].(revokedAt := Some(now))]) else s
    ensures Next(s, RevokeKey(key, now), t)
  {
    assert s.keys[key := s.keys[key]] == s.keys;
  }

  class Endpoints {
    const db: Tables
    const queue: Queue
    const chat: Chat
    const recovery: LeaseRecovery

    constructor (lease: nat, projects: map<ProjectId, Project>, keys: map<KeyId, ApiKey>)
      requires Init(State(0, lease, projects, keys, map[], map[]))
      ensures fresh(db) && db.Valid() && db.Snapshot() == State(0, lease, projects, keys, map[], map[])
    {
      var budgets := new Budgets();
      queue := new Queue(budgets);
      chat := new Chat(budgets);
      recovery := new LeaseRecovery(budgets);
      db := new Tables(lease, projects, keys);
    }

    method CreateChatCompletion(c: Call, t: Times, id: RequestId) returns (reply: ChatReply)
      requires db.Valid() && id !in db.requests && SchemaValid(c.messages, c.maxTokens)
      requires db.clock <= t.begun <= t.auth <= t.reserve <= t.insert
      modifies db
      ensures db.Valid()
      ensures reply.Refused? <==> RefusalOf(old(db.At(t.insert)), c, t).Some?
      ensures reply.Refused? ==> RefusalOf(old(db.At(t.insert)), c, t) == Some(reply.refusal)
      ensures reply.Refused? ==> db.Snapshot() == old(db.At(t.insert)) && reply.refusal != OverBudget(NotPositive)
      ensures reply.Replayed? ==> Replays(old(db.At(t.insert)), c, t, reply.id, reply.reply, db.Snapshot())
      ensures reply.Accepted? ==> reply.id == id && Accepts(old(db.At(t.insert)), c, t, id, db.Snapshot())
    {
      ghost var s := db.Snapshot();
      ValidIsLinked(s, t.auth);
      ValidIsLinked(s, t.reserve);
      reply := chat.Complete(db, c, t, id);
      if {
        case reply.Refused? => TickKeepsInv(s, t.insert);
        case reply.Replayed? => StepAtKeepsInv(s, t.insert, Replay(c.key, t.auth), db.Snapshot());
        case reply.Accepted? => StepAtKeepsInv(s, t.insert, Submit(c.key, c.idem, OrderOf(c), t, id), db.Snapshot());
      }
    }

    // A worker that is not online is told that there is nothing to do.
    method PullRequest(worker: Worker, now: nat, locked: set<RequestId>) returns (claimed: Option<RequestId>)
      requires db.Valid() && db.clock <= now
      modifies db
      ensures db.Valid()
      ensures claimed.None? <==> !worker.online || forall i :: !MayClaim(old(db.requests), locked, worker, now, i)
      ensures claimed.Some? ==> OldestToClaim(old(db.requests), locked, worker, now, claimed.value)
      ensures claimed.None? ==> db.Snapshot() == old(db.At(now))
      ensures claimed.Some? ==> Next(old(db.At(now)), Claim(worker, locked, now, claimed.value), db.Snapshot())
    {
      ghost var s := db.Snapshot();
      if !worker.online {
        TickKeepsInv(s, now);
        db.clock := now;
        return None;
      }
      claimed := queue.ClaimNext(db, worker, now, locked);
      if claimed.None? {
        TickKeepsInv(s, now);
      } else {
        StepAtKeepsInv(s, now, Claim(worker, locked, now, claimed.value), db.Snapshot());
      }
    }

    method SubmitResult(id: RequestId, worker: Worker, result: Json, input: nat, output: nat, latency: nat, now: nat, u: UsageId)
      returns (accepted: bool)
      requires db.Valid() && db.clock <= now && u !in db.usage
      modifies db
      ensures db.Valid()
      ensures accepted <==> Holds(old(db.requests), id, worker.id)
      ensures !accepted ==> db.Snapshot() == old(db.At(now))
      ensures accepted ==> Next(old(db.At(now)), Commit(worker, id, result, input, output, latency, now, u), db.Snapshot())
    {
      ghost var s := db.Snapshot();
      ValidIsLinked(s, now);
      accepted := queue.CommitResult(db, id, worker, result, input, output, latency, now, u);
      if accepted {
        StepAtKeepsInv(s, now, Commit(worker, id, result, input, output, latency, now, u), db.Snapshot());
      } else {
        TickKeepsInv(s, now);
      }
    }

    method SubmitError(id: RequestId, worker: Worker, retryable: bool, code: string, now: nat) returns (accepted: bool)
      requires db.Valid() && db.clock <= now
      modifies db
      ensures db.Valid()
      ensures accepted <==> Holds(old(db.requests), id, worker.id)
      ensures !accepted ==> db.Snapshot() == old(db.At(now))
      ensures accepted ==> Next(old(db.At(now)), Fail(worker, id, retryable, code), db.Snapshot())
    {
      ghost var s := db.Snapshot();
      ValidIsLinked(s, now);
      accepted := queue.RecordError(db, id, worker, retryable, code, now);
      if accepted {
        StepAtKeepsInv(s, now, Fail(worker, id, retryable, code), db.Snapshot());
      } else {
        TickKeepsInv(s, now);
      }
    }

    // One turn of the maintenance loop.
    method RecoverLeases(now: nat) returns (retried: nat)
      requires db.Valid() && db.clock <= now
      modifies db
      ensures db.Valid()
      ensures Next(old(db.At(now)), Recover(now, old(db.requests).Keys), db.Snapshot())
      ensures retried == |Retried(old(db.requests), db.requests)|
    {
      ghost var s := db.Snapshot();
      ValidIsLinked(s, now);
      retried := recovery.RecoverExpiredLeases(db, now);
      StepAtKeepsInv(s, now, Recover(now, s.requests.Keys), db.Snapshot());
    }

    method RevokeApiKey(key: KeyId, now: nat) returns (found: bool)
      requires db.Valid() && db.clock <= now
      modifies db
      ensures db.Valid()
      ensures found <==> key in old(db.keys)
      ensures !found ==> db.Snapshot() == old(db.At(now))
      ensures found ==> Next(old(db.At(now)), RevokeKey(key, now), db.Snapshot())
    {
      ghost var s := db.Snapshot();
      TickKeepsInv(s, now);
      db.clock := now;
      if key !in db.keys {
        return false;
      }
      if db.keys[key].revokedAt.None? {
        db.keys := db.keys[key := db.keys[key].(revokedAt := Some(now))];
      }
      RevokeShape(s.(clock := now), key, now, db.Snapshot());
      StepAtKeepsInv(s, now, RevokeKey(key, now), db.Snapshot());
      return true;
    }
  }
}
