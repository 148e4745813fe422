/** One idempotency key of one API key names at most one request, one reservation and one result. */
module Idempotency {
  import opened Options
  import opened Entities
  import opened Protocol
  import opened Invariants
  import opened Runs

  // At most one request ever exists for the pair, over all states of a run.
  lemma {:induction false} OneRequest(r: Run, m: nat, n: nat, i: RequestId, j: RequestId, key: KeyId, idem: Option<string>)
    requires IsRun(r) && m <= n < |r.states|
    requires i in r.states[m].requests && SameIdempotency(r.states[m].requests[i], key, idem)
    requires j in r.states[n].requests && SameIdempotency(r.states[n].requests[j], key, idem)
    ensures i == j
  {
    RunEvolves(r, m, n);
    ReachableInv(r, n);
    assert i in r.states[n].requests && SameIdempotency(r.states[n].requests[i], key, idem);
  }

  // At most one reservation is ever made for the pair.
  lemma {:induction false} OneReservation(r: Run, n: nat, key: KeyId, idem: Option<string>)
    requires IsRun(r) && n <= |r.steps| && idem.Some?
    ensures Count(r, n, ReservationFor(key, idem)) == if NoDuplicate(r.states[n].requests, key, idem) then 0 else 1
  {
    if n == 0 {
    } else {
      OneReservation(r, n - 1, key, idem);
      assert Next(r.states[n - 1], r.steps[n - 1], r.states[n]);
      ReachableRows(r, n - 1);
      StepKeepsPairs(r.states[n - 1], r.steps[n - 1], key, idem);
    }
  }

  lemma {:induction false} StepKeepsPairs(s: State, step: Step, key: KeyId, idem: Option<string>)
    requires RowsOk(s) && Enabled(s, step) && idem.Some?
    ensures var t := Apply(s, step);
      if step.Submit? && step.key == key && step.idem == idem
      then NoDuplicate(s.requests, key, idem) && !NoDuplicate(t.requests, key, idem)
      else NoDuplicate(s.requests, key, idem) == NoDuplicate(t.requests, key, idem)
  {
    var t := Apply(s, step);
    StepEvolves(s, step);
    forall i | i in s.requests
      ensures i in t.requests && SameIdempotency(s.requests[i], key, idem) == SameIdempotency(t.requests[i], key, idem)
    {
    }
    forall i | i in t.requests && i !in s.requests
      ensures step.Submit? && SameIdempotency(t.requests[i], key, idem) == (step.key == key && step.idem == idem)
    {
      OnlySubmitsAdd(s, step, i);
    }
    if step.Submit? && step.key == key && step.idem == idem {
      assert step.id in t.requests && step.id !in s.requests;
    }
  }

  // What a client is told about a request: its result once there is one, its status until then.
  datatype Reply = WithResult(result: Json) | InProgress(status: Status)

  function ReplyFor(q: Request): Reply {
    if q.status == Completed && q.result.Some? then WithResult(q.result.value) else InProgress(q.status)
  }

  // Every reply that carries a result for the pair, whenever it is read, carries the same one.
  lemma {:induction false} SameResult(r: Run, m: nat, n: nat, i: RequestId, j: RequestId, key: KeyId, idem: Option<string>)
    requires IsRun(r) && m <= n < |r.states|
    requires i in r.states[m].requests && SameIdempotency(r.states[m].requests[i], key, idem)
    requires j in r.states[n].requests && SameIdempotency(r.states[n].requests[j], key, idem)
    requires ReplyFor(r.states[m].requests[i]).WithResult?
    ensures i == j && ReplyFor(r.states[n].requests[j]) == ReplyFor(r.states[m].requests[i])
  {
    OneRequest(r, m, n, i, j, key, idem);
    RunEvolves(r, m, n);
  }

  lemma {:induction false} RevokedKeyGetsNoRow(s: State, step: Step, key: KeyId, i: RequestId)
    requires Enabled(s, step) && key in s.keys && s.keys[key].revokedAt.Some?
    requires i !in s.requests && i in Apply(s, step).requests
    ensures Apply(s, step).requests[i].apiKey != key
  {
    OnlySubmitsAdd(s, step, i);
  }

  // After its key has been revoked no request is added for it.
  lemma {:induction false} RevokedKeyAddsNothing(r: Run, m: nat, n: nat, key: KeyId, i: RequestId)
    requires IsRun(r) && m <= n < |r.states| && key in r.states[m].keys && r.states[m].keys[key].revokedAt.Some?
    requires i in r.states[n].requests && r.states[n].requests[i].apiKey == key
    ensures i in r.states[m].requests
    decreases n
  {
    if m == n {
    } else {
      RunEvolves(r, m, n - 1);
      assert Next(r.states[n - 1], r.steps[n - 1], r.states[n]);
      if i !in r.states[n - 1].requests {
        RevokedKeyGetsNoRow(r.states[n - 1], r.steps[n - 1], key, i);
        assert false;
      }
      LastStep(r, n, i);
      RevokedKeyAddsNothing(r, m, n - 1, key, i);
    }
  }
}
