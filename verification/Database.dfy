/** The tables as one mutable object, and the part of a session that undoes a failed transaction. */
module Database {
  import opened Entities
  import opened Protocol
  import opened Invariants

  class Tables {
    const lease: nat
    var clock: nat
    var projects: map<ProjectId, Project>
    var keys: map<KeyId, ApiKey>
    var requests: map<RequestId, Request>
    var usage: map<UsageId, UsageRecord>

    function Snapshot(): State
      reads this
    {
      State(clock, lease, projects, keys, requests, usage)
    }

    // The tables as a transaction that read the clock last at `now` finds them.
    function At(now: nat): State
      reads this
    {
      Snapshot().(clock := now)
    }

    ghost predicate Valid()
      reads this
    {
      Inv(Snapshot())
    }

    // The foreign keys of the key and request tables.
    ghost predicate Linked()
      reads this
    {
      && (forall k :: k in keys ==> keys[k].project in projects)
      && forall i :: i in requests ==> requests[i].project in projects && requests[i].apiKey in keys
    }

    constructor (lease: nat, projects: map<ProjectId, Project>, keys: map<KeyId, ApiKey>)
      requires Init(State(0, lease, projects, keys, map[], map[]))
      ensures Snapshot() == State(0, lease, projects, keys, map[], map[]) && Valid()
    {
      this.lease := lease;
      clock := 0;
      this.projects := projects;
      this.keys := keys;
      requests := map[];
      usage := map[];
      new;
      InitialInv(Snapshot());
    }

    // Session rollback: every table is as it was when the transaction began.
    method Rollback(saved: State)
      requires saved.lease == lease && saved.clock <= clock
      modifies this
      ensures Snapshot() == saved.(clock := old(clock))
    {
      projects := saved.projects;
      keys := saved.keys;
      requests := saved.requests;
      usage := saved.usage;
    }
  }
}
