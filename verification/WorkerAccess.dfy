/** Worker identity and queue together: what a worker can still do to the queue once it is revoked.

  A worker's call authenticates with a plain read and then does its work in the same transaction,
  without looking at the worker row again. A revocation may commit in between. */
module WorkerAccess {
  import opened Options
  import opened Isolation
  import opened Concurrency
  import W = WorkerIdentity
  import Q = Interleaving

  type WorkerId = W.WorkerId
  type TxnId = Q.TxnId

  // The registry, the queue, and the worker calls that have authenticated and not ended: the
  // transaction each runs in, and the worker it speaks for.
  datatype World = World(registry: W.System, queue: Q.System, sessions: map<TxnId, WorkerId>)

  datatype Act =
    | Identity(w: W.Move)
    | Login(x: TxnId, worker: WorkerId, jti: W.Jti)
    | Leave(x: TxnId)
    | Queue(q: Q.Move)

  // The worker a queue transaction works for, if it is a worker's.
  function WorkerOf(stage: Q.Stage): Option<WorkerId> {
    match stage
    case Pulled(w, _, _) => Some(w.id)
    case ResultWritten(r) => Some(r.worker.id)
    case ResultSettled(r) => Some(r.worker.id)
    case ResultCredited(r, _) => Some(r.worker.id)
    case ErrorWritten(f) => Some(f.worker.id)
    case ErrorSettled(f) => Some(f.worker.id)
    case _ => None
  }

  // A first move of a worker's transaction needs a session of that worker; one of any other
  // transaction must not use a worker's.
  predicate MayBegin(sessions: map<TxnId, WorkerId>, m: Q.Move) {
    match m
    case Pull(x, w, _, _) => x in sessions && sessions[x] == w.id
    case WriteResult(x, r) => x in sessions && sessions[x] == r.worker.id
    case WriteError(x, f) => x in sessions && sessions[x] == f.worker.id
    case Authenticate(x, _, _, _, _) => x !in sessions
    case BeginRecovery(x, _) => x !in sessions
    case Revoke(x, _) => x !in sessions
    case _ => true
  }

  ghost predicate ActEnabled(s: World, a: Act) {
    match a
    case Identity(m) => W.MoveEnabled(s.registry, m)
    case Login(x, w, jti) => x !in s.sessions && x !in s.queue.txns && W.Authenticates(s.registry.db, w, jti)
    case Leave(x) => x in s.sessions && x !in s.queue.txns
    case Queue(m) => Q.MoveEnabled(s.queue, m) && MayBegin(s.sessions, m)
  }

  ghost function Perform(s: World, a: Act): World
    requires ActEnabled(s, a)
  {
    match a
    case Identity(m) => s.(registry := W.Do(s.registry, m))
    case Login(x, w, _) => s.(sessions := s.sessions[x := w])
    case Leave(x) => s.(sessions := s.sessions - {x})
    case Queue(m) =>
      s.(queue := Q.Do(s.queue, m), sessions := if m.Commit? || m.Abort? then s.sessions - {m.x} else s.sessions)
  }

  // ---------------------------------------------------------------- both systems stay in order

  ghost predicate SessionsOk(s: World) {
    forall x :: x in s.queue.txns && WorkerOf(s.queue.txns[x].stage).Some? ==>
      x in s.sessions && WorkerOf(s.queue.txns[x].stage) == Some(s.sessions[x])
  }

  ghost predicate WorldOk(s: World) {
    W.SystemOk(s.registry) && SystemInv(s.queue) && SessionsOk(s)
  }

  lemma {:induction false} MovedKeepsWorker(sys: Q.System, sessions: map<TxnId, WorkerId>, m: Q.Move)
    requires Q.MoveEnabled(sys, m) && Inner(m) && MayBegin(sessions, m)
    requires m.x in sys.txns && WorkerOf(sys.txns[m.x].stage).Some? ==>
      m.x in sessions && WorkerOf(sys.txns[m.x].stage) == Some(sessions[m.x])
    ensures WorkerOf(Q.Moved(sys, m).stage).Some? ==> m.x in sessions && WorkerOf(Q.Moved(sys, m).stage) == Some(sessions[m.x])
  {}

  lemma {:induction false} ActKeepsSessions(s: World, a: Act)
    requires SessionsOk(s) && ActEnabled(s, a)
    ensures SessionsOk(Perform(s, a))
  {
    if a.Queue? && Inner(a.q) {
      MovedKeepsWorker(s.queue, s.sessions, a.q);
    }
  }

  lemma {:induction false} ActKeepsWorld(s: World, a: Act)
    requires WorldOk(s) && ActEnabled(s, a)
    ensures WorldOk(Perform(s, a))
  {
    ActKeepsSessions(s, a);
    match a
    case Identity(m) => W.MoveKeepsSystem(s.registry, m);
    case Queue(m) => MoveKeepsSystem(s.queue, m);
    case _ =>
  }

  // ---------------------------------------------------------------- runs

  ghost predicate IsRun(run: seq<World>, acts: seq<Act>) {
    && |run| == |acts| + 1 && WorldOk(run[0])
    && forall n :: 0 <= n < |acts| ==> ActEnabled(run[n], acts[n]) && run[n + 1] == Perform(run[n], acts[n])
  }

  lemma {:induction false} RunOk(run: seq<World>, acts: seq<Act>, n: nat)
    requires IsRun(run, acts) && n < |run|
    ensures WorldOk(run[n])
  {
    if n == 0 {
    } else {
      RunOk(run, acts, n - 1);
      ActKeepsWorld(run[n - 1], acts[n - 1]);
    }
  }

  ghost predicate RevokedIn(s: World, w: WorkerId) {
    w in s.registry.db.workers && s.registry.db.workers[w].revokedAt.Some?
  }

  ghost function SessionsOf(s: World, w: WorkerId): set<TxnId> {
    set x | x in s.sessions && s.sessions[x] == w
  }

  // This act commits work of that worker: a claim, a result or an error.
  ghost predicate CommitsFor(s: World, a: Act, w: WorkerId) {
    a.Queue? && a.q.Commit? && a.q.x in s.queue.txns && WorkerOf(s.queue.txns[a.q.x].stage) == Some(w)
  }

  lemma {:induction false} RevokedStays(s: World, a: Act, w: WorkerId)
    requires W.SystemOk(s.registry) && ActEnabled(s, a) && RevokedIn(s, w)
    ensures RevokedIn(Perform(s, a), w)
  {
    if a.Identity? {
      W.MoveKeepsSystem(s.registry, a.w);
      assert W.RowEvolves(s.registry.db, W.Do(s.registry, a.w).db, w);
    }
  }

  // A revoked worker gains no session, and each commit uses one up.
  lemma {:induction false} SessionsShrink(s: World, a: Act, w: WorkerId)
    requires SessionsOk(s) && ActEnabled(s, a) && RevokedIn(s, w)
    ensures SessionsOf(Perform(s, a), w) <= SessionsOf(s, w)
    ensures CommitsFor(s, a, w) ==> a.q.x in SessionsOf(s, w) && a.q.x !in SessionsOf(Perform(s, a), w)
  {}

  ghost function Commits(run: seq<World>, acts: seq<Act>, m: nat, n: nat, w: WorkerId): nat
    requires m <= n <= |acts| < |run|
  {
    if n == m then 0 else Commits(run, acts, m, n - 1, w) + if CommitsFor(run[n - 1], acts[n - 1], w) then 1 else 0
  }

  ghost predicate Shrinks(s: World, a: Act, t: World, w: WorkerId) {
    RevokedIn(s, w) ==>
      && RevokedIn(t, w) && SessionsOf(t, w) <= SessionsOf(s, w)
      && (if CommitsFor(s, a, w) then 1 else 0) + |SessionsOf(t, w)| <= |SessionsOf(s, w)|
  }

  lemma {:induction false} ActShrinks(s: World, a: Act, w: WorkerId)
    requires WorldOk(s) && ActEnabled(s, a)
    ensures Shrinks(s, a, Perform(s, a), w)
  {
    if RevokedIn(s, w) {
      RevokedStays(s, a, w);
      SessionsShrink(s, a, w);
      Smaller(SessionsOf(s, w), SessionsOf(Perform(s, a), w), if CommitsFor(s, a, w) then a.q.x else 0);
    }
  }

  lemma {:induction false} RunShrinks(run: seq<World>, acts: seq<Act>, n: nat, w: WorkerId)
    requires IsRun(run, acts) && n < |acts|
    ensures Shrinks(run[n], acts[n], run[n + 1], w)
  {
    RunOk(run, acts, n);
    ActShrinks(run[n], acts[n], w);
  }

  lemma {:induction false} ShrinksOn(run: seq<World>, acts: seq<Act>, m: nat, n: nat, w: WorkerId)
    requires m <= n <= |acts| < |run| && RevokedIn(run[m], w)
    requires forall k :: m <= k < n ==> Shrinks(run[k], acts[k], run[k + 1], w)
    ensures RevokedIn(run[n], w) && SessionsOf(run[n], w) <= SessionsOf(run[m], w)
    ensures Commits(run, acts, m, n, w) + |SessionsOf(run[n], w)| <= |SessionsOf(run[m], w)|
    decreases n
  {
    if n == m {
    } else {
      ShrinksOn(run, acts, m, n - 1, w);
      assert Shrinks(run[n - 1], acts[n - 1], run[n], w);
    }
  }

  // Once a worker is revoked, all it can still commit is the work of calls that had authenticated
  // before: at most one commit for each of them.
  lemma {:induction false} CommitsAfterRevocation(run: seq<World>, acts: seq<Act>, m: nat, n: nat, w: WorkerId)
    requires IsRun(run, acts) && m <= n <= |acts| && RevokedIn(run[m], w)
    ensures RevokedIn(run[n], w) && SessionsOf(run[n], w) <= SessionsOf(run[m], w)
    ensures Commits(run, acts, m, n, w) + |SessionsOf(run[n], w)| <= |SessionsOf(run[m], w)|
  {
    forall k | m <= k < n ensures Shrinks(run[k], acts[k], run[k + 1], w) {
      RunShrinks(run, acts, k, w);
    }
    ShrinksOn(run, acts, m, n, w);
  }

  lemma {:induction false} Smaller(a: set<TxnId>, b: set<TxnId>, x: TxnId)
    requires b <= a
    ensures |b| <= |a| && (x in a && x !in b ==> |b| + 1 <= |a|)
  {
    var rest := a - b;
    assert a == b + rest;
    if x in a && x !in b {
      assert x in rest;
    }
  }

  // In particular a claim, a result or an error that commits after the revocation belongs to a call
  // that was already open when it committed.
  lemma {:induction false} LateCommitWasOpen(run: seq<World>, acts: seq<Act>, m: nat, n: nat, w: WorkerId)
    requires IsRun(run, acts) && m <= n < |acts| && RevokedIn(run[m], w) && CommitsFor(run[n], acts[n], w)
    ensures acts[n].q.x in SessionsOf(run[m], w)
  {
    CommitsAfterRevocation(run, acts, m, n, w);
    RunOk(run, acts, n);
    SessionsShrink(run[n], acts[n], w);
  }

  // And such a call is not stopped: as long as it is open it can claim a request, and then commit
  // the claim, whatever the registry says by then.
  lemma {:induction false} OpenCallStillPulls(s: World, pull: Q.Move)
    requires pull.Pull? && pull.x in s.sessions && s.sessions[pull.x] == pull.worker.id && Q.MoveEnabled(s.queue, pull)
    ensures ActEnabled(s, Queue(pull))
    ensures var t := Perform(s, Queue(pull));
      && t.registry == s.registry && t.sessions == s.sessions && pull.x in t.queue.txns
      && t.queue.txns[pull.x].stage == Q.Pulled(pull.worker, pull.now, pull.id)
  {}

  lemma {:induction false} OpenCallStillCommits(s: World, x: TxnId)
    requires x in s.queue.txns && s.queue.txns[x].stage.Pulled? && TxnOk(s.queue.db, s.queue.txns[x])
    ensures ActEnabled(s, Queue(Q.Commit(x)))
    ensures var p := s.queue.txns[x].stage; var db := Perform(s, Queue(Q.Commit(x))).queue.db;
      && p.id in db.requests && db.requests[p.id].assignedTo == Some(p.worker.id) && db.requests[p.id].status.Assigned?
  {}

  // A call that begins after the revocation does not get as far.
  lemma {:induction false} NoLoginAfterRevocation(run: seq<World>, acts: seq<Act>, m: nat, n: nat, w: WorkerId, x: TxnId, jti: W.Jti)
    requires IsRun(run, acts) && m <= n < |run| && RevokedIn(run[m], w)
    ensures !ActEnabled(run[n], Login(x, w, jti))
  {
    CommitsAfterRevocation(run, acts, m, n, w);
  }
}
