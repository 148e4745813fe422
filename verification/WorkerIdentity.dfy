/** Worker enrollment, token rotation and revocation, as interleaved transactions.

  Registration and revocation lock the row they change before they read it. A renewal authenticates
  with a plain read and only later locks and writes the worker row, so a revocation, or another
  renewal, may commit in between. */
module WorkerIdentity {
  import opened Options

  type WorkerId = nat
  type TokenId = string
  type Jti = nat
  type TxnId = nat

  datatype Enrollment = Enrollment(expiresAt: nat, consumedAt: Option<nat>)
  datatype Identity = Identity(tokenJti: Option<Jti>, revokedAt: Option<nat>)

  // The two tables, with what they do not record: the token each worker was enrolled with, and
  // every JTI that has ever been stored.
  datatype Registry = Registry(
    clock: nat, tokens: map<TokenId, Enrollment>, workers: map<WorkerId, Identity>,
    origin: map<WorkerId, TokenId>, stored: set<Jti>)

  datatype Open =
    | Registering(token: TokenId, worker: WorkerId, jti: Jti, now: nat)
    | RenewalRead(worker: WorkerId, jti: Jti)
    | RenewalWritten(worker: WorkerId, jti: Jti)
    | Revoking(worker: WorkerId, now: nat)

  datatype System = System(db: Registry, open: map<TxnId, Open>)

  // ---------------------------------------------------------------- the rules

  predicate Enrollable(db: Registry, token: TokenId, now: nat) {
    token in db.tokens && db.tokens[token].consumedAt.None? && db.tokens[token].expiresAt > now
  }

  predicate Authenticates(db: Registry, w: WorkerId, jti: Jti) {
    w in db.workers && db.workers[w].revokedAt.None? && db.workers[w].tokenJti == Some(jti)
  }

  function Registered(db: Registry, token: TokenId, w: WorkerId, jti: Jti, now: nat): Registry {
    db.(tokens := if token in db.tokens then db.tokens[token := db.tokens[token].(consumedAt := Some(now))] else db.tokens,
        workers := db.workers[w := Identity(Some(jti), None)],
        origin := db.origin[w := token], stored := db.stored + {jti})
  }

  // An update of a row that is not there changes nothing.
  function Renewed(db: Registry, w: WorkerId, jti: Jti): Registry {
    if w !in db.workers then db else
      db.(workers := db.workers[w := db.workers[w].(tokenJti := Some(jti))], stored := db.stored + {jti})
  }

  // The time already set, or else now.
  function FirstOf(at: Option<nat>, now: nat): (first: Option<nat>)
    ensures first == Some(if at == None then now else at.value)
  {
    if at.Some? then at else Some(now)
  }

  function Revoked(db: Registry, w: WorkerId, now: nat): Registry {
    if w !in db.workers then db else
      db.(workers := db.workers[w := Identity(None, FirstOf(db.workers[w].revokedAt, now))])
  }

  // ---------------------------------------------------------------- moves

  predicate LocksToken(o: Open, token: TokenId) {
    o.Registering? && o.token == token
  }

  predicate LocksWorker(o: Open, w: WorkerId) {
    (o.RenewalWritten? || o.Revoking?) && o.worker == w
  }

  predicate Issues(o: Open, jti: Jti) {
    (o.Registering? || o.RenewalRead? || o.RenewalWritten?) && o.jti == jti
  }

  ghost predicate FreshJti(sys: System, jti: Jti) {
    jti !in sys.db.stored && forall y :: y in sys.open ==> !Issues(sys.open[y], jti)
  }

  datatype Move =
    | Tick(to: nat)
    | Abort(x: TxnId)
    | Commit(x: TxnId)
    | BeginRegister(x: TxnId, token: TokenId, worker: WorkerId, jti: Jti)
    | BeginRenew(x: TxnId, worker: WorkerId, presented: Jti, jti: Jti)
    | WriteRenew(x: TxnId)
    | BeginRevoke(x: TxnId, worker: WorkerId)

  ghost predicate MoveEnabled(sys: System, m: Move) {
    match m
    case Tick(to) => sys.db.clock <= to
    case Abort(x) => x in sys.open
    case Commit(x) => x in sys.open && !sys.open[x].RenewalRead?
    case BeginRegister(x, token, w, jti) =>
      && x !in sys.open && Enrollable(sys.db, token, sys.db.clock) && FreshJti(sys, jti)
      && (forall y :: y in sys.open ==> !LocksToken(sys.open[y], token))
      && w !in sys.db.workers && (forall y :: y in sys.open && sys.open[y].Registering? ==> sys.open[y].worker != w)
    case BeginRenew(x, w, presented, jti) =>
      x !in sys.open && Authenticates(sys.db, w, presented) && FreshJti(sys, jti)
    case WriteRenew(x) =>
      && x in sys.open && sys.open[x].RenewalRead?
      && (forall y :: y in sys.open ==> !LocksWorker(sys.open[y], sys.open[x].worker))
    case BeginRevoke(x, w) =>
      x !in sys.open && w in sys.db.workers && (forall y :: y in sys.open ==> !LocksWorker(sys.open[y], w))
  }

  function Committed(db: Registry, o: Open): Registry {
    match o
    case Registering(token, w, jti, now) => Registered(db, token, w, jti, now)
    case RenewalRead(_, _) => db
    case RenewalWritten(w, jti) => Renewed(db, w, jti)
    case Revoking(w, now) => Revoked(db, w, now)
  }

  ghost function Do(sys: System, m: Move): System
    requires MoveEnabled(sys, m)
  {
    match m
    case Tick(to) => sys.(db := sys.db.(clock := to))
    case Abort(x) => sys.(open := sys.open - {x})
    case Commit(x) => System(Committed(sys.db, sys.open[x]), sys.open - {x})
    case BeginRegister(x, token, w, jti) => sys.(open := sys.open[x := Registering(token, w, jti, sys.db.clock)])
    case BeginRenew(x, w, presented, jti) => sys.(open := sys.open[x := RenewalRead(w, jti)])
    case WriteRenew(x) => sys.(open := sys.open[x := RenewalWritten(sys.open[x].worker, sys.open[x].jti)])
    case BeginRevoke(x, w) => sys.(open := sys.open[x := Revoking(w, sys.db.clock)])
  }

  // ---------------------------------------------------------------- invariants

  predicate OpenOk(db: Registry, o: Open) {
    match o
    case Registering(token, w, jti, now) =>
      token in db.tokens && db.tokens[token].consumedAt.None? && w !in db.workers && jti !in db.stored
    case RenewalRead(w, jti) => w in db.workers && jti !in db.stored
    case RenewalWritten(w, jti) => w in db.workers && jti !in db.stored
    case Revoking(w, now) => w in db.workers
  }

  ghost predicate Apart(o: Open, p: Open) {
    && (o.Registering? && p.Registering? ==> o.token != p.token && o.worker != p.worker)
    && (!o.Revoking? && !p.Revoking? ==> o.jti != p.jti)
  }

  // A worker's row was enrolled with a spent token, and its JTI is on record.
  ghost predicate RowOk(db: Registry, w: WorkerId)
    requires w in db.workers && w in db.origin
  {
    && db.origin[w] in db.tokens && db.tokens[db.origin[w]].consumedAt.Some?
    && (db.workers[w].tokenJti.Some? ==> db.workers[w].tokenJti.value in db.stored)
  }

  ghost predicate RowsDiffer(db: Registry, v: WorkerId, w: WorkerId)
    requires v in db.workers && w in db.workers && v in db.origin && w in db.origin
  {
    && db.origin[v] != db.origin[w]
    && (db.workers[v].tokenJti.Some? ==> db.workers[v].tokenJti != db.workers[w].tokenJti)
  }

  ghost predicate RegistryOk(db: Registry) {
    && (forall w :: w in db.workers <==> w in db.origin)
    && (forall w :: w in db.workers ==> RowOk(db, w))
    && (forall v, w :: v in db.workers && w in db.workers && v != w ==> RowsDiffer(db, v, w))
  }

  ghost predicate SystemOk(sys: System) {
    && RegistryOk(sys.db)
    && (forall x :: x in sys.open ==> OpenOk(sys.db, sys.open[x]))
    && (forall x, y :: x in sys.open && y in sys.open && x != y ==> Apart(sys.open[x], sys.open[y]))
  }

  // What committed steps may do to a worker: it stays, revocation is for ever, and a JTI on record
  // that its row does not hold never comes back to it.
  ghost predicate RowEvolves(a: Registry, b: Registry, w: WorkerId) {
    w in a.workers ==>
      && w in b.workers
      && (a.workers[w].revokedAt.Some? ==> b.workers[w].revokedAt.Some?)
      && (b.workers[w].tokenJti.Some? && b.workers[w].tokenJti.value in a.stored ==> a.workers[w].tokenJti == b.workers[w].tokenJti)
  }

  ghost predicate Evolves(a: Registry, b: Registry) {
    a.stored <= b.stored && forall w :: RowEvolves(a, b, w)
  }

  lemma {:induction false} RegisteredOk(db: Registry, token: TokenId, w: WorkerId, jti: Jti, now: nat)
    requires RegistryOk(db) && OpenOk(db, Registering(token, w, jti, now))
    ensures RegistryOk(Registered(db, token, w, jti, now)) && Evolves(db, Registered(db, token, w, jti, now))
  {
    var t := Registered(db, token, w, jti, now);
    forall v | v in db.workers ensures RowOk(t, v) && RowsDiffer(t, v, w) && RowsDiffer(t, w, v) {
      assert RowOk(db, v);
    }
    forall u, v | u in db.workers && v in db.workers && u != v ensures RowsDiffer(t, u, v) {
      assert RowsDiffer(db, u, v);
    }
  }

  lemma {:induction false} RenewedOk(db: Registry, w: WorkerId, jti: Jti)
    requires RegistryOk(db) && w in db.workers && jti !in db.stored
    ensures RegistryOk(Renewed(db, w, jti)) && Evolves(db, Renewed(db, w, jti))
  {}

  lemma {:induction false} RevokedOk(db: Registry, w: WorkerId, now: nat)
    requires RegistryOk(db) && w in db.workers
    ensures RegistryOk(Revoked(db, w, now)) && Evolves(db, Revoked(db, w, now))
  {}

  lemma {:induction false} CommittedOk(db: Registry, o: Open)
    requires RegistryOk(db) && OpenOk(db, o)
    ensures RegistryOk(Committed(db, o)) && Evolves(db, Committed(db, o))
  {
    match o
    case Registering(token, w, jti, now) => RegisteredOk(db, token, w, jti, now);
    case RenewalRead(_, _) =>
    case RenewalWritten(w, jti) => RenewedOk(db, w, jti);
    case Revoking(w, now) => RevokedOk(db, w, now);
  }

  lemma {:induction false} OthersStayOk(db: Registry, o: Open, p: Open)
    requires OpenOk(db, o) && OpenOk(db, p) && Apart(o, p) && Apart(p, o)
    ensures OpenOk(Committed(db, o), p)
  {}

  lemma {:induction false} MoveKeepsSystem(sys: System, m: Move)
    requires SystemOk(sys) && MoveEnabled(sys, m)
    ensures SystemOk(Do(sys, m)) && Evolves(sys.db, Do(sys, m).db)
  {
    if m.Commit? {
      CommittedOk(sys.db, sys.open[m.x]);
      forall y | y in sys.open && y != m.x ensures OpenOk(Committed(sys.db, sys.open[m.x]), sys.open[y]) {
        OthersStayOk(sys.db, sys.open[m.x], sys.open[y]);
      }
    }
  }

  // ---------------------------------------------------------------- runs

  ghost predicate Start(sys: System) {
    && sys.open == map[] && sys.db.workers == map[] && sys.db.origin == map[]
  }

  ghost predicate IsRun(run: seq<System>, moves: seq<Move>) {
    && |run| == |moves| + 1 && Start(run[0])
    && forall n :: 0 <= n < |moves| ==> MoveEnabled(run[n], moves[n]) && run[n + 1] == Do(run[n], moves[n])
  }

  lemma {:induction false} RunOk(run: seq<System>, moves: seq<Move>, n: nat)
    requires IsRun(run, moves) && n < |run|
    ensures SystemOk(run[n])
    ensures n > 0 ==> SystemOk(run[n - 1]) && Evolves(run[n - 1].db, run[n].db)
  {
    if n == 0 {
    } else {
      RunOk(run, moves, n - 1);
      MoveKeepsSystem(run[n - 1], moves[n - 1]);
    }
  }

  // An enrollment token never makes two workers.
  lemma {:induction false} OneWorkerPerToken(run: seq<System>, moves: seq<Move>, n: nat, v: WorkerId, w: WorkerId)
    requires IsRun(run, moves) && n < |run| && v in run[n].db.workers && w in run[n].db.workers
    requires v in run[n].db.origin && w in run[n].db.origin && run[n].db.origin[v] == run[n].db.origin[w]
    ensures v == w
  {
    RunOk(run, moves, n);
  }

  // A registration begins that finds the token unused and, at the clock, not expired.
  ghost predicate Enrolls(sys: System, m: Move, token: TokenId, w: WorkerId) {
    && m.BeginRegister? && m.token == token && m.worker == w
    && token in sys.db.tokens && sys.db.tokens[token].consumedAt == None && sys.db.clock < sys.db.tokens[token].expiresAt
  }

  lemma {:induction false} BegunInTime(run: seq<System>, moves: seq<Move>, n: nat, x: TxnId) returns (m: nat)
    requires IsRun(run, moves) && n < |run| && x in run[n].open && run[n].open[x].Registering?
    ensures m < n && Enrolls(run[m], moves[m], run[n].open[x].token, run[n].open[x].worker)
  {
    assert n > 0;
    if x in run[n - 1].open && run[n - 1].open[x].Registering? {
      m := BegunInTime(run, moves, n - 1, x);
    } else {
      m := n - 1;
    }
  }

  lemma {:induction false} OriginKept(sys: System, m: Move, w: WorkerId)
    requires SystemOk(sys) && MoveEnabled(sys, m) && w in Do(sys, m).db.workers && w in Do(sys, m).db.origin
    ensures if w in sys.db.workers then w in sys.db.origin && Do(sys, m).db.origin[w] == sys.db.origin[w]
            else m.Commit? && sys.open[m.x].Registering? && sys.open[m.x].worker == w && sys.open[m.x].token == Do(sys, m).db.origin[w]
  {}

  // Every worker there ever is was enrolled with a token that was unused and had not expired then.
  lemma {:induction false} EnrolledInTime(run: seq<System>, moves: seq<Move>, n: nat, w: WorkerId) returns (m: nat)
    requires IsRun(run, moves) && n < |run| && w in run[n].db.workers && w in run[n].db.origin
    ensures m < n && Enrolls(run[m], moves[m], run[n].db.origin[w], w)
  {
    assert n > 0;
    RunOk(run, moves, n);
    OriginKept(run[n - 1], moves[n - 1], w);
    if w in run[n - 1].db.workers {
      m := EnrolledInTime(run, moves, n - 1, w);
    } else {
      m := BegunInTime(run, moves, n - 1, moves[n - 1].x);
    }
  }

  // At any time a JTI authenticates at most one worker, and a worker is authenticated by at most one.
  lemma {:induction false} OneIdentityPerJti(run: seq<System>, moves: seq<Move>, n: nat, v: WorkerId, w: WorkerId, i: Jti, j: Jti)
    requires IsRun(run, moves) && n < |run| && Authenticates(run[n].db, v, i) && Authenticates(run[n].db, w, j)
    ensures v == w <==> i == j
  {
    RunOk(run, moves, n);
  }

  lemma {:induction false} RunEvolves(run: seq<System>, moves: seq<Move>, n: nat)
    requires IsRun(run, moves) && 0 < n < |run|
    ensures Evolves(run[n - 1].db, run[n].db)
  {
    RunOk(run, moves, n);
  }

  lemma {:induction false} EvolvesOverRun(run: seq<System>, moves: seq<Move>, m: nat, n: nat)
    requires IsRun(run, moves) && m <= n < |run|
    ensures Evolves(run[m].db, run[n].db)
    decreases n
  {
    if m == n {
    } else {
      EvolvesOverRun(run, moves, m, n - 1);
      RunEvolves(run, moves, n);
      EvolvesOn(run[m].db, run[n - 1].db, run[n].db);
    }
  }

  lemma {:induction false} EvolvesOn(a: Registry, b: Registry, c: Registry)
    requires Evolves(a, b) && Evolves(b, c)
    ensures Evolves(a, c)
  {
    forall w ensures RowEvolves(a, c, w) {
      assert RowEvolves(a, b, w) && RowEvolves(b, c, w);
    }
  }

  // Once a revocation has committed the worker never authenticates again, with any JTI, even one
  // that a renewal begun before the revocation stores afterwards.
  lemma {:induction false} RevocationIsFinal(run: seq<System>, moves: seq<Move>, m: nat, n: nat, w: WorkerId, jti: Jti)
    requires IsRun(run, moves) && m <= n < |run| && w in run[m].db.workers && run[m].db.workers[w].revokedAt.Some?
    ensures !Authenticates(run[n].db, w, jti)
  {
    EvolvesOverRun(run, moves, m, n);
    assert RowEvolves(run[m].db, run[n].db, w);
  }

  // A JTI that has stopped authenticating a worker never authenticates it again.
  lemma {:induction false} RotationIsFinal(run: seq<System>, moves: seq<Move>, l: nat, m: nat, n: nat, w: WorkerId, jti: Jti)
    requires IsRun(run, moves) && l <= m <= n < |run|
    requires Authenticates(run[l].db, w, jti) && !Authenticates(run[m].db, w, jti)
    ensures !Authenticates(run[n].db, w, jti)
  {
    RunOk(run, moves, l);
    EvolvesOverRun(run, moves, l, m);
    EvolvesOverRun(run, moves, m, n);
    assert RowOk(run[l].db, w);
    assert RowEvolves(run[l].db, run[m].db, w) && RowEvolves(run[m].db, run[n].db, w);
  }

  // ---------------------------------------------------------------- the endpoints

  class Identities {
    var db: Registry

    constructor (tokens: map<TokenId, Enrollment>)
      ensures db == Registry(0, tokens, map[], map[], {}) && RegistryOk(db)
    {
      db := Registry(0, tokens, map[], map[], {});
    }

    // Exchange a one-time token for a worker; `secretOk` is the verdict of the password hash.
    method RegisterWorker(token: TokenId, secretOk: bool, w: WorkerId, jti: Jti, now: nat) returns (accepted: bool)
      requires RegistryOk(db) && w !in db.workers && jti !in db.stored
      modifies this
      ensures RegistryOk(db)
      ensures accepted <==>
              secretOk && token in old(db).tokens && old(db).tokens[token].consumedAt == None && now < old(db).tokens[token].expiresAt
      ensures db == if accepted then Registered(old(db), token, w, jti, now) else old(db)
      ensures accepted ==> Authenticates(db, w, jti) && db.tokens[token].consumedAt == Some(now) && !Enrollable(db, token, now)
    {
      if token !in db.tokens || db.tokens[token].consumedAt.Some? || db.tokens[token].expiresAt <= now || !secretOk {
        return false;
      }
      RegisteredOk(db, token, w, jti, now);
      db := db.(workers := db.workers[w := Identity(None, None)], origin := db.origin[w := token]);
      db := db.(workers := db.workers[w := db.workers[w].(tokenJti := Some(jti))], stored := db.stored + {jti});
      db := db.(tokens := db.tokens[token := db.tokens[token].(consumedAt := Some(now))]);
      return true;
    }

    method RequireWorker(w: WorkerId, jti: Jti) returns (ok: bool)
      ensures ok <==> w in db.workers && db.workers[w].revokedAt == None && db.workers[w].tokenJti == Some(jti)
    {
      if w !in db.workers || db.workers[w].revokedAt.Some? || db.workers[w].tokenJti != Some(jti) {
        return false;
      }
      return true;
    }

    // Rotation without anything in between: the old JTI stops working, the new one works.
    method RenewToken(w: WorkerId, presented: Jti, jti: Jti) returns (ok: bool)
      requires RegistryOk(db) && jti !in db.stored
      modifies this
      ensures RegistryOk(db)
      ensures ok <==> Authenticates(old(db), w, presented)
      ensures db == if ok then Renewed(old(db), w, jti) else old(db)
      ensures ok ==> Authenticates(db, w, jti) && !Authenticates(db, w, presented)
    {
      ok := RequireWorker(w, presented);
      if ok {
        RenewedOk(db, w, jti);
        db := db.(workers := db.workers[w := db.workers[w].(tokenJti := Some(jti))], stored := db.stored + {jti});
      }
    }

    method RevokeWorker(w: WorkerId, now: nat) returns (found: bool)
      requires RegistryOk(db)
      modifies this
      ensures RegistryOk(db)
      ensures found <==> w in old(db).workers
      ensures db == if found then Revoked(old(db), w, now) else old(db)
      ensures found ==> forall jti :: !Authenticates(db, w, jti)
      ensures found ==> db.workers[w].revokedAt == FirstOf(old(db).workers[w].revokedAt, now)
    {
      if w !in db.workers {
        return false;
      }
      RevokedOk(db, w, now);
      var worker := db.workers[w];
      if worker.revokedAt.None? {
        worker := worker.(revokedAt := Some(now));
      }
      worker := worker.(tokenJti := None);
      db := db.(workers := db.workers[w := worker]);
      return true;
    }
  }
}
