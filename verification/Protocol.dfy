/** The durable request queue as a state machine over its tables.

  Each step is one whole transaction: `Enabled` is the condition under which the transaction
  commits a change, `Apply` the tables it leaves. A transaction that rolls back changes nothing
  and is not a step. Clock readings are parameters of a step and may lag behind the clock, since a
  transaction reads the time before it commits. */
module Protocol {
  import opened Options
  import opened Calendar
  import opened Entities
  import opened BudgetRules
  import opened Sums

  const QUEUE_TTL := 5 * MINUTE
  const PRIORITY := 5
  const MAX_RETRIES := 3

  // `lease` is the configured lease length; no step changes it.
  datatype State = State(
    clock: nat, lease: nat,
    projects: map<ProjectId, Project>,
    keys: map<KeyId, ApiKey>,
    requests: map<RequestId, Request>,
    usage: map<UsageId, UsageRecord>)

  // What a submission asks for, after the model alias has been resolved.
  datatype Order = Order(
    modelAlias: string, resolvedModel: string, payload: Json, required: map<string, Json>, tokens: int)

  // The clock readings of one submission: transaction start, authentication, reservation, insert.
  datatype Times = Times(begun: nat, auth: nat, reserve: nat, insert: nat)

  datatype Step =
    | Tick(to: nat)
    | Submit(key: KeyId, idem: Option<string>, order: Order, times: Times, id: RequestId)
    | Replay(key: KeyId, auth: nat)
    | Claim(worker: Worker, skipped: set<RequestId>, now: nat, id: RequestId)
    | Commit(worker: Worker, id: RequestId, result: Json, input: nat, output: nat, latency: nat, now: nat, usageId: UsageId)
    | Fail(worker: Worker, id: RequestId, retryable: bool, code: string)
    | Recover(now: nat, touched: set<RequestId>)
    | RevokeKey(key: KeyId, now: nat)

  // ---------------------------------------------------------------- API-key admission

  function KeyToday(k: ApiKey, today: Date): ApiKey {
    if k.dailyDate != today then k.(dailyDate := today, dailyUsed := 0) else k
  }

  function CountRequest(k: ApiKey, today: Date): ApiKey {
    var t := KeyToday(k, today);
    t.(dailyUsed := t.dailyUsed + 1)
  }

  predicate KeyActive(k: ApiKey, now: nat) {
    k.revokedAt.None? && (k.expiresAt.None? || k.expiresAt.value > now)
  }

  // Everything authentication asks of the tables; the secret and the minute window are checked
  // outside them.
  predicate Admits(s: State, key: KeyId, now: nat) {
    && key in s.keys
    && s.keys[key].project in s.projects
    && s.projects[s.keys[key].project].active
    && KeyActive(s.keys[key], now)
    && KeyToday(s.keys[key], Today(now)).dailyUsed < s.keys[key].dailyLimit
  }

  // A key is never counted on a day before the one it was last counted on: the reading is taken under
  // the key row lock. Before its first request a key carries a database date that may be any day.
  predicate KeyReadUnderLock(k: ApiKey, now: nat) {
    k.dailyUsed > 0 ==> NotAfter(k.dailyDate, Today(now))
  }

  predicate SameIdempotency(r: Request, key: KeyId, idem: Option<string>) {
    idem.Some? && r.apiKey == key && r.idempotencyKey == idem
  }

  ghost predicate NoDuplicate(requests: map<RequestId, Request>, key: KeyId, idem: Option<string>) {
    forall i :: i in requests ==> !SameIdempotency(requests[i], key, idem)
  }

  // ---------------------------------------------------------------- one row at a time

  function NewRequest(project: ProjectId, key: KeyId, idem: Option<string>, o: Order, t: Times): Request
    requires 0 <= o.tokens
  {
    Request(project, key, idem, o.modelAlias, o.resolvedModel, o.payload, o.required,
            PRIORITY, t.begun, t.insert + QUEUE_TTL,
            o.tokens, Today(t.reserve), MonthOf(Today(t.reserve)),
            Queued, None, None, 0, MAX_RETRIES, None, 0, 0, None, None)
  }

  predicate Claimable(r: Request, w: Worker, now: nat) {
    r.status == Queued && r.expiresAt > now && Compatible(w, r)
  }

  // Queue order: priority first, then age.
  predicate Ahead(a: Request, b: Request) {
    a.priority < b.priority || (a.priority == b.priority && a.createdAt <= b.createdAt)
  }

  function Claimed(r: Request, w: WorkerId, now: nat, lease: nat): Request {
    r.(status := Assigned, assignedTo := Some(w), leaseExpires := Some(now + lease))
  }

  predicate HeldBy(r: Request, w: WorkerId) {
    r.assignedTo == Some(w) && r.result.None? && Live(r)
  }

  function Finished(r: Request, result: Json, input: nat, output: nat, now: nat): Request {
    r.(status := Completed, result := Some(result), inputTokens := input, outputTokens := output,
       completedAt := Some(now), leaseExpires := None)
  }

  predicate Retries(r: Request, retryable: bool) {
    retryable && r.retryCount < r.maxRetries
  }

  function Errored(r: Request, retryable: bool, code: string): Request {
    var e := r.(errorCode := Some(code), assignedTo := None, leaseExpires := None);
    if Retries(r, retryable) then e.(retryCount := r.retryCount + 1, status := Queued)
    else e.(status := FailedFinal)
  }

  predicate LeaseLost(r: Request, now: nat) {
    Live(r) && r.leaseExpires.Some? && r.leaseExpires.value < now && r.result.None?
  }

  predicate QueueExpired(r: Request, now: nat) {
    r.status == Queued && r.expiresAt < now && r.result.None?
  }

  // The three guarded updates of a recovery pass, on one row.
  function Requeue(r: Request, now: nat): Request {
    if LeaseLost(r, now) && r.retryCount < r.maxRetries
    then r.(status := Queued, assignedTo := None, leaseExpires := None, retryCount := r.retryCount + 1)
    else r
  }

  function GiveUp(r: Request, now: nat): Request {
    if LeaseLost(r, now) && r.retryCount >= r.maxRetries
    then r.(status := FailedFinal, assignedTo := None, leaseExpires := None,
            errorCode := Some("retry_budget_exhausted"))
    else r
  }

  function ExpireQueued(r: Request, now: nat): Request {
    if QueueExpired(r, now) then r.(status := Expired, errorCode := Some("queue_ttl_expired")) else r
  }

  // What one pass does to one row: a row whose queue time is over never returns to the queue.
  function Recovered(r: Request, now: nat): Request {
    if LeaseLost(r, now) && r.retryCount >= r.maxRetries then
      r.(status := FailedFinal, assignedTo := None, leaseExpires := None,
         errorCode := Some("retry_budget_exhausted"))
    else if LeaseLost(r, now) && r.expiresAt < now then
      r.(status := Expired, assignedTo := None, leaseExpires := None,
         retryCount := r.retryCount + 1, errorCode := Some("queue_ttl_expired"))
    else if LeaseLost(r, now) then
      r.(status := Queued, assignedTo := None, leaseExpires := None, retryCount := r.retryCount + 1)
    else if QueueExpired(r, now) then
      r.(status := Expired, errorCode := Some("queue_ttl_expired"))
    else r
  }

  lemma RecoveredIsThreeUpdates(r: Request, now: nat)
    ensures Recovered(r, now) == ExpireQueued(GiveUp(Requeue(r, now), now), now)
  {}

  predicate Freed(r: Request, now: nat) {
    !Terminal(r) && Terminal(Recovered(r, now))
  }

  // ---------------------------------------------------------------- sums over requests

  ghost function ReservedOn(p: ProjectId, day: Date): Request -> int {
    (r: Request) => if r.project == p && r.budgetDay == day then r.reserved else 0
  }

  ghost function ReservedIn(p: ProjectId, month: Date): Request -> int {
    (r: Request) => if r.project == p && r.budgetMonth == month then r.reserved else 0
  }

  ghost function FreedRows(requests: map<RequestId, Request>, now: nat, touched: set<RequestId>): map<RequestId, Request> {
    map i | i in requests && i in touched && Freed(requests[i], now) :: requests[i]
  }

  // Give back to one project everything reserved by `freed` in the project's current periods.
  ghost function GiveBack(id: ProjectId, p: Project, freed: map<RequestId, Request>): Project {
    p.(dailyUsed := AtLeastZero(p.dailyUsed - Total(freed, ReservedOn(id, p.dailyDate))),
       monthlyUsed := AtLeastZero(p.monthlyUsed - Total(freed, ReservedIn(id, p.monthlyMonth))))
  }

  ghost function GiveBackAll(projects: map<ProjectId, Project>, freed: map<RequestId, Request>): map<ProjectId, Project> {
    map p | p in projects :: GiveBack(p, projects[p], freed)
  }

  function RecoverRows(requests: map<RequestId, Request>, now: nat, touched: set<RequestId>): map<RequestId, Request> {
    map i | i in requests :: if i in touched then Recovered(requests[i], now) else requests[i]
  }

  // ---------------------------------------------------------------- steps

  // A reservation never dates from before the project's current usage day: the reading is taken
  // under the project row lock. Before its first request a project carries a database date that
  // may be any day.
  ghost predicate ClockReadUnderLock(s: State, p: ProjectId, now: nat)
    requires p in s.projects
  {
    (exists i :: i in s.requests && s.requests[i].project == p) ==> NotAfter(s.projects[p].dailyDate, Today(now))
  }

  ghost predicate SubmitEnabled(s: State, key: KeyId, idem: Option<string>, o: Order, t: Times, id: RequestId) {
    && t.begun <= t.auth <= t.reserve <= t.insert <= s.clock
    && Admits(s, key, t.auth) && KeyReadUnderLock(s.keys[key], t.auth)
    && NoDuplicate(s.requests, key, idem)
    && ClockReadUnderLock(s, s.keys[key].project, t.reserve)
    && EnforceBudget(SnapshotOf(RollOver(s.projects[s.keys[key].project], Today(t.reserve))), o.tokens).None?
    && id !in s.requests
  }

  ghost predicate ClaimEnabled(s: State, w: Worker, skipped: set<RequestId>, now: nat, id: RequestId) {
    && now <= s.clock
    && id in s.requests && id !in skipped && Claimable(s.requests[id], w, now)
    && (forall j :: j in s.requests && j !in skipped && Claimable(s.requests[j], w, now)
          ==> Ahead(s.requests[id], s.requests[j]))
  }

  ghost predicate CommitEnabled(s: State, w: Worker, id: RequestId, now: nat, u: UsageId) {
    && now <= s.clock && id in s.requests && HeldBy(s.requests[id], w.id) && u !in s.usage
    && s.requests[id].project in s.projects && s.requests[id].apiKey in s.keys
  }

  ghost predicate Enabled(s: State, step: Step) {
    match step
    case Tick(to) => s.clock <= to
    case Submit(key, idem, o, t, id) => SubmitEnabled(s, key, idem, o, t, id)
    case Replay(key, auth) => auth <= s.clock && Admits(s, key, auth) && KeyReadUnderLock(s.keys[key], auth)
    case Claim(w, skipped, now, id) => ClaimEnabled(s, w, skipped, now, id)
    case Commit(w, id, result, input, output, latency, now, u) => CommitEnabled(s, w, id, now, u)
    case Fail(w, id, retryable, code) =>
      id in s.requests && HeldBy(s.requests[id], w.id) && s.requests[id].project in s.projects
    case Recover(now, touched) => now <= s.clock
    case RevokeKey(key, now) => now <= s.clock && key in s.keys
  }

  // Replace a request row and, in the same transaction, move its project's counters.
  function Settle(s: State, id: RequestId, row: Request, actual: nat): State
    requires id in s.requests && s.requests[id].project in s.projects
  {
    var r := s.requests[id];
    s.(requests := s.requests[id := row],
       projects := s.projects[r.project := Adjust(s.projects[r.project], actual - r.reserved, r.budgetDay, r.budgetMonth)])
  }

  function Credited(k: ApiKey, tokens: nat): ApiKey {
    k.(totalRequests := k.totalRequests + 1, totalTokens := k.totalTokens + tokens)
  }

  function UsageOf(id: RequestId, r: Request, w: Worker, input: nat, output: nat, latency: nat): UsageRecord {
    UsageRecord(id, r.project, r.apiKey, w.id, w.provider, r.resolvedModel, input, output, latency)
  }

  // Add a usage record to the table and to its key's totals.
  function Credit(s: State, key: KeyId, u: UsageId, record: UsageRecord): State
    requires key in s.keys
  {
    s.(keys := s.keys[key := Credited(s.keys[key], record.inputTokens + record.outputTokens)],
       usage := s.usage[u := record])
  }

  ghost function Apply(s: State, step: Step): State
    requires Enabled(s, step)
  {
    match step
    case Tick(to) => s.(clock := to)
    case Submit(key, idem, o, t, id) =>
      var p := s.keys[key].project;
      s.(keys := s.keys[key := CountRequest(s.keys[key], Today(t.auth))],
         projects := s.projects[p := Charge(RollOver(s.projects[p], Today(t.reserve)), o.tokens)],
         requests := s.requests[id := NewRequest(p, key, idem, o, t)])
    case Replay(key, auth) => s.(keys := s.keys[key := CountRequest(s.keys[key], Today(auth))])
    case Claim(w, skipped, now, id) =>
      s.(requests := s.requests[id := Claimed(s.requests[id], w.id, now, s.lease)])
    case Commit(w, id, result, input, output, latency, now, u) =>
      var r := s.requests[id];
      Credit(Settle(s, id, Finished(r, result, input, output, now), input + output),
             r.apiKey, u, UsageOf(id, r, w, input, output, latency))
    case Fail(w, id, retryable, code) =>
      var r := s.requests[id];
      if Retries(r, retryable) then s.(requests := s.requests[id := Errored(r, retryable, code)])
      else Settle(s, id, Errored(r, retryable, code), 0)
    case Recover(now, touched) =>
      s.(requests := RecoverRows(s.requests, now, touched),
         projects := GiveBackAll(s.projects, FreedRows(s.requests, now, touched)))
    case RevokeKey(key, now) =>
      s.(keys := s.keys[key := if s.keys[key].revokedAt.None? then s.keys[key].(revokedAt := Some(now)) else s.keys[key]])
  }

  ghost predicate Next(s: State, step: Step, t: State) {
    Enabled(s, step) && t == Apply(s, step)
  }

  // Tables as they are before the first request: any projects and keys, nothing counted yet.
  ghost predicate Init(s: State) {
    && s.lease >= 1
    && s.requests == map[] && s.usage == map[]
    && (forall k :: k in s.keys ==>
          && s.keys[k].project in s.projects
          && s.keys[k].totalRequests == 0 && s.keys[k].totalTokens == 0
          && s.keys[k].dailyUsed == 0)
    && (forall p :: p in s.projects ==> s.projects[p].dailyUsed == 0 && s.projects[p].monthlyUsed == 0)
  }
}
