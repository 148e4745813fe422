/** The rows of the gateway's tables. */
module Entities {
  import opened Options
  import opened Calendar

  type ProjectId = nat
  type KeyId = nat
  type RequestId = nat
  type WorkerId = nat
  type UsageId = nat
  type Json = string

  datatype Status =
    | Queued | Assigned | Starting | Running | Streaming
    | Completed | FailedFinal | Expired | Cancelled

  datatype Project = Project(
    active: bool,
    dailyLimit: nat, dailyUsed: nat, dailyDate: Date,
    monthlyLimit: nat, monthlyUsed: nat, monthlyMonth: Date)

  datatype ApiKey = ApiKey(
    project: ProjectId,
    expiresAt: Option<nat>, revokedAt: Option<nat>,
    dailyLimit: nat, dailyUsed: nat, dailyDate: Date,
    totalRequests: nat, totalTokens: nat)

  datatype Request = Request(
    project: ProjectId, apiKey: KeyId, idempotencyKey: Option<string>,
    modelAlias: string, resolvedModel: string, payload: Json, required: map<string, Json>,
    priority: nat, createdAt: nat, expiresAt: nat,
    reserved: nat, budgetDay: Date, budgetMonth: Date,
    status: Status, assignedTo: Option<WorkerId>, leaseExpires: Option<nat>,
    retryCount: nat, maxRetries: nat,
    result: Option<Json>, inputTokens: nat, outputTokens: nat,
    completedAt: Option<nat>, errorCode: Option<string>)

  datatype UsageRecord = UsageRecord(
    request: RequestId, project: ProjectId, apiKey: KeyId, worker: WorkerId,
    provider: string, model: string,
    inputTokens: nat, outputTokens: nat, latency: nat)

  datatype Worker = Worker(
    id: WorkerId, provider: string, online: bool,
    supportedModels: seq<string>, capabilities: map<string, Json>)

  // The statuses the guarded updates accept as "held by a worker".
  predicate Live(r: Request) {
    r.status.Assigned? || r.status.Starting? || r.status.Running? || r.status.Streaming?
  }

  predicate Terminal(r: Request) {
    r.status.Completed? || r.status.FailedFinal? || r.status.Expired? || r.status.Cancelled?
  }

  // Capability containment on flat objects: every required entry is offered as is.
  predicate Compatible(w: Worker, r: Request) {
    && (forall c :: c in r.required ==> c in w.capabilities && w.capabilities[c] == r.required[c])
    && (r.resolvedModel in w.supportedModels || r.modelAlias in w.supportedModels)
  }
}
