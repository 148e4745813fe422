/** Accepting a chat completion: authentication, idempotency, reservation, insert, and the bounded
  wait for a result. */
module ChatService {
  import opened Options
  import opened Calendar
  import opened Entities
  import opened BudgetRules
  import opened Protocol
  import opened Idempotency
  import opened Reservation
  import opened Database
  import opened BudgetService

  datatype Refusal =
    | InvalidApiKey | DailyRequestLimit | RateLimited
    | StreamingUnavailable | InvalidIdempotencyKey | ModelNotFound
    | OverBudget(error: BudgetError)

  datatype ChatReply = Replayed(id: RequestId, reply: Reply) | Accepted(id: RequestId) | Refused(refusal: Refusal)

  datatype Alias = Alias(alias: string, modelId: string, required: map<string, Json>)

  // What one call brings along. `secretOk` and `withinMinute` are the verdicts of the password
  // hash and of the minute window; `alias` is the active alias of the requested model, if any.
  datatype Call = Call(
    key: KeyId, secretOk: bool, withinMinute: bool, stream: bool, idem: Option<string>,
    alias: Option<Alias>, messages: seq<string>, maxTokens: nat, payload: Json)

  predicate UrlVisible(c: char) {
    'A' <= c <= 'Z' || 'a' <= c <= 'z' || '0' <= c <= '9' || c == '.' || c == '_' || c == ':' || c == '-'
  }

  predicate ValidIdempotencyKey(k: string) {
    8 <= |k| <= 128 && forall i :: 0 <= i < |k| ==> UrlVisible(k[i])
  }

  // The order a call places; its size is the byte sum of its messages plus its completion ceiling.
  ghost function OrderOf(c: Call): Order
    requires c.alias.Some?
  {
    Order(c.alias.value.alias, c.alias.value.modelId, c.payload, c.alias.value.required, ByteSum(c.messages) + c.maxTokens)
  }

  predicate KeyKnown(s: State, key: KeyId, now: nat) {
    key in s.keys && s.keys[key].project in s.projects && s.projects[s.keys[key].project].active && KeyActive(s.keys[key], now)
  }

  // The refusals that do not depend on the budget, in the order the checks are made.
  function EarlyRefusal(s: State, c: Call, now: nat): Option<Refusal> {
    if !KeyKnown(s, c.key, now) || !c.secretOk then Some(InvalidApiKey)
    else if !Admits(s, c.key, now) then Some(DailyRequestLimit)
    else if !c.withinMinute then Some(RateLimited)
    else if c.stream then Some(StreamingUnavailable)
    else if c.idem.Some? && !ValidIdempotencyKey(c.idem.value) then Some(InvalidIdempotencyKey)
    else None
  }

  datatype Outcome = Delivered(result: Json) | Failed | Disappeared | Timeout

  // A poll that leaves the wait going on: the row is there, without a result, and has not ended.
  predicate Undecided(poll: Option<Request>) {
    && poll.Some? && !(poll.value.status == Completed && poll.value.result.Some?)
    && poll.value.status != FailedFinal && poll.value.status != Cancelled && poll.value.status != Expired
  }

  // The n-th poll is the first to decide.
  predicate FirstDecides(polls: seq<Option<Request>>, n: nat) {
    n < |polls| && !Undecided(polls[n]) && forall m :: 0 <= m < n ==> Undecided(polls[m])
  }

  // What the first deciding poll makes the wait answer.
  ghost predicate Answers(poll: Option<Request>, outcome: Outcome) {
    match outcome
    case Delivered(result) => poll.Some? && poll.value.status == Completed && poll.value.result == Some(result)
    case Failed =>
      poll.Some? && (poll.value.status == FailedFinal || poll.value.status == Cancelled || poll.value.status == Expired)
    case Disappeared => poll.None?
    case Timeout => false
  }

  ghost predicate Awaited(polls: seq<Option<Request>>, outcome: Outcome) {
    if outcome == Timeout then forall n :: 0 <= n < |polls| ==> Undecided(polls[n])
    else exists n :: 0 <= n < |polls| && FirstDecides(polls, n) && Answers(polls[n], outcome)
  }

  // ---------------------------------------------------------------- what a call amounts to

  // The refusal a call receives, if any: an early one, then a missing model, then the limit passed.
  // A request already there for the pair is never refused.
  ghost function RefusalOf(s: State, c: Call, t: Times): Option<Refusal> {
    var early := EarlyRefusal(s, c, t.auth);
    if early.Some? then early
    else if !NoDuplicate(s.requests, c.key, c.idem) then None
    else if c.alias.None? then Some(ModelNotFound)
    else
      var row := RollOver(s.projects[s.keys[c.key].project], Today(t.reserve));
      var e := EnforceBudget(SnapshotOf(row), OrderOf(c).tokens);
      if e.Some? then Some(OverBudget(e.value)) else None
  }

  // The reply is the state of the request already there, and only the key's day count moves.
  ghost predicate Replays(s: State, c: Call, t: Times, i: RequestId, said: Reply, after: State) {
    && i in s.requests && SameIdempotency(s.requests[i], c.key, c.idem) && said == ReplyFor(s.requests[i])
    && Next(s, Replay(c.key, t.auth), after)
  }

  ghost predicate Accepts(s: State, c: Call, t: Times, id: RequestId, after: State) {
    c.alias.Some? && Next(s, Submit(c.key, c.idem, OrderOf(c), t, id), after)
  }

  lemma {:induction false} ReplayedIsReplay(s: State, c: Call, t: Times, i: RequestId, after: State)
    requires Enabled(s, Replay(c.key, t.auth)) && i in s.requests && SameIdempotency(s.requests[i], c.key, c.idem)
    requires after == s.(keys := s.keys[c.key := CountRequest(s.keys[c.key], Today(t.auth))])
    ensures Replays(s, c, t, i, ReplyFor(s.requests[i]), after)
  {}

  lemma {:induction false} AcceptedIsSubmit(s: State, c: Call, t: Times, id: RequestId, after: State)
    requires c.alias.Some? && c.key in s.keys && s.keys[c.key].project in s.projects
    requires SubmitEnabled(s, c.key, c.idem, OrderOf(c), t, id)
    requires var project := s.keys[c.key].project;
      after == s.(
        keys := s.keys[c.key := CountRequest(s.keys[c.key], Today(t.auth))],
        projects := s.projects[project := Charge(RollOver(s.projects[project], Today(t.reserve)), OrderOf(c).tokens)],
        requests := s.requests[id := NewRequest(project, c.key, c.idem, OrderOf(c), t)])
    ensures Accepts(s, c, t, id, after)
  {}

  // ---------------------------------------------------------------- the same in the rows' own numbers

  // A key of an active project that is neither revoked nor expired.
  ghost predicate GoodKey(s: State, key: KeyId, now: nat) {
    && key in s.keys && s.keys[key].project in s.projects && s.projects[s.keys[key].project].active
    && s.keys[key].revokedAt == None && (s.keys[key].expiresAt.Some? ==> now < s.keys[key].expiresAt.value)
  }

  function UsedOn(k: ApiKey, today: Date): nat {
    if k.dailyDate == today then k.dailyUsed else 0
  }

  ghost predicate KeyPasses(s: State, c: Call, now: nat) {
    GoodKey(s, c.key, now) && c.secretOk && UsedOn(s.keys[c.key], Today(now)) < s.keys[c.key].dailyLimit && c.withinMinute
  }

  // 8 to 128 letters, figures, points, underscores, colons and hyphens.
  ghost predicate IdempotencyKeyPasses(k: string) {
    && 8 <= |k| <= 128
    && forall i :: 0 <= i < |k| ==>
         k[i] in ".:_-" || 'a' <= k[i] <= 'z' || 'A' <= k[i] <= 'Z' || '0' <= k[i] <= '9'
  }

  ghost predicate CallPasses(s: State, c: Call, now: nat) {
    KeyPasses(s, c, now) && !c.stream && (c.idem.Some? ==> IdempotencyKeyPasses(c.idem.value))
  }

  // A request of the same key with the same idempotency key.
  ghost predicate SameCall(q: Request, c: Call) {
    c.idem.Some? && q.apiKey == c.key && q.idempotencyKey == c.idem
  }

  ghost predicate NewCall(s: State, c: Call) {
    forall i :: i in s.requests ==> !SameCall(s.requests[i], c)
  }

  // When exactly a call receives which refusal.
  ghost predicate RefusedFor(s: State, c: Call, t: Times, refusal: Refusal) {
    match refusal
    case InvalidApiKey => !GoodKey(s, c.key, t.auth) || !c.secretOk
    case DailyRequestLimit =>
      GoodKey(s, c.key, t.auth) && c.secretOk && s.keys[c.key].dailyLimit <= UsedOn(s.keys[c.key], Today(t.auth))
    case RateLimited =>
      && GoodKey(s, c.key, t.auth) && c.secretOk && UsedOn(s.keys[c.key], Today(t.auth)) < s.keys[c.key].dailyLimit
      && !c.withinMinute
    case StreamingUnavailable => KeyPasses(s, c, t.auth) && c.stream
    case InvalidIdempotencyKey => KeyPasses(s, c, t.auth) && !c.stream && c.idem.Some? && !IdempotencyKeyPasses(c.idem.value)
    case ModelNotFound => CallPasses(s, c, t.auth) && NewCall(s, c) && c.alias == None
    case OverBudget(e) =>
      && CallPasses(s, c, t.auth) && NewCall(s, c) && c.alias.Some?
      && var p := s.projects[s.keys[c.key].project]; var today := Today(t.reserve);
      var tokens := ByteSum(c.messages) + c.maxTokens;
      var day := tokens + if p.dailyDate == today then p.dailyUsed else 0;
      var month := tokens + if p.monthlyMonth == today.(day := 1) then p.monthlyUsed else 0;
      match e
      case NotPositive => tokens < 1
      case DailyExceeded => 1 <= tokens && p.dailyLimit < day
      case MonthlyExceeded => 1 <= tokens && day <= p.dailyLimit && p.monthlyLimit < month
  }

  lemma {:induction false} SameIdempotencyKeys(k: string)
    ensures ValidIdempotencyKey(k) <==> IdempotencyKeyPasses(k)
  {
    forall c: char ensures UrlVisible(c) <==> c in ".:_-" || 'a' <= c <= 'z' || 'A' <= c <= 'Z' || '0' <= c <= '9' {}
  }

  lemma {:induction false} EarlyRefusalInNumbers(s: State, c: Call, now: nat)
    ensures EarlyRefusal(s, c, now).None? <==> CallPasses(s, c, now)
    ensures forall t: Times, refusal: Refusal :: t.auth == now && refusal != ModelNotFound && !refusal.OverBudget? ==>
      (EarlyRefusal(s, c, now) == Some(refusal) <==> RefusedFor(s, c, t, refusal))
  {
    if c.idem.Some? {
      SameIdempotencyKeys(c.idem.value);
    }
  }

  // A call is refused for a reason exactly when that reason applies.
  lemma {:induction false} RefusalInNumbers(s: State, c: Call, t: Times, refusal: Refusal)
    ensures RefusalOf(s, c, t) == Some(refusal) <==> RefusedFor(s, c, t, refusal)
  {
    EarlyRefusalInNumbers(s, c, t.auth);
    assert NoDuplicate(s.requests, c.key, c.idem) <==> NewCall(s, c);
  }

  // A replay answers with the request of the same key and idempotency key, its result once it is
  // completed and its status until then, and counts one more call of the key on that day.
  lemma {:induction false} ReplayInNumbers(s: State, c: Call, t: Times, i: RequestId, said: Reply, after: State)
    requires Replays(s, c, t, i, said, after)
    ensures i in s.requests && SameCall(s.requests[i], c) && c.key in s.keys
    ensures var q := s.requests[i];
      said == if q.status == Completed && q.result.Some? then WithResult(q.result.value) else InProgress(q.status)
    ensures var k := s.keys[c.key];
      after == s.(keys := s.keys[c.key := k.(dailyDate := Today(t.auth), dailyUsed := UsedOn(k, Today(t.auth)) + 1)])
  {}

  // An acceptance inserts what the call asked for and charges it to the day and month of the key's
  // project, beginning a new period where the stored one is over.
  lemma {:induction false} AcceptanceInNumbers(s: State, c: Call, t: Times, id: RequestId, after: State)
    requires Accepts(s, c, t, id, after)
    ensures c.alias.Some? && c.key in s.keys && id !in s.requests && id in after.requests
    ensures var q, tokens := after.requests[id], ByteSum(c.messages) + c.maxTokens;
      && q.modelAlias == c.alias.value.alias && q.resolvedModel == c.alias.value.modelId
      && q.payload == c.payload && q.required == c.alias.value.required && q.reserved == tokens
      && q.apiKey == c.key && q.idempotencyKey == c.idem && q.project == s.keys[c.key].project
    ensures s.keys[c.key].project in s.projects && s.keys[c.key].project in after.projects
    ensures var p, p' := s.projects[s.keys[c.key].project], after.projects[s.keys[c.key].project];
      var today, tokens := Today(t.reserve), ByteSum(c.messages) + c.maxTokens;
      && p'.dailyDate == today && p'.dailyUsed == tokens + (if p.dailyDate == today then p.dailyUsed else 0)
      && p'.monthlyMonth == today.(day := 1)
      && p'.monthlyUsed == tokens + (if p.monthlyMonth == today.(day := 1) then p.monthlyUsed else 0)
  {}

  class Chat {
    const budget: Budgets

    constructor (budget: Budgets)
      ensures this.budget == budget
    {
      this.budget := budget;
    }

    // Authenticate a key and count the request against its day.
    method RequireApiKey(db: Tables, c: Call, now: nat) returns (refusal: Option<Refusal>)
      modifies db`keys
      ensures refusal.None? <==> Admits(old(db.Snapshot()), c.key, now) && c.secretOk && c.withinMinute
      ensures refusal.None? ==> db.keys == old(db.keys)[c.key := CountRequest(old(db.keys)[c.key], Today(now))]
      ensures refusal.Some? ==> refusal == EarlyRefusal(old(db.Snapshot()), c, now)
    {
      if !KeyKnown(db.Snapshot(), c.key, now) || !c.secretOk {
        return Some(InvalidApiKey);
      }
      var today := Today(now);
      var record := db.keys[c.key];
      if record.dailyDate != today {
        record := record.(dailyDate := today, dailyUsed := 0);
        db.keys := db.keys[c.key := record];
      }
      if record.dailyUsed >= record.dailyLimit {
        return Some(DailyRequestLimit);
      }
      if !c.withinMinute {
        return Some(RateLimited);
      }
      record := record.(dailyUsed := record.dailyUsed + 1);
      db.keys := db.keys[c.key := record];
      return None;
    }

    // Authentication and the checks of the call itself, in their order.
    method CheckCall(db: Tables, c: Call, now: nat) returns (refusal: Option<Refusal>)
      modifies db`keys
      ensures refusal == EarlyRefusal(old(db.Snapshot()), c, now)
      ensures refusal.None? ==> Admits(old(db.Snapshot()), c.key, now)
      ensures refusal.None? ==> db.keys == old(db.keys)[c.key := CountRequest(old(db.keys)[c.key], Today(now))]
    {
      refusal := RequireApiKey(db, c, now);
      if refusal.None? {
        if c.stream {
          return Some(StreamingUnavailable);
        }
        if c.idem.Some? && !ValidIdempotencyKey(c.idem.value) {
          return Some(InvalidIdempotencyKey);
        }
      }
    }

    // The request already there for the call's key pair.
    method FindExisting(db: Tables, c: Call) returns (existing: Option<RequestId>)
      ensures existing.None? <==> NoDuplicate(db.requests, c.key, c.idem)
      ensures existing.Some? ==> existing.value in db.requests && SameIdempotency(db.requests[existing.value], c.key, c.idem)
    {
      if c.idem.None? {
        return None;
      }
      var rows := set i | i in db.requests && SameIdempotency(db.requests[i], c.key, c.idem);
      if rows == {} {
        assert forall i :: i in db.requests && SameIdempotency(db.requests[i], c.key, c.idem) ==> i in rows;
        return None;
      }
      var i: RequestId :| i in rows;
      return Some(i);
    }

    method AddRecord(db: Tables, c: Call, t: Times, id: RequestId, project: ProjectId, tokens: nat, day: Date, month: Date)
      requires c.alias.Some? && tokens == ByteSum(c.messages) + c.maxTokens
      requires day == Today(t.reserve) && month == MonthOf(Today(t.reserve))
      modifies db`requests
      ensures db.requests == old(db.requests)[id := NewRequest(project, c.key, c.idem, OrderOf(c), t)]
    {
      db.requests := db.requests[id := Request(
        project, c.key, c.idem, c.alias.value.alias, c.alias.value.modelId, c.payload, c.alias.value.required,
        PRIORITY, t.begun, t.insert + QUEUE_TTL, tokens, day, month,
        Queued, None, None, 0, MAX_RETRIES, None, 0, 0, None, None)];
    }

    // Reserve the tokens of an order and insert its request.
    method ReserveAndAdd(db: Tables, c: Call, t: Times, id: RequestId) returns (refused: Option<BudgetError>)
      requires db.Linked() && c.key in db.keys && id !in db.requests && c.alias.Some?
      requires SchemaValid(c.messages, c.maxTokens)
      modifies db
      ensures var project := old(db.keys)[c.key].project; var rolled := RollOver(old(db.projects)[project], Today(t.reserve));
        && refused == EnforceBudget(SnapshotOf(rolled), OrderOf(c).tokens) && refused != Some(NotPositive)
        && db.clock == old(db.clock)
        && (refused.None? ==> db.Snapshot() == old(db.Snapshot()).(
              projects := old(db.projects)[project := Charge(rolled, OrderOf(c).tokens)],
              requests := old(db.requests)[id := NewRequest(project, c.key, c.idem, OrderOf(c), t)]))
    {
      var tokens := ReservedTokens(c.messages, c.maxTokens);
      var project := db.keys[c.key].project;
      var reserved := budget.Reserve(db, project, tokens, t.reserve);
      if reserved.Err? {
        return Some(reserved.error);
      }
      var (day, month) := reserved.value;
      AddRecord(db, c, t, id, project, tokens, day, month);
      return None;
    }

    // Everything after authentication, still inside the transaction.
    method PlaceOrder(db: Tables, c: Call, t: Times, id: RequestId) returns (reply: ChatReply)
      requires db.Linked() && c.key in db.keys && id !in db.requests
      requires SchemaValid(c.messages, c.maxTokens)
      modifies db
      ensures var rolled := RollOver(old(db.projects)[old(db.keys)[c.key].project], Today(t.reserve));
        match reply
        case Replayed(i, said) =>
          && db.Snapshot() == old(db.Snapshot())
          && i in db.requests && SameIdempotency(db.requests[i], c.key, c.idem) && said == ReplyFor(db.requests[i])
        case Accepted(i) =>
          && i == id && c.alias.Some? && NoDuplicate(old(db.requests), c.key, c.idem)
          && EnforceBudget(SnapshotOf(rolled), OrderOf(c).tokens).None?
          && db.Snapshot() == old(db.Snapshot()).(
               projects := old(db.projects)[old(db.keys)[c.key].project := Charge(rolled, OrderOf(c).tokens)],
               requests := old(db.requests)[id := NewRequest(old(db.keys)[c.key].project, c.key, c.idem, OrderOf(c), t)])
        case Refused(refusal) =>
          && db.clock == old(db.clock)
          && NoDuplicate(old(db.requests), c.key, c.idem)
          && (refusal == ModelNotFound <==> c.alias.None?)
          && (c.alias.Some? ==>
                && EnforceBudget(SnapshotOf(rolled), OrderOf(c).tokens).Some?
                && refusal == OverBudget(EnforceBudget(SnapshotOf(rolled), OrderOf(c).tokens).value)
                && refusal != OverBudget(NotPositive))
    {
      var existing := FindExisting(db, c);
      if existing.Some? {
        return Replayed(existing.value, ReplyFor(db.requests[existing.value]));
      }
      if c.alias.None? {
        return Refused(ModelNotFound);
      }
      var refused := ReserveAndAdd(db, c, t, id);
      if refused.Some? {
        return Refused(OverBudget(refused.value));
      }
      return Accepted(id);
    }

    // One call, as one transaction: a refusal rolls everything back, even the counted request; a
    // replay counts the request and changes nothing else; an acceptance is one submission.
    method Complete(db: Tables, c: Call, t: Times, id: RequestId) returns (reply: ChatReply)
      requires db.Linked() && id !in db.requests && SchemaValid(c.messages, c.maxTokens)
      requires db.clock <= t.begun <= t.auth <= t.reserve <= t.insert
      requires c.key in db.keys ==> KeyReadUnderLock(db.keys[c.key], t.auth)
      requires c.key in db.keys ==> ClockReadUnderLock(db.Snapshot(), db.keys[c.key].project, t.reserve)
      modifies db
      ensures reply.Refused? <==> RefusalOf(old(db.At(t.insert)), c, t).Some?
      ensures reply.Refused? ==> RefusalOf(old(db.At(t.insert)), c, t) == Some(reply.refusal)
      ensures reply.Refused? ==> db.Snapshot() == old(db.At(t.insert)) && reply != Refused(OverBudget(NotPositive))
      ensures reply.Replayed? ==> Replays(old(db.At(t.insert)), c, t, reply.id, reply.reply, db.Snapshot())
      ensures reply.Accepted? ==> reply.id == id && Accepts(old(db.At(t.insert)), c, t, id, db.Snapshot())
    {
      db.clock := t.insert;
      var saved := db.Snapshot();
      var refusal := CheckCall(db, c, t.auth);
      if refusal.Some? {
        db.Rollback(saved);
        return Refused(refusal.value);
      }
      reply := PlaceOrder(db, c, t, id);
      if reply.Refused? {
        db.Rollback(saved);
      } else if reply.Replayed? {
        ReplayedIsReplay(saved, c, t, reply.id, db.Snapshot());
      } else {
        AcceptedIsSubmit(saved, c, t, id, db.Snapshot());
      }
    }

    // The bounded wait: each poll reads the committed row, and the first decisive one is the answer.
    method AwaitResult(polls: seq<Option<Request>>) returns (outcome: Outcome)
      ensures Awaited(polls, outcome)
    {
      for n := 0 to |polls|
        invariant forall m :: 0 <= m < n ==> Undecided(polls[m])
      {
        match polls[n]
        case None => return Disappeared;
        case Some(current) =>
          if current.status == Completed && current.result.Some? {
            return Delivered(current.result.value);
          }
          if current.status == FailedFinal || current.status == Cancelled || current.status == Expired {
            return Failed;
          }
      }
      return Timeout;
    }
  }
}
