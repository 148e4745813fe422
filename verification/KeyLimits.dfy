/** The daily request limit of an API key, over whole runs. */
module KeyLimits {
  import opened Calendar
  import opened Entities
  import opened Protocol
  import opened Invariants
  import opened Runs

  // A request of the key was admitted with a clock reading on that UTC day: a submission, or a call
  // that only authenticated.
  ghost function AdmittedOn(key: KeyId, day: Date): Event {
    (s: State, step: Step, t: State) => Admission(step, key) && Today(AuthOf(step)) == day
  }

  predicate Admission(step: Step, key: KeyId) {
    (step.Submit? || step.Replay?) && step.key == key
  }

  function AuthOf(step: Step): nat
    requires step.Submit? || step.Replay?
  {
    if step.Submit? then step.times.auth else step.auth
  }

  // What a step does to the day count of a key row.
  ghost predicate KeyStep(step: Step, key: KeyId, before: ApiKey, after: ApiKey) {
    && after.dailyLimit == before.dailyLimit
    && (if Admission(step, key) then
          var today := Today(AuthOf(step));
          && KeyReadUnderLock(before, AuthOf(step)) && KeyToday(before, today).dailyUsed < before.dailyLimit
          && after.dailyDate == today && after.dailyUsed == KeyToday(before, today).dailyUsed + 1
        else
          after.dailyDate == before.dailyDate && after.dailyUsed == before.dailyUsed)
  }

  lemma {:induction false} StepKeys(s: State, step: Step, key: KeyId)
    requires Enabled(s, step) && key in s.keys
    ensures key in Apply(s, step).keys && KeyStep(step, key, s.keys[key], Apply(s, step).keys[key])
  {
    match step
    case Commit(w, id, result, input, output, latency, now, u) =>
      CommitIsCredit(s, w, id, result, input, output, latency, now, u);
    case _ =>
  }

  // How the number of admissions on a day shows in the row: as the count while the row is on that
  // day, none before, and within the limit once the day is over.
  ghost predicate Tallied(k: ApiKey, admitted: nat, day: Date) {
    if k.dailyUsed > 0 && k.dailyDate == day then admitted == k.dailyUsed <= k.dailyLimit
    else if k.dailyUsed > 0 && Before(day, k.dailyDate) then admitted <= k.dailyLimit
    else admitted == 0
  }

  lemma {:induction false} StepTallies(step: Step, key: KeyId, before: ApiKey, after: ApiKey, admitted: nat, day: Date)
    requires KeyStep(step, key, before, after) && Tallied(before, admitted, day)
    ensures Tallied(after, admitted + if Admission(step, key) && Today(AuthOf(step)) == day then 1 else 0, day)
  {
    if Admission(step, key) {
      var today := Today(AuthOf(step));
      DatesDiffer(day, today);
      DatesDiffer(day, before.dailyDate);
    }
  }

  lemma DatesDiffer(a: Date, b: Date)
    ensures a == b || Before(a, b) || Before(b, a)
    ensures !(Before(a, b) && Before(b, a)) && !Before(a, a)
  {}

  lemma {:induction false} RowTallies(r: Run, n: nat, key: KeyId, day: Date)
    requires IsRun(r) && n <= |r.steps| && key in r.states[0].keys
    ensures key in r.states[n].keys && r.states[n].keys[key].dailyLimit == r.states[0].keys[key].dailyLimit
    ensures Tallied(r.states[n].keys[key], Count(r, n, AdmittedOn(key, day)), day)
  {
    if n == 0 {
    } else {
      RowTallies(r, n - 1, key, day);
      assert Next(r.states[n - 1], r.steps[n - 1], r.states[n]);
      StepKeys(r.states[n - 1], r.steps[n - 1], key);
      StepTallies(r.steps[n - 1], key, r.states[n - 1].keys[key], r.states[n].keys[key],
                  Count(r, n - 1, AdmittedOn(key, day)), day);
    }
  }

  // On each UTC day a key is admitted at most as often as its daily limit says.
  lemma {:induction false} DailyLimitHolds(r: Run, n: nat, key: KeyId, day: Date)
    requires IsRun(r) && n <= |r.steps| && key in r.states[0].keys
    ensures Count(r, n, AdmittedOn(key, day)) <= r.states[0].keys[key].dailyLimit
  {
    RowTallies(r, n, key, day);
  }
}
