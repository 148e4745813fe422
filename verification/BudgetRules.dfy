/** Reservation arithmetic on one project row: period rollover, the hard-limit check, charging a
  reservation and replacing it by the actual usage. */
module BudgetRules {
  import opened Options
  import opened Calendar
  import opened Entities

  datatype Snapshot = Snapshot(dailyLimit: nat, dailyUsed: nat, monthlyLimit: nat, monthlyUsed: nat)

  datatype BudgetError = NotPositive | DailyExceeded | MonthlyExceeded

  // The error of the first check that fails, in the order the checks are made.
  function EnforceBudget(b: Snapshot, requested: int): (e: Option<BudgetError>)
    ensures e.None? <==> 1 <= requested <= b.dailyLimit - b.dailyUsed && requested <= b.monthlyLimit - b.monthlyUsed
    ensures e == Some(NotPositive) <==> requested < 1
    ensures e == Some(DailyExceeded) <==> 1 <= requested && b.dailyLimit < b.dailyUsed + requested
    ensures e == Some(MonthlyExceeded) <==>
            1 <= requested <= b.dailyLimit - b.dailyUsed && b.monthlyLimit < b.monthlyUsed + requested
  {
    if requested < 1 then Some(NotPositive)
    else if b.dailyUsed + requested > b.dailyLimit then Some(DailyExceeded)
    else if b.monthlyUsed + requested > b.monthlyLimit then Some(MonthlyExceeded)
    else None
  }

  function SnapshotOf(p: Project): Snapshot {
    Snapshot(p.dailyLimit, p.dailyUsed, p.monthlyLimit, p.monthlyUsed)
  }

  // Start new periods where the stored ones are not today's.
  function RollOver(p: Project, today: Date): Project {
    var q := if p.dailyDate != today then p.(dailyDate := today, dailyUsed := 0) else p;
    if q.monthlyMonth != MonthOf(today) then q.(monthlyMonth := MonthOf(today), monthlyUsed := 0) else q
  }

  function Charge(p: Project, tokens: nat): Project {
    p.(dailyUsed := p.dailyUsed + tokens, monthlyUsed := p.monthlyUsed + tokens)
  }

  function AtLeastZero(n: int): nat {
    if n < 0 then 0 else n
  }

  // Move both counters by `delta`, each only while its period is still the one charged.
  function Adjust(p: Project, delta: int, day: Date, month: Date): Project {
    p.(dailyUsed := if p.dailyDate == day then AtLeastZero(p.dailyUsed + delta) else p.dailyUsed,
       monthlyUsed := if p.monthlyMonth == month then AtLeastZero(p.monthlyUsed + delta) else p.monthlyUsed)
  }
}
