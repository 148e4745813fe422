/** UTC instants, civil dates and accounting months.

  An instant is a count of microseconds since 1970-01-01T00:00Z, the resolution of the gateway's
  timestamps. The only calendar facts the ledger depends on are the ones proved at the end: later
  instants never have earlier dates, and truncating to the first of the month keeps that order. */
module Calendar {
  const SECOND := 1_000_000
  const MINUTE := 60 * SECOND
  const DAY := 86_400 * SECOND

  datatype Date = Date(year: int, month: int, day: int)

  predicate Leap(year: int) {
    year % 4 == 0 && (year % 100 != 0 || year % 400 == 0)
  }

  function DaysIn(year: int, month: int): nat {
    if month == 2 then if Leap(year) then 29 else 28
    else if month in {4, 6, 9, 11} then 30
    else 31
  }

  function NextDay(d: Date): Date {
    if d.day < DaysIn(d.year, d.month) then d.(day := d.day + 1)
    else if d.month < 12 then Date(d.year, d.month + 1, 1)
    else Date(d.year + 1, 1, 1)
  }

  // The civil date n days after 1970-01-01.
  function DateOf(n: nat): Date {
    if n == 0 then Date(1970, 1, 1) else NextDay(DateOf(n - 1))
  }

  function Today(now: nat): Date {
    DateOf(now / DAY)
  }

  // `date.replace(day=1)`.
  function MonthOf(d: Date): Date {
    d.(day := 1)
  }

  predicate Before(a: Date, b: Date) {
    a.year < b.year
    || (a.year == b.year && (a.month < b.month || (a.month == b.month && a.day < b.day)))
  }

  predicate NotAfter(a: Date, b: Date) {
    a == b || Before(a, b)
  }

  lemma {:induction false} DatesIncrease(a: nat, b: nat)
    requires a < b
    ensures Before(DateOf(a), DateOf(b))
    decreases b
  {
    if a == b - 1 {
    } else {
      DatesIncrease(a, b - 1);
    }
  }

  lemma TodayNeverGoesBack(a: nat, b: nat)
    requires a <= b
    ensures NotAfter(Today(a), Today(b))
  {
    if a / DAY < b / DAY {
      DatesIncrease(a / DAY, b / DAY);
    }
  }

  // Two dates in order stay in order when cut to their months; in particular a month, once left,
  // is never entered again.
  lemma MonthsKeepOrder(a: Date, b: Date)
    requires NotAfter(a, b)
    ensures NotAfter(MonthOf(a), MonthOf(b))
  {}

  // ---------------------------------------------------------------- the calendar by its formula

  // Days before a month within its year.
  function DaysBeforeMonth(year: int, month: int): int {
    (if month <= 1 then 0
     else if month == 2 then 31
     else if month == 3 then 59
     else if month == 4 then 90
     else if month == 5 then 120
     else if month == 6 then 151
     else if month == 7 then 181
     else if month == 8 then 212
     else if month == 9 then 243
     else if month == 10 then 273
     else if month == 11 then 304
     else 334)
    + if month > 2 && (year % 4 == 0 && (year % 100 != 0 || year % 400 == 0)) then 1 else 0
  }

  // Days before a year, counted from 1970.
  function DaysBeforeYear(year: int): int {
    365 * (year - 1970) + (year - 1) / 4 - (year - 1) / 100 + (year - 1) / 400 - 477
  }

  function DayNumber(d: Date): int {
    DaysBeforeYear(d.year) + DaysBeforeMonth(d.year, d.month) + d.day - 1
  }

  predicate Civil(d: Date) {
    1 <= d.month <= 12 && 1 <= d.day <= DaysIn(d.year, d.month)
  }

  lemma {:induction false} QuotientSteps(n: int, k: int)
    requires n >= 1 && (k == 4 || k == 100 || k == 400)
    ensures n / k == (n - 1) / k + if n % k == 0 then 1 else 0
  {
    if k == 4 {
      assert n == n / 4 * 4 + n % 4;
    } else if k == 100 {
      assert n == n / 100 * 100 + n % 100;
    } else {
      assert n == n / 400 * 400 + n % 400;
    }
  }

  lemma {:induction false} CenturiesAreFours(n: int)
    ensures n % 400 == 0 ==> n % 100 == 0
    ensures n % 100 == 0 ==> n % 4 == 0
  {
    assert n == n / 400 * 400 + n % 400 && n == n / 100 * 100 + n % 100;
  }

  lemma {:induction false} YearLength(year: int)
    requires year >= 1
    ensures DaysBeforeYear(year + 1) == DaysBeforeYear(year) + if Leap(year) then 366 else 365
  {
    QuotientSteps(year, 4);
    QuotientSteps(year, 100);
    QuotientSteps(year, 400);
    CenturiesAreFours(year);
  }

  lemma {:induction false} NextDayNumber(d: Date)
    requires Civil(d) && d.year >= 1
    ensures Civil(NextDay(d)) && NextDay(d).year >= 1 && DayNumber(NextDay(d)) == DayNumber(d) + 1
  {
    YearLength(d.year);
  }

  lemma {:induction false} FirstDay()
    ensures Civil(Date(1970, 1, 1)) && DayNumber(Date(1970, 1, 1)) == 0
  {
    var year := 1970;
    assert (year - 1) / 4 == 492 && (year - 1) / 100 == 19 && (year - 1) / 400 == 4;
    assert DaysBeforeYear(year) == 0;
  }

  // The n-th date is the civil date with day number n.
  lemma {:induction false} DateNumber(n: nat)
    ensures Civil(DateOf(n)) && DateOf(n).year >= 1 && DayNumber(DateOf(n)) == n
  {
    if n == 0 {
      FirstDay();
    } else {
      DateNumber(n - 1);
      NextDayNumber(DateOf(n - 1));
    }
  }

  // Today is the civil date of the instant's UTC day of 86,400 seconds.
  lemma {:induction false} TodayNumber(now: nat)
    ensures Civil(Today(now)) && DayNumber(Today(now)) == now / (86_400 * 1_000_000)
    ensures MonthOf(Today(now)) == Date(Today(now).year, Today(now).month, 1)
  {
    DateNumber(now / DAY);
  }
}
