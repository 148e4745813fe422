/** Reservation and reconciliation on the project table, in place. */
module BudgetService {
  import opened Options
  import opened Calendar
  import opened Entities
  import opened BudgetRules
  import opened Database

  class Budgets {
    constructor () {}

    // Roll the project over to today's periods, check the limits and charge the reservation. A
    // refused reservation leaves the rollover behind for the caller's session to undo.
    method Reserve(db: Tables, id: ProjectId, requested: int, now: nat)
      returns (r: Result<(Date, Date), BudgetError>)
      requires id in db.projects
      modifies db`projects
      ensures var rolled := RollOver(old(db.projects[id]), Today(now));
        var e := EnforceBudget(SnapshotOf(rolled), requested);
        && (r.Ok? <==> e.None?)
        && (r.Ok? ==> r.value == (Today(now), MonthOf(Today(now))) && db.projects == old(db.projects)[id := Charge(rolled, requested)])
        && (r.Err? ==> e == Some(r.error) && db.projects == old(db.projects)[id := rolled])
    {
      var today := Today(now);
      var month := MonthOf(today);
      var project := db.projects[id];
      if project.dailyDate != today {
        project := project.(dailyDate := today, dailyUsed := 0);
      }
      if project.monthlyMonth != month {
        project := project.(monthlyMonth := month, monthlyUsed := 0);
      }
      db.projects := db.projects[id := project];
      var refusal := EnforceBudget(
        Snapshot(project.dailyLimit, project.dailyUsed, project.monthlyLimit, project.monthlyUsed), requested);
      if refusal.Some? {
        return Err(refusal.value);
      }
      project := project.(dailyUsed := project.dailyUsed + requested, monthlyUsed := project.monthlyUsed + requested);
      db.projects := db.projects[id := project];
      return Ok((today, month));
    }

    // Replace a reservation by actual usage, in each period that is still the one charged.
    method Reconcile(db: Tables, id: ProjectId, reserved: nat, actual: nat, day: Date, month: Date)
      requires id in db.projects
      modifies db`projects
      ensures db.projects == old(db.projects)[id := Adjust(old(db.projects[id]), actual - reserved, day, month)]
    {
      var project := db.projects[id];
      var delta := actual - reserved;
      if project.dailyDate == day {
        project := project.(dailyUsed := AtLeastZero(project.dailyUsed + delta));
      }
      if project.monthlyMonth == month {
        project := project.(monthlyUsed := AtLeastZero(project.monthlyUsed + delta));
      }
      db.projects := db.projects[id := project];
    }

    method Release(db: Tables, id: ProjectId, reserved: nat, day: Date, month: Date)
      requires id in db.projects
      modifies db`projects
      ensures db.projects == old(db.projects)[id := Adjust(old(db.projects[id]), 0 - reserved, day, month)]
    {
      Reconcile(db, id, reserved, 0, day, month);
    }
  }
}
