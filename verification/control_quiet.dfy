/** A call that nobody disturbs is the single outcome that the theorems about whole calls speak of. */
module QuietCalls {
  import opened Options
  import opened Schedules
  import opened ScheduleRuns
  import opened ControlCalls
  import opened ControlMachine

  lemma {:induction false} QuietUpdates(step: Step, controlled: bool, i: nat, rows: Rows,
                                        n: nat, left: nat, drained: bool)
    requires i <= 3
    ensures Drive(Progress(step, if i < 3 then Updating(i) else Ended(true), controlled), rows, n, left, [], drained)
         == UpdateWith(Updater(step), i, rows, left)
    decreases 3 - i
  {
    if i < 3 && left > 0 && KindAt(i) in rows {
      var t := Try(step, KindAt(i), rows[KindAt(i)]);
      if t.Some? {
        QuietUpdates(step, controlled, i + 1, rows[KindAt(i) := t.value], n + 1, left - 1, drained);
      }
    }
  }

  /** The first i schedules pass a preflight. */
  predicate AdmitsFirst(step: Step, rows: Rows, i: nat) {
    && (i > 0 ==> Admits(step, Sla, rows)) && (i > 1 ==> Admits(step, Effects, rows))
    && (i > 2 ==> Admits(step, Notifications, rows))
  }

  predicate Controlled(kind: TaskKind, rows: Rows) {
    kind in rows && ReadPause(rows[kind]).Present?
  }

  /** One of the first i schedules is controlled. */
  predicate SeenFirst(rows: Rows, i: nat) {
    || (i > 0 && Controlled(Sla, rows)) || (i > 1 && Controlled(Effects, rows))
    || (i > 2 && Controlled(Notifications, rows))
  }

  predicate HoldsFirst(op: string, rows: Rows, i: nat) {
    && (i > 0 ==> Holds(op, Sla, rows)) && (i > 1 ==> Holds(op, Effects, rows))
    && (i > 2 ==> Holds(op, Notifications, rows))
  }

  lemma AllFirst(step: Step, rows: Rows)
    ensures AdmitsFirst(step, rows, 3) <==> AllAdmit(step, rows)
    ensures HoldsFirst(step.operation, rows, 3) <==> AllHeld(step.operation, rows)
    ensures SeenFirst(rows, 3) <==> !NoneHeld(rows)
  {
    if AdmitsFirst(step, rows, 3) {
      forall kind: TaskKind ensures Admits(step, kind, rows) {
        match kind case Sla => case Effects => case Notifications =>
      }
    }
    if HoldsFirst(step.operation, rows, 3) {
      forall kind: TaskKind ensures Holds(step.operation, kind, rows) {
        match kind case Sla => case Effects => case Notifications =>
      }
    }
    if !SeenFirst(rows, 3) {
      forall kind | kind in rows ensures !ReadPause(rows[kind]).Present? {
        match kind case Sla => case Effects => case Notifications =>
      }
    }
  }

  lemma {:induction false} QuietChecks(step: Step, rows: Rows, i: nat, calls: nat, drained: bool)
    requires i <= 3
    ensures Drive(Started(step), rows, 0, calls, [], drained)
         == if calls < i || !AdmitsFirst(step, rows, i) then Outcome(rows, false)
            else var seen := IsMigration(step) && SeenFirst(rows, i);
                 Drive(if i < 3 then Progress(step, Checking(i), seen) else Checked(step, seen),
                       rows, i, calls - i, [], drained)
  {
    if i > 0 {
      QuietChecks(step, rows, i - 1, calls, drained);
    }
  }

  lemma {:induction false} QuietHolds(step: Step, rows: Rows, i: nat, left: nat, drained: bool)
    requires i <= 3
    ensures Drive(Progress(step, Holding(0), true), rows, 3, left, [], drained)
         == if left < i || !HoldsFirst(step.operation, rows, i) then Outcome(rows, false)
            else Drive(Progress(step, if i < 3 then Holding(i) else Draining, true), rows, 3 + i, left - i, [], drained)
  {
    if i > 0 {
      QuietHolds(step, rows, i - 1, left, drained);
    }
  }

  /** Without anybody in between, the operations of a pause or resume add up to its outcome. */
  lemma QuietPause(step: Step, rows: Rows, calls: nat, drained: bool)
    requires !IsMigration(step)
    ensures Drive(Started(step), rows, 0, calls, [], drained) == PauseOutcome(step, rows, calls)
  {
    AllFirst(step, rows);
    QuietChecks(step, rows, 3, calls, drained);
    if calls >= 3 && AllAdmit(step, rows) { QuietUpdates(step, false, 0, rows, 3, calls - 3, drained); }
  }

  lemma QuietAfterChecks(step: Step, rows: Rows, left: nat, drained: bool)
    ensures Drive(Progress(step, Holding(0), true), rows, 3, left, [], drained)
         == if left < 3 || !AllHeld(step.operation, rows) || !drained then Outcome(rows, false)
            else UpdateFrom(step, rows, left - 3)
  {
    AllFirst(step, rows);
    QuietHolds(step, rows, 3, left, drained);
    if left >= 3 && AllHeld(step.operation, rows) && drained {
      QuietUpdates(step, true, 0, rows, 7, left - 3, drained);
    }
  }

  /** The same for an ensure or a restore. */
  lemma QuietMigration(step: Step, rows: Rows, calls: nat, drained: bool)
    requires IsMigration(step)
    ensures Drive(Started(step), rows, 0, calls, [], drained) == MigrateOutcome(step, rows, calls, drained)
  {
    AllFirst(step, rows);
    QuietChecks(step, rows, 3, calls, drained);
    if calls >= 3 && AllAdmit(step, rows) && !NoneHeld(rows) { QuietAfterChecks(step, rows, calls - 3, drained); }
  }

  /** So a call that nobody disturbs has exactly the outcome of the theorems about whole calls. */
  lemma QuietCall(step: Step, rows: Rows, calls: nat, drained: bool)
    ensures Drive(Started(step), rows, 0, calls, [], drained) == CallOutcome(Call(step, calls, drained), rows)
  {
    if IsMigration(step) {
      QuietMigration(step, rows, calls, drained);
    } else {
      QuietPause(step, rows, calls, drained);
    }
  }
}
