/**
 * Control calls over all three schedules that nobody disturbs: one call first checks every schedule and then
 * updates them one by one, and an outage can stop it after any prefix of the updates. Calls that overlap are
 * the subject of ControlMachine and Interleavings.
 */
module ControlCalls {
  import opened Options
  import opened Schedules
  import opened ScheduleRuns

  /** The fixed order in which every call visits the schedules. */
  function KindAt(i: nat): TaskKind
    requires i < 3
  {
    if i == 0 then Sla else if i == 1 then Effects else Notifications
  }

  function Position(kind: TaskKind): (i: nat)
    ensures i < 3 && KindAt(i) == kind
  {
    match kind
    case Sla => 0
    case Effects => 1
    case Notifications => 2
  }

  type Rows = map<TaskKind, Schedule>

  datatype Outcome = Outcome(rows: Rows, ok: bool)

  predicate Complete(rows: Rows) {
    forall kind: TaskKind :: kind in rows
  }

  ghost predicate ReachableRows(id: Identity, rows: Rows) {
    Complete(rows) && forall kind :: kind in rows ==> Reachable(id, kind, rows[kind])
  }

  // ----- What one call does -----

  /** The preflight check of one schedule. */
  predicate Admits(step: Step, kind: TaskKind, rows: Rows) {
    && kind in rows
    && match step.action
       case Pause => PauseAllowed(step.actor, kind, rows[kind], step.operation)
       case Resume => ResumeAllowed(step.actor, kind, rows[kind], step.operation)
       case Ensure => MigrationAllowed(step.actor, kind, rows[kind], step.operation, false)
       case Restore => MigrationAllowed(step.actor, kind, rows[kind], step.operation, true)
  }

  predicate AllAdmit(step: Step, rows: Rows) {
    forall kind: TaskKind :: Admits(step, kind, rows)
  }

  predicate Holds(op: string, kind: TaskKind, rows: Rows) {
    kind in rows && ReadPause(rows[kind]).Present? && ReadPause(rows[kind]).record.operation == op
  }

  predicate AllHeld(op: string, rows: Rows) {
    forall kind: TaskKind :: Holds(op, kind, rows)
  }

  predicate NoneHeld(rows: Rows) {
    forall kind :: kind in rows ==> !ReadPause(rows[kind]).Present?
  }

  type Update = (TaskKind, Schedule) -> Option<Schedule>

  /** Update the schedules from the i-th on, with `calls` service calls left before an outage. */
  function UpdateWith(f: Update, i: nat, rows: Rows, calls: nat): (o: Outcome)
    requires i <= 3
    decreases 3 - i
  {
    if i == 3 then Outcome(rows, true)
    else if calls == 0 || KindAt(i) !in rows then Outcome(rows, false)
    else
      match f(KindAt(i), rows[KindAt(i)])
      case None => Outcome(rows, false)
      case Some(t) => UpdateWith(f, i + 1, rows[KindAt(i) := t], calls - 1)
  }

  function Updater(step: Step): Update {
    (kind, s) => Try(step, kind, s)
  }

  function UpdateFrom(step: Step, rows: Rows, calls: nat): Outcome {
    UpdateWith(Updater(step), 0, rows, calls)
  }

  /** A pause or resume call. */
  function PauseOutcome(step: Step, rows: Rows, calls: nat): Outcome {
    if calls < 3 || !AllAdmit(step, rows) then Outcome(rows, false) else UpdateFrom(step, rows, calls - 3)
  }

  /** An ensure or restore call; `drained` is the verdict of the drain evidence. */
  function MigrateOutcome(step: Step, rows: Rows, calls: nat, drained: bool): Outcome {
    if calls < 3 || !AllAdmit(step, rows) then Outcome(rows, false)
    else if NoneHeld(rows) then Outcome(rows, true)
    else if calls < 6 || !AllHeld(step.operation, rows) || !drained then Outcome(rows, false)
    else UpdateFrom(step, rows, calls - 6)
  }

  datatype Call = Call(step: Step, calls: nat, drained: bool)

  function CallOutcome(c: Call, rows: Rows): Outcome {
    if c.step.action.Pause? || c.step.action.Resume? then PauseOutcome(c.step, rows, c.calls)
    else MigrateOutcome(c.step, rows, c.calls, c.drained)
  }

  function RunCalls(calls: seq<Call>, rows: Rows): Rows {
    if calls == [] then rows else RunCalls(calls[1..], CallOutcome(calls[0], rows).rows)
  }

  ghost predicate ValidCalls(id: Identity, calls: seq<Call>) {
    forall i :: 0 <= i < |calls| ==> ValidStep(id, calls[i].step)
  }

  // ----- What a passed check is worth -----

  /** The check of a pause or resume passes exactly where the schedule would then accept it. */
  lemma CheckIsAcceptance(step: Step, kind: TaskKind, rows: Rows)
    requires step.action.Pause? || step.action.Resume?
    ensures Admits(step, kind, rows) <==> kind in rows && Accepted(step, kind, rows[kind])
  {
  }

  /**
   * That of a migration as well, as far as the schedule is held. A free one passes when it already runs the caller's
   * configuration and, for a restore, its memo says that this very operation has restored it to this build.
   */
  lemma MigrationCheckIff(step: Step, kind: TaskKind, rows: Rows)
    requires step.action.Ensure? || step.action.Restore?
    ensures kind !in rows ==> !Admits(step, kind, rows)
    ensures kind in rows && !rows[kind].note.Text? ==> (Admits(step, kind, rows) <==> Accepted(step, kind, rows[kind]))
    ensures kind in rows && rows[kind].note.Text? ==>
      var s := rows[kind];
      (Admits(step, kind, rows) <==>
         && s.owner == step.actor.identity && s.standard && s.config == Desired(step.actor, kind)
         && (step.action.Restore? ==>
               && s.memo.History? && s.memo.record.restoring && s.memo.record.operation == step.operation
               && s.memo.record.targetBuild == step.actor.build && s.memo.record.targetConfig == Some(s.config)))
  {
  }

  /** A call that changes any schedule had every schedule accept its update. */
  lemma ChangeMeansAcceptance(c: Call, rows: Rows, kind: TaskKind)
    requires Complete(rows) && CallOutcome(c, rows).rows != rows
    ensures Accepted(c.step, kind, rows[kind])
  {
    assert Admits(c.step, kind, rows);
    if c.step.action.Pause? || c.step.action.Resume? {
      CheckIsAcceptance(c.step, kind, rows);
    } else {
      assert Holds(c.step.operation, kind, rows);
      MigrationCheckIff(c.step, kind, rows);
    }
  }

  // ----- Calls refine per-schedule steps -----

  lemma {:induction false} UpdateWithRows(f: Update, i: nat, rows: Rows, calls: nat, kind: TaskKind)
    requires i <= 3 && Complete(rows)
    ensures var o := UpdateWith(f, i, rows, calls);
            && Complete(o.rows)
            && (o.rows[kind] == rows[kind] || f(kind, rows[kind]) == Some(o.rows[kind]))
            && (Position(kind) < i ==> o.rows[kind] == rows[kind])
            && (o.ok && Position(kind) >= i ==> f(kind, rows[kind]) == Some(o.rows[kind]))
    decreases 3 - i
  {
    if i < 3 && calls > 0 {
      var t := f(KindAt(i), rows[KindAt(i)]);
      if t.Some? {
        UpdateWithRows(f, i + 1, rows[KindAt(i) := t.value], calls - 1, kind);
      }
    }
  }

  lemma {:induction false} UpdateWithSucceeds(f: Update, i: nat, rows: Rows, calls: nat)
    requires i <= 3 && Complete(rows) && 3 - i <= calls
    requires forall kind :: Position(kind) >= i ==> f(kind, rows[kind]).Some?
    ensures UpdateWith(f, i, rows, calls).ok
    decreases 3 - i
  {
    if i < 3 {
      UpdateWithSucceeds(f, i + 1, rows[KindAt(i) := f(KindAt(i), rows[KindAt(i)]).value], calls - 1);
    }
  }

  /** The updates of a call leave each schedule alone or apply exactly its step; a success applies it to all. */
  lemma UpdateFromRows(step: Step, rows: Rows, calls: nat, kind: TaskKind)
    requires Complete(rows)
    ensures var o := UpdateFrom(step, rows, calls);
            && Complete(o.rows)
            && (o.rows[kind] == rows[kind] || Try(step, kind, rows[kind]) == Some(o.rows[kind]))
            && (o.ok ==> Try(step, kind, rows[kind]) == Some(o.rows[kind]))
  {
    UpdateWithRows(Updater(step), 0, rows, calls, kind);
  }

  /** The rows after every schedule accepted the step. */
  function ApplyAll(step: Step, rows: Rows): Rows {
    map kind | kind in rows :: Apply(step, kind, rows[kind])
  }

  /** Updates succeed exactly when every schedule accepts, and then apply to all of them. */
  lemma UpdateFromSucceeds(step: Step, rows: Rows, calls: nat)
    requires Complete(rows) && 3 <= calls
    requires forall kind :: kind in rows ==> Accepted(step, kind, rows[kind])
    ensures UpdateFrom(step, rows, calls) == Outcome(ApplyAll(step, rows), true)
  {
    UpdateWithSucceeds(Updater(step), 0, rows, calls);
    var o := UpdateFrom(step, rows, calls);
    forall kind: TaskKind
      ensures kind in o.rows && o.rows[kind] == ApplyAll(step, rows)[kind]
    {
      UpdateFromRows(step, rows, calls, kind);
    }
    assert o.rows == ApplyAll(step, rows);
  }

  /** The steps one schedule accepts during a sequence of calls. */
  ghost function RowSteps(calls: seq<Call>, kind: TaskKind, rows: Rows): seq<Step>
    requires Complete(rows)
  {
    if calls == [] then []
    else
      CallKeepsComplete(calls[0], rows);
      var next := CallOutcome(calls[0], rows).rows;
      (if next[kind] == rows[kind] then [] else [calls[0].step]) + RowSteps(calls[1..], kind, next)
  }

  lemma CallKeepsComplete(c: Call, rows: Rows)
    requires Complete(rows)
    ensures Complete(CallOutcome(c, rows).rows)
    ensures forall kind :: var s, t := rows[kind], CallOutcome(c, rows).rows[kind];
              t == s || (Accepted(c.step, kind, s) && t == Apply(c.step, kind, s))
  {
    var rest := if c.calls < 3 then 0 else if c.step.action.Pause? || c.step.action.Resume? then c.calls - 3
                else if c.calls < 6 then 0 else c.calls - 6;
    forall kind: TaskKind
      ensures var o := UpdateFrom(c.step, rows, rest);
              kind in o.rows && var s, t := rows[kind], o.rows[kind];
              t == s || (Accepted(c.step, kind, s) && t == Apply(c.step, kind, s))
    {
      UpdateFromRows(c.step, rows, rest, kind);
    }
  }

  /** Any sequence of calls, with any outages, is on each schedule a run of atomic steps. */
  lemma {:induction false} CallsRefineSteps(id: Identity, calls: seq<Call>, kind: TaskKind, rows: Rows)
    requires Complete(rows) && ValidCalls(id, calls)
    ensures var steps := RowSteps(calls, kind, rows); var end := RunCalls(calls, rows);
            Complete(end) && end[kind] == Run(steps, kind, rows[kind]) && ValidSteps(id, steps)
  {
    if calls != [] {
      CallKeepsComplete(calls[0], rows);
      var next := CallOutcome(calls[0], rows).rows;
      CallsRefineSteps(id, calls[1..], kind, next);
      var rest := RowSteps(calls[1..], kind, next);
      if next[kind] != rows[kind] {
        assert RowSteps(calls, kind, rows) == [calls[0].step] + rest;
        assert ([calls[0].step] + rest)[1..] == rest;
      } else {
        assert RowSteps(calls, kind, rows) == [] + rest == rest;
      }
    }
  }

  // ----- Theorems about whole sequences of calls -----

  lemma RowIsRestored(id: Identity, calls: seq<Call>, resume: Call, rows: Rows, kind: TaskKind)
    requires Complete(rows) && ReadPause(rows[kind]).Absent?
    requires ValidCalls(id, calls) && ValidStep(id, resume.step) && resume.step.action == Resume
    requires CallOutcome(resume, RunCalls(calls, rows)).ok
    ensures var end := CallOutcome(resume, RunCalls(calls, rows)).rows;
            Complete(end) && (end[kind].paused, end[kind].note) == Settle((rows[kind].paused, rows[kind].note))
  {
    CallsRefineSteps(id, calls, kind, rows);
    UpdateFromRows(resume.step, RunCalls(calls, rows), resume.calls - 3, kind);
    ResumeRestoresOriginal(id, RowSteps(calls, kind, rows), resume.step, kind, rows[kind]);
  }

  /** After any calls and outages, a successful resume leaves all three schedules as the operator had them. */
  lemma WholeRunRestoration(id: Identity, calls: seq<Call>, resume: Call, rows: Rows)
    requires Complete(rows) && (forall kind :: kind in rows ==> ReadPause(rows[kind]).Absent?)
    requires ValidCalls(id, calls) && ValidStep(id, resume.step) && resume.step.action == Resume
    requires CallOutcome(resume, RunCalls(calls, rows)).ok
    ensures var end := CallOutcome(resume, RunCalls(calls, rows)).rows;
            Complete(end) && forall kind :: (end[kind].paused, end[kind].note) == Settle((rows[kind].paused, rows[kind].note))
  {
    forall kind: TaskKind
      ensures var end := CallOutcome(resume, RunCalls(calls, rows)).rows;
              Complete(end) && (end[kind].paused, end[kind].note) == Settle((rows[kind].paused, rows[kind].note))
    {
      RowIsRestored(id, calls, resume, rows, kind);
    }
  }

  /** All stored records belong to one operation. */
  predicate SingleOwner(rows: Rows) {
    forall k, k' :: k in rows && k' in rows && ReadPause(rows[k]).Present? && ReadPause(rows[k']).Present? ==>
      ReadPause(rows[k]).record.operation == ReadPause(rows[k']).record.operation
  }

  /** Preflight keeps two operations from ever splitting the three schedules between them, outages included. */
  lemma CallKeepsSingleOwner(id: Identity, c: Call, rows: Rows)
    requires Complete(rows) && SingleOwner(rows) && ValidStep(id, c.step)
    ensures SingleOwner(CallOutcome(c, rows).rows)
  {
    var o := CallOutcome(c, rows);
    CallKeepsComplete(c, rows);
    if o.rows != rows {
      assert AllAdmit(c.step, rows);
      forall kind: TaskKind
        ensures ReadPause(o.rows[kind]).Present? ==> ReadPause(o.rows[kind]).record.operation == c.step.operation
      {
        assert Admits(c.step, kind, rows);
      }
    }
  }

  lemma {:induction false} RunKeepsSingleOwner(id: Identity, calls: seq<Call>, rows: Rows)
    requires Complete(rows) && SingleOwner(rows) && ValidCalls(id, calls)
    ensures SingleOwner(RunCalls(calls, rows))
  {
    if calls != [] {
      CallKeepsSingleOwner(id, calls[0], rows);
      CallKeepsComplete(calls[0], rows);
      RunKeepsSingleOwner(id, calls[1..], CallOutcome(calls[0], rows).rows);
    }
  }

  /** A call of a foreign operation changes nothing as long as any schedule is held. */
  lemma ForeignCallChangesNothing(c: Call, rows: Rows, kind: TaskKind)
    requires Complete(rows) && ReadPause(rows[kind]).Present? && ReadPause(rows[kind]).record.operation != c.step.operation
    ensures CallOutcome(c, rows) == Outcome(rows, false)
  {
    assert !Admits(c.step, kind, rows);
  }

  // ----- Retrying an interrupted call -----

  /** Repeating an accepted step is accepted and changes nothing further. */
  lemma StepIsIdempotent(id: Identity, step: Step, kind: TaskKind, s: Schedule)
    requires ValidStep(id, step) && Reachable(id, kind, s) && Accepted(step, kind, s)
    ensures var t := Apply(step, kind, s); Accepted(step, kind, t) && Apply(step, kind, t) == t
  {
    StepKeepsReachable(id, step, kind, s);
    if step.action != Resume {
      ControlledIsObservable(step.actor, kind, Apply(step, kind, s));
    }
  }

  predicate IsMigration(step: Step) {
    step.action.Ensure? || step.action.Restore?
  }

  /** The updates a call reaches once its checks passed. */
  lemma CallReachesUpdates(step: Step, rows: Rows, calls: nat)
    requires Complete(rows) && 9 <= calls && AllAdmit(step, rows)
    requires IsMigration(step) ==> AllHeld(step.operation, rows)
    ensures CallOutcome(Call(step, calls, true), rows)
         == UpdateFrom(step, rows, if IsMigration(step) then calls - 6 else calls - 3)
  {
    if IsMigration(step) {
      assert Holds(step.operation, Sla, rows);
    }
  }

  /** What one schedule of a broken call looks like to its retry. */
  lemma PartialRow(id: Identity, step: Step, kind: TaskKind, s: Schedule, t: Schedule)
    requires ValidStep(id, step) && Reachable(id, kind, s) && Accepted(step, kind, s)
    requires t == s || t == Apply(step, kind, s)
    ensures Accepted(step, kind, t) && Apply(step, kind, t) == Apply(step, kind, s)
    ensures IsMigration(step) ==> ReadPause(t).Present? && ReadPause(t).record.operation == step.operation
  {
    StepIsIdempotent(id, step, kind, s);
  }

  /** Some of the schedules are updated already. */
  ghost predicate PartlyUpdated(step: Step, rows: Rows, partial: Rows) {
    && Complete(rows) && Complete(partial)
    && forall kind :: kind in rows ==>
         Accepted(step, kind, rows[kind])
         && (partial[kind] == rows[kind] || partial[kind] == Apply(step, kind, rows[kind]))
  }

  lemma PartialRows(id: Identity, step: Step, rows: Rows, partial: Rows)
    requires ValidStep(id, step) && ReachableRows(id, rows) && PartlyUpdated(step, rows, partial)
    ensures forall kind :: kind in partial ==> Accepted(step, kind, partial[kind])
    ensures ApplyAll(step, partial) == ApplyAll(step, rows)
    ensures IsMigration(step) ==> AllHeld(step.operation, partial)
  {
    forall kind: TaskKind
      ensures Accepted(step, kind, partial[kind]) && Apply(step, kind, partial[kind]) == Apply(step, kind, rows[kind])
      ensures IsMigration(step) ==> Holds(step.operation, kind, partial)
    {
      PartialRow(id, step, kind, rows[kind], partial[kind]);
    }
  }

  lemma AcceptedIsAdmitted(step: Step, rows: Rows)
    requires Complete(rows) && forall kind :: kind in rows ==> Accepted(step, kind, rows[kind])
    ensures AllAdmit(step, rows)
  {
    forall kind: TaskKind ensures Admits(step, kind, rows) { assert Accepted(step, kind, rows[kind]); }
  }

  lemma RetryUpdates(id: Identity, step: Step, rows: Rows, partial: Rows, left: nat)
    requires ValidStep(id, step) && ReachableRows(id, rows) && PartlyUpdated(step, rows, partial) && 3 <= left
    ensures AllAdmit(step, partial) && (IsMigration(step) ==> AllHeld(step.operation, partial))
    ensures UpdateFrom(step, partial, left) == UpdateFrom(step, rows, left)
  {
    PartialRows(id, step, rows, partial);
    AcceptedIsAdmitted(step, partial);
    UpdateFromSucceeds(step, partial, left);
    UpdateFromSucceeds(step, rows, left);
  }

  /** The schedules after any number of attempts at one call, each with its own outage and drain verdict. */
  function Attempts(step: Step, broken: seq<(nat, bool)>, rows: Rows): Rows {
    if broken == [] then rows
    else
      var last := broken[|broken| - 1];
      CallOutcome(Call(step, last.0, last.1), Attempts(step, broken[..|broken| - 1], rows)).rows
  }

  /** They go from schedules to schedules, one attempt after the other. */
  lemma {:induction false} AttemptsAre(step: Step, broken: seq<(nat, bool)>, states: seq<Rows>)
    requires |states| == |broken| + 1
    requires forall i :: 0 <= i < |broken| ==>
      states[i + 1] == CallOutcome(Call(step, broken[i].0, broken[i].1), states[i]).rows
    ensures Attempts(step, broken, states[0]) == states[|broken|]
  {
    if broken != [] {
      AttemptsAre(step, broken[..|broken| - 1], states[..|broken|]);
    }
  }

  /** Every schedule is untouched or has its one update behind it. */
  ghost predicate PartlyDone(step: Step, rows: Rows, partial: Rows)
    requires Complete(rows)
  {
    Complete(partial) && forall kind :: kind in rows ==>
      (partial[kind] == rows[kind]
       || (Accepted(step, kind, rows[kind]) && partial[kind] == Apply(step, kind, rows[kind])))
  }

  lemma AttemptRow(id: Identity, step: Step, kind: TaskKind, s: Schedule, t: Schedule, u: Schedule)
    requires ValidStep(id, step) && Reachable(id, kind, s)
    requires t == s || (Accepted(step, kind, s) && t == Apply(step, kind, s))
    requires u == t || (Accepted(step, kind, t) && u == Apply(step, kind, t))
    ensures u == s || (Accepted(step, kind, s) && u == Apply(step, kind, s))
  {
    if Accepted(step, kind, s) { StepIsIdempotent(id, step, kind, s); }
  }

  lemma {:induction false} AttemptsArePartlyDone(id: Identity, step: Step, broken: seq<(nat, bool)>, rows: Rows)
    requires ValidStep(id, step) && ReachableRows(id, rows)
    ensures PartlyDone(step, rows, Attempts(step, broken, rows))
  {
    if broken != [] {
      var front, last := broken[..|broken| - 1], broken[|broken| - 1];
      AttemptsArePartlyDone(id, step, front, rows);
      var before := Attempts(step, front, rows);
      CallKeepsComplete(Call(step, last.0, last.1), before);
      forall kind | kind in rows
        ensures var u := Attempts(step, broken, rows)[kind];
          u == rows[kind] || (Accepted(step, kind, rows[kind]) && u == Apply(step, kind, rows[kind]))
      {
        AttemptRow(id, step, kind, rows[kind], before[kind], Attempts(step, broken, rows)[kind]);
      }
    }
  }

  /** A migration that has nothing controlled in front of it has nothing to break off. */
  lemma {:induction false} AttemptsAtNothing(step: Step, broken: seq<(nat, bool)>, rows: Rows)
    requires IsMigration(step) && NoneHeld(rows)
    ensures Attempts(step, broken, rows) == rows
  {
    if broken != [] { AttemptsAtNothing(step, broken[..|broken| - 1], rows); }
  }

  /**
   * If a call would succeed undisturbed, then after any number of attempts at it, each broken off anywhere,
   * repeating it with the service back succeeds and ends exactly where the undisturbed call ends.
   */
  lemma RetryCompletes(id: Identity, step: Step, rows: Rows, broken: seq<(nat, bool)>, calls: nat)
    requires ValidStep(id, step) && ReachableRows(id, rows) && 9 <= calls
    requires CallOutcome(Call(step, calls, true), rows).ok
    ensures CallOutcome(Call(step, calls, true), Attempts(step, broken, rows))
         == CallOutcome(Call(step, calls, true), rows)
  {
    if IsMigration(step) && NoneHeld(rows) {
      AttemptsAtNothing(step, broken, rows);
    } else {
      var partial := Attempts(step, broken, rows);
      var left := if IsMigration(step) then calls - 6 else calls - 3;
      AttemptsArePartlyDone(id, step, broken, rows);
      CallReachesUpdates(step, rows, calls);
      forall kind | kind in rows
        ensures Accepted(step, kind, rows[kind])
        ensures partial[kind] == rows[kind] || partial[kind] == Apply(step, kind, rows[kind])
      {
        UpdateFromRows(step, rows, left, kind);
      }
      assert PartlyUpdated(step, rows, partial);
      RetryUpdates(id, step, rows, partial, left);
      CallReachesUpdates(step, partial, calls);
    }
  }

  // ----- Rollback of all three schedules -----

  ghost predicate NeverResumedBy(op: string, calls: seq<Call>) {
    forall i :: 0 <= i < |calls| ==> !(calls[i].step.action == Resume && calls[i].step.operation == op)
  }

  lemma {:induction false} RowStepsNeverResume(op: string, calls: seq<Call>, kind: TaskKind, rows: Rows)
    requires Complete(rows) && NeverResumedBy(op, calls)
    ensures NeverResumes(op, RowSteps(calls, kind, rows))
  {
    if calls != [] {
      CallKeepsComplete(calls[0], rows);
      RowStepsNeverResume(op, calls[1..], kind, CallOutcome(calls[0], rows).rows);
    }
  }

  lemma SuccessfulCallAppliesToAll(c: Call, rows: Rows, kind: TaskKind)
    requires Complete(rows) && CallOutcome(c, rows).ok && !(IsMigration(c.step) && NoneHeld(rows))
    ensures var o := CallOutcome(c, rows);
            Complete(o.rows) && Accepted(c.step, kind, rows[kind]) && o.rows[kind] == Apply(c.step, kind, rows[kind])
  {
    UpdateFromRows(c.step, rows, if IsMigration(c.step) then c.calls - 6 else c.calls - 3, kind);
  }

  /** A free schedule that passes the preflight of a migration already runs the caller's configuration. */
  lemma AdmittedFreeRow(step: Step, rows: Rows, kind: TaskKind)
    requires Complete(rows) && IsMigration(step) && Admits(step, kind, rows) && !ReadPause(rows[kind]).Present?
    ensures rows[kind].config == Desired(step.actor, kind)
  {
  }

  /**
   * What a successful answer means, on every schedule: a pause holds it for the operation, a resume has
   * released it, and a resume, an ensure or a restore leaves it in the caller's own configuration.
   */
  lemma SuccessMeans(id: Identity, c: Call, rows: Rows, kind: TaskKind)
    requires ReachableRows(id, rows) && ValidStep(id, c.step) && CallOutcome(c, rows).ok
    ensures var o := CallOutcome(c, rows);
            && Complete(o.rows)
            && (c.step.action.Pause? ==> Holds(c.step.operation, kind, o.rows) && o.rows[kind].paused)
            && (c.step.action.Resume? ==> !ReadPause(o.rows[kind]).Present?)
            && (!c.step.action.Pause? ==> o.rows[kind].config == Desired(c.step.actor, kind))
  {
    if IsMigration(c.step) && NoneHeld(rows) {
      AdmittedFreeRow(c.step, rows, kind);
    } else {
      SuccessfulCallAppliesToAll(c, rows, kind);
      StepKeepsBaseline(id, c.step, kind, rows[kind]);
    }
  }

  /** Acceptance on every schedule is all a call needs, once the service is up and drained. */
  lemma AcceptedCallSucceeds(step: Step, rows: Rows, calls: nat)
    requires Complete(rows) && 9 <= calls && forall kind :: kind in rows ==> Accepted(step, kind, rows[kind])
    requires IsMigration(step) ==> AllHeld(step.operation, rows)
    ensures CallOutcome(Call(step, calls, true), rows) == Outcome(ApplyAll(step, rows), true)
  {
    CallReachesUpdates(step, rows, calls);
    UpdateFromSucceeds(step, rows, if IsMigration(step) then calls - 6 else calls - 3);
  }

  /** The old process can take one schedule back, and what it then looks like. */
  ghost predicate Returnable(outgoing: Process, op: string, kind: TaskKind, m: Schedule, s: Schedule) {
    var t := Apply(Step(outgoing, Restore, op), kind, m);
    var u := Apply(Step(outgoing, Resume, op), kind, t);
    && Accepted(Step(outgoing, Restore, op), kind, m) && Accepted(Step(outgoing, Resume, op), kind, t)
    && u.config == s.config && (u.paused, u.note) == Settle((s.paused, s.note))
  }

  lemma PausedRowIsReturnable(outgoing: Process, op: string, first: nat, calls: seq<Call>, rows: Rows, kind: TaskKind)
    requires ValidProcess(outgoing) && SafeOperation(op) && ReachableRows(outgoing.identity, rows)
    requires ReadPause(rows[kind]).Absent?
    requires ValidCalls(outgoing.identity, calls) && NeverResumedBy(op, calls)
    requires CallOutcome(Call(Step(outgoing, Pause, op), first, true), rows).ok
    ensures var mid := RunCalls(calls, CallOutcome(Call(Step(outgoing, Pause, op), first, true), rows).rows);
            Complete(mid) && Holds(op, kind, mid) && Returnable(outgoing, op, kind, mid[kind], rows[kind])
  {
    var pause := Step(outgoing, Pause, op);
    var paused := CallOutcome(Call(pause, first, true), rows).rows;
    SuccessfulCallAppliesToAll(Call(pause, first, true), rows, kind);
    CallsRefineSteps(outgoing.identity, calls, kind, paused);
    RowStepsNeverResume(op, calls, kind, paused);
    var steps := RowSteps(calls, kind, paused);
    RollbackRoundTrip(outgoing, op, steps, kind, rows[kind]);
    StepKeepsBaseline(outgoing.identity, pause, kind, rows[kind]);
    RunRespectsOwner(outgoing.identity, op, steps, kind, paused[kind]);
  }

  lemma ReturnedAccept(outgoing: Process, op: string, mid: Rows, rows: Rows)
    requires Complete(mid) && Complete(rows)
    requires forall kind :: kind in rows ==> Returnable(outgoing, op, kind, mid[kind], rows[kind])
    ensures forall kind :: kind in mid ==> Accepted(Step(outgoing, Restore, op), kind, mid[kind])
    ensures var restored := ApplyAll(Step(outgoing, Restore, op), mid);
      && Complete(restored)
      && forall kind :: kind in restored ==> Accepted(Step(outgoing, Resume, op), kind, restored[kind])
  {
    forall kind: TaskKind
      ensures Accepted(Step(outgoing, Restore, op), kind, mid[kind])
      ensures Accepted(Step(outgoing, Resume, op), kind, Apply(Step(outgoing, Restore, op), kind, mid[kind]))
    {
      assert Returnable(outgoing, op, kind, mid[kind], rows[kind]);
    }
  }

  lemma RestoreAndResumeAll(outgoing: Process, op: string, mid: Rows, rows: Rows, n: nat)
    requires Complete(mid) && Complete(rows) && 9 <= n && AllHeld(op, mid)
    requires forall kind :: kind in rows ==> Returnable(outgoing, op, kind, mid[kind], rows[kind])
    ensures var restored := CallOutcome(Call(Step(outgoing, Restore, op), n, true), mid);
            var resumed := CallOutcome(Call(Step(outgoing, Resume, op), n, true), restored.rows);
            && restored == Outcome(ApplyAll(Step(outgoing, Restore, op), mid), true)
            && resumed == Outcome(ApplyAll(Step(outgoing, Resume, op), restored.rows), true)
  {
    ReturnedAccept(outgoing, op, mid, rows);
    AcceptedCallSucceeds(Step(outgoing, Restore, op), mid, n);
    AcceptedCallSucceeds(Step(outgoing, Resume, op), ApplyAll(Step(outgoing, Restore, op), mid), n);
  }

  lemma ReturnedRows(outgoing: Process, op: string, mid: Rows, rows: Rows)
    requires Complete(mid) && Complete(rows)
    requires forall kind :: kind in rows ==> Returnable(outgoing, op, kind, mid[kind], rows[kind])
    ensures var end := ApplyAll(Step(outgoing, Resume, op), ApplyAll(Step(outgoing, Restore, op), mid));
            Complete(end) && forall kind :: kind in rows ==>
              end[kind].config == rows[kind].config
              && (end[kind].paused, end[kind].note) == Settle((rows[kind].paused, rows[kind].note))
  {
    var end := ApplyAll(Step(outgoing, Resume, op), ApplyAll(Step(outgoing, Restore, op), mid));
    forall kind: TaskKind
      ensures kind in end && end[kind].config == rows[kind].config
              && (end[kind].paused, end[kind].note) == Settle((rows[kind].paused, rows[kind].note))
    {
      assert Returnable(outgoing, op, kind, mid[kind], rows[kind]);
    }
  }

  /**
   * Rollback of a whole deployment: after the old process paused all three schedules, any calls of
   * any valid processes with any outages (except resuming this operation) leave the old process able
   * to restore and then resume all three, back to their configuration and the operator's pauses.
   */
  lemma RollbackOfDeployment(outgoing: Process, op: string, first: nat, calls: seq<Call>, rows: Rows, n: nat)
    requires ValidProcess(outgoing) && SafeOperation(op) && ReachableRows(outgoing.identity, rows) && 9 <= n
    requires forall kind :: kind in rows ==> ReadPause(rows[kind]).Absent?
    requires ValidCalls(outgoing.identity, calls) && NeverResumedBy(op, calls)
    requires CallOutcome(Call(Step(outgoing, Pause, op), first, true), rows).ok
    ensures var mid := RunCalls(calls, CallOutcome(Call(Step(outgoing, Pause, op), first, true), rows).rows);
            var restored := CallOutcome(Call(Step(outgoing, Restore, op), n, true), mid);
            var resumed := CallOutcome(Call(Step(outgoing, Resume, op), n, true), restored.rows);
            && restored.ok && resumed.ok && Complete(resumed.rows)
            && forall kind :: kind in rows ==> var u := resumed.rows[kind];
                 u.config == rows[kind].config && (u.paused, u.note) == Settle((rows[kind].paused, rows[kind].note))
  {
    var mid := RunCalls(calls, CallOutcome(Call(Step(outgoing, Pause, op), first, true), rows).rows);
    forall kind: TaskKind
      ensures Complete(mid) && Holds(op, kind, mid) && Returnable(outgoing, op, kind, mid[kind], rows[kind])
    {
      PausedRowIsReturnable(outgoing, op, first, calls, rows, kind);
    }
    RestoreAndResumeAll(outgoing, op, mid, rows, n);
    ReturnedRows(outgoing, op, mid, rows);
  }
}
