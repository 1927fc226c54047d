/**
 * Whole-run theorems about one schedule: any number of operations, any mix of
 * processes of the same identity, every interleaving and every partial failure
 * of the three per-schedule updates appears here as some sequence of steps.
 */
module ScheduleRuns {
  import opened Options
  import opened Schedules

  function Run(steps: seq<Step>, kind: TaskKind, s: Schedule): Schedule {
    if steps == [] then s else Run(steps[1..], kind, Apply(steps[0], kind, s))
  }

  /** A request that passed the control endpoint, made to a process of this identity. */
  ghost predicate ValidStep(id: Identity, step: Step) {
    ValidProcess(step.actor) && step.actor.identity == id && SafeOperation(step.operation)
  }

  ghost predicate ValidSteps(id: Identity, steps: seq<Step>) {
    forall i :: 0 <= i < |steps| ==> ValidStep(id, steps[i])
  }

  /** No step of the run resumes operation `op`. */
  ghost predicate NeverResumes(op: string, steps: seq<Step>) {
    forall i :: 0 <= i < |steps| ==> !(steps[i].action == Resume && steps[i].operation == op)
  }

  predicate Accepted(step: Step, kind: TaskKind, s: Schedule) {
    Try(step, kind, s).Some?
  }

  // ----- Restoration of the operator's own pause -----

  /** The pause flag and note an operator set, seen through a stored control record. */
  function Baseline(s: Schedule): (b: (bool, Note)) {
    match ReadPause(s)
    case Present(r) => (r.originalPaused, r.originalNote)
    case Invalid => (s.paused, s.note)
    case Absent => (s.paused, s.note)
  }

  /** A bootstrap pause ends with the first resume; every other pause survives it. */
  function Settle(b: (bool, Note)): (bool, Note) {
    if b.1 == Text(BOOTSTRAP_NOTE) then (false, Text("")) else b
  }

  lemma StepKeepsBaseline(id: Identity, step: Step, kind: TaskKind, s: Schedule)
    requires ValidStep(id, step) && !ReadPause(s).Invalid?
    ensures var t := Apply(step, kind, s);
            && !ReadPause(t).Invalid?
            && (if step.action == Resume && Accepted(step, kind, s)
                then ReadPause(t).Absent? && (t.paused, t.note) == Settle(Baseline(s))
                else Baseline(t) == Baseline(s))
  {
  }

  /** Over any run the operator's pause and note change at most by settling a bootstrap pause. */
  lemma {:induction false} RunKeepsBaseline(id: Identity, steps: seq<Step>, kind: TaskKind, s: Schedule)
    requires ValidSteps(id, steps) && !ReadPause(s).Invalid?
    ensures var t := Run(steps, kind, s);
            && !ReadPause(t).Invalid?
            && (Baseline(t) == Baseline(s) || Baseline(t) == Settle(Baseline(s)))
            && ((forall i :: 0 <= i < |steps| ==> steps[i].action != Resume) ==> Baseline(t) == Baseline(s))
  {
    if steps != [] {
      var t := Apply(steps[0], kind, s);
      StepKeepsBaseline(id, steps[0], kind, s);
      RunKeepsBaseline(id, steps[1..], kind, t);
    }
  }

  /** Whatever happened before, an accepted resume leaves exactly the settled original pause and note. */
  lemma ResumeRestoresOriginal(id: Identity, steps: seq<Step>, resume: Step, kind: TaskKind, s: Schedule)
    requires ValidSteps(id, steps) && ValidStep(id, resume) && ReadPause(s).Absent?
    requires resume.action == Resume && Accepted(resume, kind, Run(steps, kind, s))
    ensures var t := Apply(resume, kind, Run(steps, kind, s));
            ReadPause(t).Absent? && (t.paused, t.note) == Settle((s.paused, s.note))
  {
    RunKeepsBaseline(id, steps, kind, s);
    StepKeepsBaseline(id, resume, kind, Run(steps, kind, s));
  }

  // ----- Exclusive ownership -----

  /** The part of a record that is fixed when the operation first pauses the schedule. */
  predicate SameOrigin(r: Record, r': Record) {
    && r'.operation == r.operation && r'.originalPaused == r.originalPaused && r'.originalNote == r.originalNote
    && r'.originalBuild == r.originalBuild && r'.originalConfig == r.originalConfig
    && r'.previousBuild == r.previousBuild && r'.previousConfig == r.previousConfig
  }

  /** How one operation's record may evolve: a candidate is bound at most once, restoring is final. */
  predicate Advances(r: Record, r': Record) {
    && SameOrigin(r, r')
    && (r.targetBuild != "" ==> r'.targetBuild == r.targetBuild && r'.targetConfig == r.targetConfig)
    && (r.restoring ==> r'.restoring && r'.targetBuild == r.targetBuild && r'.targetConfig == r.targetConfig)
  }

  lemma StepRespectsOwner(id: Identity, step: Step, kind: TaskKind, s: Schedule)
    requires ValidStep(id, step) && ReadPause(s).Present?
    ensures var r := ReadPause(s).record; var t := Apply(step, kind, s);
            && (step.operation != r.operation ==> !Accepted(step, kind, s) && t == s)
            && (step.operation == r.operation && step.action == Resume && Accepted(step, kind, s) ==> ReadPause(t).Absent?)
            && (!(step.operation == r.operation && step.action == Resume && Accepted(step, kind, s)) ==>
                  t.paused && ReadPause(t).Present? && Advances(r, ReadPause(t).record))
            && (r.restoring && step.action == Ensure ==> !Accepted(step, kind, s))
  {
    match step.action {
      case Pause =>
      case Resume =>
      case Ensure =>
      case Restore =>
    }
  }

  /** While nobody resumes the owning operation, its record survives any run of any operations. */
  lemma {:induction false} RunRespectsOwner(id: Identity, op: string, steps: seq<Step>, kind: TaskKind, s: Schedule)
    requires ValidSteps(id, steps) && NeverResumes(op, steps)
    requires ReadPause(s).Present? && ReadPause(s).record.operation == op
    ensures var t := Run(steps, kind, s);
            t.paused && ReadPause(t).Present? && Advances(ReadPause(s).record, ReadPause(t).record)
  {
    if steps != [] {
      StepRespectsOwner(id, steps[0], kind, s);
      RunRespectsOwner(id, op, steps[1..], kind, Apply(steps[0], kind, s));
    }
  }

  // ----- Reachable configurations -----

  /** A configuration some valid process of this identity desires for this kind. */
  predicate ValidConfig(id: Identity, kind: TaskKind, c: Config) {
    && c.tenant == id.tenant && c.kind == kind
    && 0 < c.interval && 0 < c.budget <= 4 * MINUTE && 0 < c.activityTimeout <= 55 * SECOND
    && 0 < c.slaActivityTimeout <= 2 * MINUTE && 0 < c.runTimeout <= 6 * MINUTE && 0 < c.limit <= 50
  }

  /** While a record is stored, its three phases fix the live configuration and what the memo remembers. */
  predicate RecordFits(r: Record, s: Schedule) {
    && r.originalConfig.Some? && r.originalBuild != ""
    && (r.targetBuild == "" <==> r.targetConfig.None?)
    && (if r.restoring then
          && (r.originalConfig == Some(s.config) || r.previousConfig == Some(s.config))
          && s.memo.History? && s.memo.record.restoring && s.memo.record.operation == r.operation
          && (if r.targetConfig.Some?
              then s.memo.record.originalBuild == r.targetBuild && s.memo.record.originalConfig == r.targetConfig
              else s.memo.record.originalBuild == r.originalBuild && s.memo.record.originalConfig == r.originalConfig)
        else if r.targetConfig.Some? then
          && r.targetConfig == Some(s.config)
          && s.memo.History? && s.memo.record.targetBuild == r.targetBuild
          && s.memo.record.originalBuild == r.originalBuild && s.memo.record.originalConfig == r.originalConfig
        else r.originalConfig == Some(s.config))
  }

  predicate MemoFits(m: Memo, c: Config) {
    match m
    case NoHistory => true
    case Unreadable => false
    case History(h) => h.protocol == 1 && h.targetConfig == Some(c)
  }

  /** The invariant of every schedule that only these steps have touched since it was created. */
  predicate Reachable(id: Identity, kind: TaskKind, s: Schedule) {
    && s.owner == id && s.standard && ValidConfig(id, kind, s.config) && MemoFits(s.memo, s.config)
    && match ReadPause(s)
       case Invalid => false
       case Absent => true
       case Present(r) => RecordFits(r, s)
  }

  lemma CreatedIsReachable(p: Process, kind: TaskKind)
    requires ValidProcess(p)
    ensures Reachable(p.identity, kind, Created(p, kind))
  {
  }

  lemma StepKeepsReachable(id: Identity, step: Step, kind: TaskKind, s: Schedule)
    requires ValidStep(id, step) && Reachable(id, kind, s)
    ensures Reachable(id, kind, Apply(step, kind, s))
  {
  }

  lemma {:induction false} RunKeepsReachable(id: Identity, steps: seq<Step>, kind: TaskKind, s: Schedule)
    requires ValidSteps(id, steps) && Reachable(id, kind, s)
    ensures Reachable(id, kind, Run(steps, kind, s))
  {
    if steps != [] {
      StepKeepsReachable(id, steps[0], kind, s);
      RunKeepsReachable(id, steps[1..], kind, Apply(steps[0], kind, s));
    }
  }

  /**
   * A controlled schedule runs in one of its three recorded configurations, and every valid
   * process of the identity, of whatever build and tuning, still recognizes it.
   */
  lemma ControlledIsObservable(p: Process, kind: TaskKind, s: Schedule)
    requires ValidProcess(p) && Reachable(p.identity, kind, s) && ReadPause(s).Present?
    ensures var r := ReadPause(s).record; var live := Some(s.config);
            live == r.originalConfig || live == r.targetConfig || live == r.previousConfig
    ensures ObservedOk(p, kind, s)
  {
    assert Desired(Retuned(p, s.config), kind) == s.config;
  }

  // ----- Upgrade and rollback -----

  predicate KnownTo(outgoing: Process, kind: TaskKind, r: Record) {
    IsOriginal(outgoing, kind, r) || IsPrevious(outgoing, kind, r)
  }

  /** Exactly who may act on a controlled schedule: nothing but the record decides it. */
  lemma ControlledAcceptance(p: Process, op: string, kind: TaskKind, s: Schedule)
    requires ValidProcess(p) && Reachable(p.identity, kind, s) && ReadPause(s).Present?
    ensures var r := ReadPause(s).record;
            && (Accepted(Step(p, Pause, op), kind, s) <==> op == r.operation)
            && (Accepted(Step(p, Ensure, op), kind, s) <==>
                  op == r.operation && !r.restoring && (r.targetBuild != "" ==> IsTarget(p, kind, r)))
            && (Accepted(Step(p, Restore, op), kind, s) <==> op == r.operation && KnownTo(p, kind, r))
            && (Accepted(Step(p, Resume, op), kind, s) <==>
                  op == r.operation && s.config == Desired(p, kind)
                  && (if r.restoring then KnownTo(p, kind, r) else r.targetBuild != "" ==> IsTarget(p, kind, r)))
  {
    ControlledIsObservable(p, kind, s);
  }

  /**
   * Exactly who may act on a free schedule: pausing is for the process whose configuration it runs and, once
   * it was migrated, whose build the memo names; a bare resume asks for the configuration alone.
   */
  lemma UncontrolledAcceptance(p: Process, op: string, kind: TaskKind, s: Schedule)
    requires ValidProcess(p) && Reachable(p.identity, kind, s) && ReadPause(s).Absent?
    ensures (Accepted(Step(p, Pause, op), kind, s) <==>
               s.config == Desired(p, kind) && (s.memo.History? ==> s.memo.record.targetBuild == p.build))
            && (Accepted(Step(p, Resume, op), kind, s) <==> s.config == Desired(p, kind))
            && !Accepted(Step(p, Ensure, op), kind, s) && !Accepted(Step(p, Restore, op), kind, s)
  {
  }

  /** A process named by the stored record can always take its schedule back and resume it. */
  lemma RestoreThenResume(outgoing: Process, op: string, kind: TaskKind, s: Schedule)
    requires ValidProcess(outgoing) && SafeOperation(op) && Reachable(outgoing.identity, kind, s)
    requires ReadPause(s).Present? && ReadPause(s).record.operation == op && KnownTo(outgoing, kind, ReadPause(s).record)
    ensures Accepted(Step(outgoing, Restore, op), kind, s)
    ensures var t := Apply(Step(outgoing, Restore, op), kind, s);
            && Accepted(Step(outgoing, Resume, op), kind, t)
            && var u := Apply(Step(outgoing, Resume, op), kind, t);
            && u.config == Desired(outgoing, kind) && ReadPause(u).Absent?
            && (u.paused, u.note) == Settle(Baseline(s))
  {
    ControlledIsObservable(outgoing, kind, s);
  }

  /**
   * Rollback round trip. The old process pauses; then any processes take any steps under any
   * operations, short of resuming this one. Its restore and resume are still accepted and give
   * back its own configuration and the operator's settled pause and note.
   */
  lemma RollbackRoundTrip(outgoing: Process, op: string, steps: seq<Step>, kind: TaskKind, s: Schedule)
    requires ValidProcess(outgoing) && SafeOperation(op) && Reachable(outgoing.identity, kind, s) && ReadPause(s).Absent?
    requires ValidSteps(outgoing.identity, steps) && NeverResumes(op, steps)
    requires Accepted(Step(outgoing, Pause, op), kind, s)
    ensures var m := Run(steps, kind, Apply(Step(outgoing, Pause, op), kind, s));
            && Accepted(Step(outgoing, Restore, op), kind, m)
            && var t := Apply(Step(outgoing, Restore, op), kind, m);
            && Accepted(Step(outgoing, Resume, op), kind, t)
            && var u := Apply(Step(outgoing, Resume, op), kind, t);
            && u.config == s.config && ReadPause(u).Absent? && (u.paused, u.note) == Settle((s.paused, s.note))
  {
    var id := outgoing.identity;
    var pause := Step(outgoing, Pause, op);
    var s1 := Apply(pause, kind, s);
    StepKeepsReachable(id, pause, kind, s);
    StepKeepsBaseline(id, pause, kind, s);
    var m := Run(steps, kind, s1);
    RunKeepsReachable(id, steps, kind, s1);
    RunRespectsOwner(id, op, steps, kind, s1);
    assert IsOriginal(outgoing, kind, ReadPause(s1).record);
    RestoreThenResume(outgoing, op, kind, m);
    assert Baseline(m) == Baseline(s1);
  }

  /** Upgrade: after the old process paused, the first process to ensure and resume runs its own configuration. */
  lemma UpgradeCompletes(outgoing: Process, incoming: Process, op: string, kind: TaskKind, s: Schedule)
    requires ValidProcess(outgoing) && ValidProcess(incoming) && outgoing.identity == incoming.identity
    requires SafeOperation(op) && Reachable(outgoing.identity, kind, s) && ReadPause(s).Absent?
    requires Accepted(Step(outgoing, Pause, op), kind, s)
    ensures var s1 := Apply(Step(outgoing, Pause, op), kind, s);
            && Accepted(Step(incoming, Ensure, op), kind, s1)
            && var s2 := Apply(Step(incoming, Ensure, op), kind, s1);
            && Accepted(Step(incoming, Resume, op), kind, s2)
            && var s3 := Apply(Step(incoming, Resume, op), kind, s2);
            && s3.config == Desired(incoming, kind) && ReadPause(s3).Absent?
            && (s3.paused, s3.note) == Settle((s.paused, s.note))
            && s3.memo.History? && s3.memo.record.targetBuild == incoming.build
            && s3.memo.record.originalBuild == outgoing.build
            && s3.memo.record.originalConfig == Some(Desired(outgoing, kind))
  {
    var s1 := Apply(Step(outgoing, Pause, op), kind, s);
    StepKeepsReachable(outgoing.identity, Step(outgoing, Pause, op), kind, s);
    ControlledIsObservable(incoming, kind, s1);
  }

  /** Only pauses and resumes, of whatever operations and processes. */
  ghost predicate Unmigrated(steps: seq<Step>) {
    forall i :: 0 <= i < |steps| ==> steps[i].action.Pause? || steps[i].action.Resume?
  }

  /** They leave what a migration set and remembered. */
  lemma {:induction false} UnmigratedKeepsMigration(steps: seq<Step>, kind: TaskKind, s: Schedule)
    requires Unmigrated(steps)
    ensures var t := Run(steps, kind, s);
      t.config == s.config && t.memo == s.memo && t.owner == s.owner && t.standard == s.standard
  {
    if steps != [] { UnmigratedKeepsMigration(steps[1..], kind, Apply(steps[0], kind, s)); }
  }

  /** The schedule after the old process paused it and the new one took it over. */
  function Upgraded(outgoing: Process, incoming: Process, op: string, kind: TaskKind, s: Schedule): Schedule {
    Run([Step(outgoing, Pause, op), Step(incoming, Ensure, op), Step(incoming, Resume, op)], kind, s)
  }

  lemma UpgradedFacts(outgoing: Process, incoming: Process, op: string, kind: TaskKind, s: Schedule)
    requires ValidProcess(outgoing) && ValidProcess(incoming) && outgoing.identity == incoming.identity
    requires SafeOperation(op) && Reachable(outgoing.identity, kind, s) && ReadPause(s).Absent?
    requires Accepted(Step(outgoing, Pause, op), kind, s)
    ensures var t := Upgraded(outgoing, incoming, op, kind, s);
      && Reachable(outgoing.identity, kind, t) && t.config == Desired(incoming, kind)
      && t.memo.History? && t.memo.record.targetBuild == incoming.build && t.memo.record.originalBuild == outgoing.build
      && t.memo.record.originalConfig == Some(Desired(outgoing, kind))
  {
    var upgrade := [Step(outgoing, Pause, op), Step(incoming, Ensure, op), Step(incoming, Resume, op)];
    UpgradeCompletes(outgoing, incoming, op, kind, s);
    RunKeepsReachable(outgoing.identity, upgrade, kind, s);
    var s1 := Apply(upgrade[0], kind, s);
    var s2 := Apply(upgrade[1], kind, s1);
    assert upgrade[1..] == [upgrade[1], upgrade[2]] && upgrade[1..][1..] == [upgrade[2]];
    assert Run(upgrade[1..], kind, s1) == Run([upgrade[2]], kind, s2);
    assert Run([upgrade[2]], kind, s2) == Apply(upgrade[2], kind, s2);
  }

  /**
   * Late rollback. The candidate finished its upgrade and resumed; operations of anybody paused and resumed the
   * schedule since; now the candidate pauses it again, under whatever operation. The memo still names the old
   * build, so after any steps short of resuming that operation the old process restores and resumes its own
   * configuration, and the operator has the pause and note of before that last pause.
   */
  lemma LateRollback(outgoing: Process, incoming: Process, op: string, between: seq<Step>, later: string,
                     steps: seq<Step>, kind: TaskKind, s: Schedule)
    requires ValidProcess(outgoing) && ValidProcess(incoming) && outgoing.identity == incoming.identity
    requires SafeOperation(op) && SafeOperation(later)
    requires Reachable(outgoing.identity, kind, s) && ReadPause(s).Absent?
    requires Accepted(Step(outgoing, Pause, op), kind, s)
    requires ValidSteps(outgoing.identity, between) && Unmigrated(between)
    requires ValidSteps(outgoing.identity, steps) && NeverResumes(later, steps)
    requires ReadPause(Run(between, kind, Upgraded(outgoing, incoming, op, kind, s))).Absent?
    ensures var free := Run(between, kind, Upgraded(outgoing, incoming, op, kind, s));
            && Accepted(Step(incoming, Pause, later), kind, free)
            && var m := Run(steps, kind, Apply(Step(incoming, Pause, later), kind, free));
            && Accepted(Step(outgoing, Restore, later), kind, m)
            && var t := Apply(Step(outgoing, Restore, later), kind, m);
            && Accepted(Step(outgoing, Resume, later), kind, t)
            && var u := Apply(Step(outgoing, Resume, later), kind, t);
            && u.config == s.config && (u.paused, u.note) == Settle((free.paused, free.note))
  {
    var up := Upgraded(outgoing, incoming, op, kind, s);
    UpgradedFacts(outgoing, incoming, op, kind, s);
    UnmigratedKeepsMigration(between, kind, up);
    RunKeepsReachable(outgoing.identity, between, kind, up);
    UncontrolledAcceptance(outgoing, op, kind, s);
    RememberedRollback(outgoing, incoming, later, steps, kind, Run(between, kind, up));
  }

  /** A free schedule whose memo names the process that ran before can be paused and taken back by that one. */
  lemma RememberedRollback(outgoing: Process, incoming: Process, later: string, steps: seq<Step>,
                           kind: TaskKind, free: Schedule)
    requires ValidProcess(outgoing) && ValidProcess(incoming) && outgoing.identity == incoming.identity
    requires SafeOperation(later) && Reachable(outgoing.identity, kind, free) && ReadPause(free).Absent?
    requires free.config == Desired(incoming, kind) && free.memo.History?
    requires free.memo.record.targetBuild == incoming.build && free.memo.record.originalBuild == outgoing.build
    requires free.memo.record.originalConfig == Some(Desired(outgoing, kind))
    requires ValidSteps(outgoing.identity, steps) && NeverResumes(later, steps)
    ensures Accepted(Step(incoming, Pause, later), kind, free)
    ensures var m := Run(steps, kind, Apply(Step(incoming, Pause, later), kind, free));
            && Accepted(Step(outgoing, Restore, later), kind, m)
            && var t := Apply(Step(outgoing, Restore, later), kind, m);
            && Accepted(Step(outgoing, Resume, later), kind, t)
            && var u := Apply(Step(outgoing, Resume, later), kind, t);
            && u.config == Desired(outgoing, kind) && (u.paused, u.note) == Settle((free.paused, free.note))
  {
    var id := outgoing.identity;
    var pause := Step(incoming, Pause, later);
    UncontrolledAcceptance(incoming, later, kind, free);
    var held := Apply(pause, kind, free);
    assert IsPrevious(outgoing, kind, ReadPause(held).record);
    StepKeepsReachable(id, pause, kind, free);
    StepKeepsBaseline(id, pause, kind, free);
    RunKeepsReachable(id, steps, kind, held);
    RunRespectsOwner(id, later, steps, kind, held);
    RestoreThenResume(outgoing, later, kind, Run(steps, kind, held));
  }
}
