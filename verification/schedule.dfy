/** The optional value used wherever the source has a nil pointer or an error return. */
module Options {
  datatype Option<+T> = None | Some(value: T)
}

/**
 * One durable schedule of the background runtime, and the four atomic updates
 * (pause, resume, ensure, restore) that a control operation may apply to it.
 *
 * A schedule's note is either operator text, a stored control record, or text
 * that carries the control prefix without a readable record. Its memo may hold
 * the record of the last migration. Error texts are not modelled: an update
 * either returns the new schedule or refuses.
 */
module Schedules {
  import opened Options

  const BOOTSTRAP_NOTE := "project-background/bootstrap/v1"
  const SECOND: int := 1_000_000_000
  const MINUTE: int := 60 * SECOND

  datatype TaskKind = Sla | Effects | Notifications

  /** The tenant, environment and queue that fix every structural part of a schedule. */
  datatype Identity = Identity(environment: string, tenant: string, queue: string)

  /** Interval, activity input and run timeout: the migratable part of a schedule. */
  datatype Config = Config(
    interval: int, tenant: string, kind: TaskKind, limit: int, budget: int,
    activityTimeout: int, slaActivityTimeout: int, runTimeout: int)

  datatype Record = Record(
    protocol: int, operation: string, originalPaused: bool, originalNote: Note,
    originalBuild: string, originalConfig: Option<Config>,
    targetBuild: string, targetConfig: Option<Config>,
    previousBuild: string, previousConfig: Option<Config>,
    restoring: bool)

  datatype Note = Text(text: string) | Control(record: Record) | Garbled

  datatype Memo = NoHistory | History(record: Record) | Unreadable

  /** `standard` is false when a policy or a non-migratable part of the specification drifted. */
  datatype Schedule = Schedule(
    owner: Identity, standard: bool, config: Config, memo: Memo, paused: bool, note: Note)

  datatype Process = Process(
    identity: Identity, build: string, slaInterval: int, dispatchInterval: int, maxItems: int,
    runBudget: int, activityTimeout: int, slaActivityTimeout: int, runTimeout: int)

  // ----- Validation -----

  /** The numeric bounds every accepted set of options satisfies. */
  predicate ValidBounds(p: Process) {
    && 0 < p.slaInterval && 0 < p.dispatchInterval
    && 0 < p.runBudget <= 4 * MINUTE
    && 0 < p.activityTimeout <= 55 * SECOND
    && 0 < p.slaActivityTimeout <= 2 * MINUTE
    && 0 < p.runTimeout <= 6 * MINUTE
    && 0 < p.maxItems <= 50
  }

  predicate ValidProcess(p: Process) {
    p.build != "" && ValidBounds(p)
  }

  predicate OperationChar(c: char) {
    'A' <= c <= 'Z' || 'a' <= c <= 'z' || '0' <= c <= '9' || c == '_' || c == '.' || c == '-'
  }

  predicate SafeOperation(id: string) {
    && 1 <= |id| <= 96
    && (forall c :: c in id ==> OperationChar(c))
    && id[0] != '_' && id[0] != '.' && id[0] != '-'
  }

  function Desired(p: Process, kind: TaskKind): Config {
    Config(if kind == Sla then p.slaInterval else p.dispatchInterval, p.identity.tenant, kind, p.maxItems,
           p.runBudget, p.activityTimeout, p.slaActivityTimeout, p.runTimeout)
  }

  /** The schedule a process creates when none exists. */
  function Created(p: Process, kind: TaskKind): Schedule {
    Schedule(p.identity, true, Desired(p, kind), NoHistory, true, Text(BOOTSTRAP_NOTE))
  }

  datatype PauseState = Invalid | Absent | Present(record: Record)

  function ReadPause(s: Schedule): PauseState {
    match s.note
    case Text(_) => Absent
    case Garbled => Invalid
    case Control(r) =>
      if r.protocol != 1 || !SafeOperation(r.operation) || !s.paused || !r.originalNote.Text? then Invalid
      else Present(r)
  }

  predicate SameConfig(a: Option<Config>, b: Option<Config>) {
    a.Some? && b.Some? && a.value == b.value
  }

  /** The strict validator: the schedule is exactly what this process would create. */
  predicate StrictOk(p: Process, kind: TaskKind, s: Schedule) {
    s.owner == p.identity && s.standard && s.config == Desired(p, kind) && !ReadPause(s).Invalid?
  }

  /** The process that would desire `c`, as the config validator builds it. */
  function Retuned(p: Process, c: Config): Process {
    p.(slaInterval := c.interval, dispatchInterval := c.interval, maxItems := c.limit, runBudget := c.budget,
       activityTimeout := c.activityTimeout, slaActivityTimeout := c.slaActivityTimeout, runTimeout := c.runTimeout)
  }

  predicate ConfigOk(p: Process, kind: TaskKind, s: Schedule, c: Config) {
    ValidBounds(Retuned(p, c)) && StrictOk(Retuned(p, c), kind, s)
  }

  /** Bootstrap and inspection also accept a controlled schedule in one of its recorded configurations. */
  predicate ObservedOk(p: Process, kind: TaskKind, s: Schedule) {
    || StrictOk(p, kind, s)
    || match ReadPause(s)
       case Invalid => false
       case Absent => false
       case Present(r) =>
         && r.originalConfig.Some?
         && (SameConfig(Some(s.config), r.originalConfig) || SameConfig(Some(s.config), r.targetConfig)
             || SameConfig(Some(s.config), r.previousConfig))
         && ConfigOk(p, kind, s, s.config)
  }

  predicate HistoryOk(p: Process, kind: TaskKind, m: Memo) {
    match m
    case NoHistory => true
    case Unreadable => false
    case History(h) =>
      h.protocol == 1 && SameConfig(h.targetConfig, Some(Desired(p, kind))) && h.targetBuild == p.build
  }

  predicate IsOriginal(p: Process, kind: TaskKind, r: Record) {
    r.originalBuild == p.build && SameConfig(r.originalConfig, Some(Desired(p, kind)))
  }

  predicate IsPrevious(p: Process, kind: TaskKind, r: Record) {
    r.previousBuild == p.build && SameConfig(r.previousConfig, Some(Desired(p, kind)))
  }

  predicate IsTarget(p: Process, kind: TaskKind, r: Record) {
    r.targetBuild == p.build && SameConfig(r.targetConfig, Some(Desired(p, kind)))
  }

  predicate PauseAllowed(p: Process, kind: TaskKind, s: Schedule, op: string) {
    && ObservedOk(p, kind, s)
    && match ReadPause(s)
       case Invalid => false
       case Present(r) => r.operation == op
       case Absent => StrictOk(p, kind, s) && HistoryOk(p, kind, s.memo)
  }

  predicate ResumeAllowed(p: Process, kind: TaskKind, s: Schedule, op: string) {
    && StrictOk(p, kind, s)
    && match ReadPause(s)
       case Invalid => false
       case Absent => true
       case Present(r) =>
         && r.operation == op
         && (if r.restoring then IsOriginal(p, kind, r) || IsPrevious(p, kind, r)
             else r.targetBuild != "" ==> IsTarget(p, kind, r))
  }

  predicate MigrationAllowed(p: Process, kind: TaskKind, s: Schedule, op: string, restore: bool) {
    && ObservedOk(p, kind, s)
    && match ReadPause(s)
       case Invalid => false
       case Absent =>
         && StrictOk(p, kind, s)
         && (restore ==>
               s.memo.History? && var h := s.memo.record;
               h.restoring && h.operation == op && IsTarget(p, kind, h))
       case Present(r) =>
         && r.operation == op && r.originalConfig.Some? && r.originalBuild != ""
         && (if restore then IsOriginal(p, kind, r) || IsPrevious(p, kind, r)
             else !r.restoring && (r.targetBuild != "" ==> IsTarget(p, kind, r)))
  }

  // ----- The four atomic updates -----

  datatype Action = Pause | Resume | Ensure | Restore

  datatype Step = Step(actor: Process, action: Action, operation: string)

  function FreshRecord(p: Process, kind: TaskKind, op: string, s: Schedule): Record {
    var r := Record(1, op, s.paused, s.note, p.build, Some(Desired(p, kind)), "", None, "", None, false);
    if s.memo.History?
    then r.(previousBuild := s.memo.record.originalBuild, previousConfig := s.memo.record.originalConfig)
    else r
  }

  function Paused(p: Process, kind: TaskKind, op: string, s: Schedule): Schedule {
    if ReadPause(s).Present? then s
    else s.(note := Control(FreshRecord(p, kind, op, s)), paused := true)
  }

  function Resumed(s: Schedule): Schedule {
    var (paused, note) := if ReadPause(s).Present?
                          then (s.note.record.originalPaused, s.note.record.originalNote)
                          else (s.paused, s.note);
    if note == Text(BOOTSTRAP_NOTE) then s.(paused := false, note := Text("")) else s.(paused := paused, note := note)
  }

  function MigratedRecord(p: Process, kind: TaskKind, r: Record, restore: bool): Record {
    if restore then r.(restoring := true)
    else r.(targetBuild := p.build, targetConfig := Some(Desired(p, kind)))
  }

  /** What the memo remembers of a migration: who runs now, and who ran before. */
  function MigrationHistory(p: Process, kind: TaskKind, r: Record, restore: bool): Record {
    var h := r.(targetBuild := p.build, targetConfig := Some(Desired(p, kind)));
    if restore && r.targetConfig.Some?
    then h.(originalBuild := r.targetBuild, originalConfig := r.targetConfig)
    else h
  }

  function Migrated(p: Process, kind: TaskKind, r: Record, restore: bool, s: Schedule): Schedule {
    var r' := MigratedRecord(p, kind, r, restore);
    s.(owner := p.identity, config := Desired(p, kind), memo := History(MigrationHistory(p, kind, r', restore)),
       note := Control(r'))
  }

  /** One atomic update under the schedule service's compare-and-set; None is a refusal. */
  function Try(step: Step, kind: TaskKind, s: Schedule): Option<Schedule> {
    var p, op := step.actor, step.operation;
    match step.action
    case Pause => if PauseAllowed(p, kind, s, op) then Some(Paused(p, kind, op, s)) else None
    case Resume => if ResumeAllowed(p, kind, s, op) then Some(Resumed(s)) else None
    case Ensure =>
      if MigrationAllowed(p, kind, s, op, false) && ReadPause(s).Present?
      then Some(Migrated(p, kind, s.note.record, false, s)) else None
    case Restore =>
      if MigrationAllowed(p, kind, s, op, true) && ReadPause(s).Present?
      then Some(Migrated(p, kind, s.note.record, true, s)) else None
  }

  function Apply(step: Step, kind: TaskKind, s: Schedule): Schedule {
    var t := Try(step, kind, s);
    if t.Some? then t.value else s
  }
}
