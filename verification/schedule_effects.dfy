/**
 * What one update asks of a schedule and what it leaves, field by field, for every schedule whatever its state:
 * also for those the theorems about runs exclude, drifted, garbled or migrated by somebody else.
 */
module ScheduleEffects {
  import opened Options
  import opened Schedules
  import opened ScheduleRuns

  // ----- What the fields of a schedule say -----

  /** A readable control record: the protocol is known, the schedule paused, the operator's own note a plain text. */
  lemma RecordIsReadIff(s: Schedule, r: Record)
    ensures ReadPause(s) == Present(r) <==>
      s.note == Control(r) && s.paused && r.protocol == 1 && SafeOperation(r.operation) && r.originalNote.Text?
    ensures ReadPause(s).Absent? <==> s.note.Text?
  {
  }

  /** A letter or digit of ASCII, by its code. */
  predicate LetterOrDigit(code: int) {
    65 <= code <= 90 || 97 <= code <= 122 || 48 <= code <= 57
  }

  /** An operation is named by 1 to 96 letters, digits and "_.-", the first of them a letter or digit. */
  lemma SafeOperationIff(id: string)
    ensures SafeOperation(id) <==>
      && 0 < |id| < 97 && LetterOrDigit(id[0] as int)
      && forall i :: 0 <= i < |id| ==> LetterOrDigit(id[i] as int) || id[i] as int in {95, 46, 45}
  {
    if SafeOperation(id) {
      forall i | 0 <= i < |id| ensures LetterOrDigit(id[i] as int) || id[i] as int in {95, 46, 45} {
        assert OperationChar(id[i]);
      }
    }
  }

  /** The schedule runs what this process wants for the kind. */
  predicate RunsWantedBy(p: Process, kind: TaskKind, c: Config) {
    && c.tenant == p.identity.tenant && c.kind == kind
    && c.interval == (match kind case Sla => p.slaInterval case Effects => p.dispatchInterval
                                 case Notifications => p.dispatchInterval)
    && c.limit == p.maxItems && c.budget == p.runBudget && c.runTimeout == p.runTimeout
    && c.activityTimeout == p.activityTimeout && c.slaActivityTimeout == p.slaActivityTimeout
  }

  lemma WantedIff(p: Process, kind: TaskKind, c: Config)
    ensures c == Desired(p, kind) <==> RunsWantedBy(p, kind, c)
  {
  }

  /** A created schedule is the wanted one, paused under the bootstrap note, without a history. */
  lemma CreatedIsWanted(p: Process, kind: TaskKind)
    ensures var s := Created(p, kind);
      && s.owner == p.identity && s.standard && RunsWantedBy(p, kind, s.config)
      && s.memo == NoHistory && s.paused && s.note == Text("project-background/bootstrap/v1")
  {
  }

  /** The schedule is this identity's and nothing but its configuration, memo, pause and note may differ. */
  predicate Ours(p: Process, s: Schedule) {
    s.owner == p.identity && s.standard
  }

  /** Numbers a process could have been started with. */
  predicate InBounds(c: Config) {
    && c.interval > 0 && 1 <= c.limit <= 50
    && 0 < c.budget <= 240 * SECOND && 0 < c.activityTimeout <= 55 * SECOND
    && 0 < c.slaActivityTimeout <= 120 * SECOND && 0 < c.runTimeout <= 360 * SECOND
  }

  /** The live configuration is one the record knows, and a process could have it. */
  predicate Evidenced(p: Process, kind: TaskKind, c: Config, r: Record) {
    && r.originalConfig.Some?
    && (r.originalConfig == Some(c) || r.targetConfig == Some(c) || r.previousConfig == Some(c))
    && InBounds(c) && c.tenant == p.identity.tenant && c.kind == kind
  }

  lemma ObservedIff(p: Process, kind: TaskKind, s: Schedule)
    ensures ObservedOk(p, kind, s) <==>
      && Ours(p, s) && !ReadPause(s).Invalid?
      && (RunsWantedBy(p, kind, s.config)
          || (ReadPause(s).Present? && Evidenced(p, kind, s.config, ReadPause(s).record)))
  {
    WantedIff(p, kind, s.config);
  }

  // ----- Who is admitted -----

  /** Whether a free schedule's memo lets the process begin an operation: none, or one that says it runs this build. */
  predicate MemoLetsIn(p: Process, kind: TaskKind, m: Memo) {
    || m == NoHistory
    || (m.History? && m.record.protocol == 1 && m.record.targetBuild == p.build
        && m.record.targetConfig.Some? && RunsWantedBy(p, kind, m.record.targetConfig.value))
  }

  lemma PauseAcceptedIff(p: Process, op: string, kind: TaskKind, s: Schedule)
    ensures Accepted(Step(p, Pause, op), kind, s) <==>
      && Ours(p, s)
      && match ReadPause(s)
         case Invalid => false
         case Absent => RunsWantedBy(p, kind, s.config) && MemoLetsIn(p, kind, s.memo)
         case Present(r) => r.operation == op && (RunsWantedBy(p, kind, s.config) || Evidenced(p, kind, s.config, r))
  {
    ObservedIff(p, kind, s);
    WantedIff(p, kind, s.config);
    if s.memo.History? && s.memo.record.targetConfig.Some? { WantedIff(p, kind, s.memo.record.targetConfig.value); }
  }

  /** The build and configuration are this process's. */
  predicate Names(p: Process, kind: TaskKind, build: string, c: Option<Config>) {
    build == p.build && c.Some? && RunsWantedBy(p, kind, c.value)
  }

  lemma NamesIff(p: Process, kind: TaskKind, build: string, c: Option<Config>)
    ensures Names(p, kind, build, c) <==> build == p.build && SameConfig(c, Some(Desired(p, kind)))
  {
    if c.Some? { WantedIff(p, kind, c.value); }
  }

  lemma ResumeAcceptedIff(p: Process, op: string, kind: TaskKind, s: Schedule)
    ensures Accepted(Step(p, Resume, op), kind, s) <==>
      && Ours(p, s) && RunsWantedBy(p, kind, s.config)
      && match ReadPause(s)
         case Invalid => false
         case Absent => true
         case Present(r) =>
           r.operation == op
           && if r.restoring then Names(p, kind, r.originalBuild, r.originalConfig)
                                  || Names(p, kind, r.previousBuild, r.previousConfig)
              else r.targetBuild == "" || Names(p, kind, r.targetBuild, r.targetConfig)
  {
    WantedIff(p, kind, s.config);
    if ReadPause(s).Present? {
      var r := ReadPause(s).record;
      NamesIff(p, kind, r.originalBuild, r.originalConfig);
      NamesIff(p, kind, r.previousBuild, r.previousConfig);
      NamesIff(p, kind, r.targetBuild, r.targetConfig);
    }
  }

  lemma MigrationAcceptedIff(p: Process, op: string, restore: bool, kind: TaskKind, s: Schedule)
    ensures Accepted(Step(p, if restore then Restore else Ensure, op), kind, s) <==>
      && Ours(p, s) && ReadPause(s).Present?
      && var r := ReadPause(s).record;
         && r.operation == op && r.originalConfig.Some? && r.originalBuild != ""
         && (RunsWantedBy(p, kind, s.config) || Evidenced(p, kind, s.config, r))
         && if restore then Names(p, kind, r.originalBuild, r.originalConfig)
                            || Names(p, kind, r.previousBuild, r.previousConfig)
            else !r.restoring && (r.targetBuild == "" || Names(p, kind, r.targetBuild, r.targetConfig))
  {
    ObservedIff(p, kind, s);
    if ReadPause(s).Present? {
      var r := ReadPause(s).record;
      NamesIff(p, kind, r.originalBuild, r.originalConfig);
      NamesIff(p, kind, r.previousBuild, r.previousConfig);
      NamesIff(p, kind, r.targetBuild, r.targetConfig);
    }
  }

  // ----- What an accepted update leaves -----

  /** A pause or resume changes nothing but the pause and the note; the memo of a migration stays. */
  lemma PauseAndResumeTouchOnly(step: Step, kind: TaskKind, s: Schedule)
    requires step.action.Pause? || step.action.Resume?
    ensures var t := Apply(step, kind, s); t == s.(paused := t.paused, note := t.note)
  {
  }

  /** The first pause records the operator's pause and note, who runs, and who ran before the last migration. */
  lemma FirstPauseRecords(p: Process, op: string, kind: TaskKind, s: Schedule)
    requires SafeOperation(op) && ReadPause(s).Absent? && Accepted(Step(p, Pause, op), kind, s)
    ensures var t := Apply(Step(p, Pause, op), kind, s);
      && t.paused && ReadPause(t).Present?
      && var r := ReadPause(t).record;
         && r.operation == op && r.originalPaused == s.paused && r.originalNote == s.note
         && r.originalBuild == p.build && r.originalConfig == Some(s.config)
         && r.targetBuild == "" && r.targetConfig == None && !r.restoring
         && (s.memo == NoHistory ==> r.previousBuild == "" && r.previousConfig == None)
         && (s.memo.History? ==> r.previousBuild == s.memo.record.originalBuild
                                 && r.previousConfig == s.memo.record.originalConfig)
  {
  }

  /** A pause of a schedule the operation already holds changes nothing. */
  lemma RepeatedPauseChangesNothing(p: Process, op: string, kind: TaskKind, s: Schedule)
    requires ReadPause(s).Present?
    ensures Apply(Step(p, Pause, op), kind, s) == s
  {
  }

  /** A resume writes the recorded pause and note back; a bootstrap pause ends with it. */
  lemma ResumeWritesBack(p: Process, op: string, kind: TaskKind, s: Schedule)
    requires Accepted(Step(p, Resume, op), kind, s)
    ensures var t := Apply(Step(p, Resume, op), kind, s);
      var before := if s.note.Control? then (s.note.record.originalPaused, s.note.record.originalNote)
                    else (s.paused, s.note);
      (t.paused, t.note) == if before.1 == Text("project-background/bootstrap/v1") then (false, Text("")) else before
  {
  }

  /** A migration moves the schedule to the process's configuration; its pause stays, its record is carried on. */
  lemma MigrationMoves(p: Process, op: string, restore: bool, kind: TaskKind, s: Schedule)
    requires Accepted(Step(p, if restore then Restore else Ensure, op), kind, s)
    ensures var t := Apply(Step(p, if restore then Restore else Ensure, op), kind, s);
      && t.owner == p.identity && t.standard == s.standard && RunsWantedBy(p, kind, t.config) && t.paused == s.paused
      && ReadPause(s).Present? && ReadPause(t).Present?
      && var r, r' := ReadPause(s).record, ReadPause(t).record;
         if restore then r' == r.(restoring := true)
         else r' == r.(targetBuild := p.build, targetConfig := Some(t.config))
  {
  }

  /** Its memo says who runs now and who ran before: a restore over a bound candidate names the candidate. */
  lemma MigrationRemembers(p: Process, op: string, restore: bool, kind: TaskKind, s: Schedule)
    requires Accepted(Step(p, if restore then Restore else Ensure, op), kind, s)
    ensures var t := Apply(Step(p, if restore then Restore else Ensure, op), kind, s);
      && t.memo.History?
      && var r, h := ReadPause(s).record, t.memo.record;
         && h.protocol == 1 && h.operation == op && h.restoring == (restore || r.restoring)
         && h.targetBuild == p.build && h.targetConfig == Some(t.config)
         && (h.originalBuild, h.originalConfig)
            == if restore && r.targetConfig.Some? then (r.targetBuild, r.targetConfig)
               else (r.originalBuild, r.originalConfig)
  {
  }

  /** A refused update changes nothing. */
  lemma RefusalChangesNothing(step: Step, kind: TaskKind, s: Schedule)
    requires !Accepted(step, kind, s)
    ensures Apply(step, kind, s) == s
  {
  }
}
