/**
 * Rollback of a deployment while other calls overlap it from beginning to end, its own restore and resume
 * included: neither can fail, and together they return every schedule.
 */
module OverlappedRollback {
  import opened Options
  import opened Schedules
  import opened ScheduleRuns
  import opened ControlCalls
  import opened ControlMachine
  import opened Interleavings
  import opened InterleavedOwnership
  import opened InterleavedRuns

  // ----- One schedule -----

  /** A schedule under this operation whose record names the process as one it may be returned to. */
  predicate Recoverable(p: Process, op: string, kind: TaskKind, s: Schedule) {
    && Reachable(p.identity, kind, s)
    && ReadPause(s).Present? && ReadPause(s).record.operation == op && KnownTo(p, kind, ReadPause(s).record)
  }

  /** It has been restored to the process's own configuration. */
  predicate Back(p: Process, op: string, kind: TaskKind, s: Schedule) {
    Recoverable(p, op, kind, s) && ReadPause(s).record.restoring && s.config == Desired(p, kind)
  }

  predicate Resumes(step: Step, op: string) {
    step.action.Resume? && step.operation == op
  }

  /** A restore of the same operation by a process that wants another configuration. */
  predicate Rivals(step: Step, p: Process, op: string, kind: TaskKind) {
    step.action.Restore? && step.operation == op && Desired(step.actor, kind) != Desired(p, kind)
  }

  lemma StepKeepsRecoverable(p: Process, op: string, step: Step, kind: TaskKind, s: Schedule)
    requires Recoverable(p, op, kind, s) && ValidStep(p.identity, step) && !Resumes(step, op)
    ensures Recoverable(p, op, kind, Apply(step, kind, s)) && Baseline(Apply(step, kind, s)) == Baseline(s)
  {
    StepRespectsOwner(p.identity, step, kind, s);
    StepKeepsReachable(p.identity, step, kind, s);
    StepKeepsBaseline(p.identity, step, kind, s);
  }

  /** A returned schedule is lost again exactly to a rival. */
  lemma StepKeepsBackIff(p: Process, op: string, step: Step, kind: TaskKind, s: Schedule)
    requires Back(p, op, kind, s) && ValidStep(p.identity, step) && Accepted(step, kind, s) && !Resumes(step, op)
    ensures Back(p, op, kind, Apply(step, kind, s)) <==> !Rivals(step, p, op, kind)
  {
    StepKeepsRecoverable(p, op, step, kind, s);
    StepRespectsOwner(p.identity, step, kind, s);
  }

  lemma RestoreBringsBack(p: Process, op: string, kind: TaskKind, s: Schedule)
    requires ValidProcess(p) && SafeOperation(op) && Recoverable(p, op, kind, s)
    ensures var step := Step(p, Restore, op); Accepted(step, kind, s) && Back(p, op, kind, Apply(step, kind, s))
  {
    ControlledAcceptance(p, op, kind, s);
    StepKeepsRecoverable(p, op, Step(p, Restore, op), kind, s);
  }

  lemma BackResumes(p: Process, op: string, kind: TaskKind, s: Schedule)
    requires ValidProcess(p) && SafeOperation(op) && Back(p, op, kind, s)
    ensures var step := Step(p, Resume, op);
      && Accepted(step, kind, s)
      && var t := Apply(step, kind, s);
         t.config == Desired(p, kind) && ReadPause(t).Absent? && (t.paused, t.note) == Settle(Baseline(s))
  {
    ControlledAcceptance(p, op, kind, s);
    StepKeepsBaseline(p.identity, Step(p, Resume, op), kind, s);
  }

  // ----- What the other calls may and may not be -----

  /** Every operation of the caller finds the service up and the drain settled. */
  ghost predicate Served(es: seq<Event>, who: Caller) {
    forall i :: 0 <= i < |es| && es[i].Operate? && es[i].who == who ==> es[i].up && es[i].drained
  }

  /** Nobody but the caller resumes the operation. */
  ghost predicate UnresumedByOthers(op: string, who: Caller, es: seq<Event>, s: State) {
    && (forall i :: 0 <= i < |es| && es[i].Begin? && es[i].who != who ==> !Resumes(es[i].step, op))
    && (forall c :: c != who && InFlight(s, c) ==> !Resumes(s.calls[c].step, op))
  }

  /** No rival restores the operation. */
  ghost predicate Unrivalled(p: Process, op: string, es: seq<Event>, s: State) {
    && (forall i, kind :: 0 <= i < |es| && es[i].Begin? ==> !Rivals(es[i].step, p, op, kind))
    && (forall c, kind :: InFlight(s, c) ==> !Rivals(s.calls[c].step, p, op, kind))
  }

  /** Events that leave the caller's served call alone: no other resume of the operation, no rival, no new call. */
  ghost predicate Unopposed(p: Process, op: string, who: Caller, es: seq<Event>, s: State) {
    && ValidEvents(p.identity, es) && NotBegun(es, who) && Served(es, who)
    && UnresumedByOthers(op, who, es, s) && Unrivalled(p, op, es, s)
  }

  lemma UnopposedBefore(p: Process, op: string, who: Caller, es: seq<Event>, s: State, n: nat)
    requires Unopposed(p, op, who, es, s) && n <= |es|
    ensures Unopposed(p, op, who, es[..n], s)
  {
  }

  lemma {:induction false} StaysUnresumed(op: string, who: Caller, es: seq<Event>, s: State)
    requires UnresumedByOthers(op, who, es, s)
    ensures UnresumedByOthers(op, who, [], Play(es, s))
  {
    if es != [] {
      var front := es[..|es| - 1];
      assert UnresumedByOthers(op, who, front, s);
      StaysUnresumed(op, who, front, s);
    }
  }

  lemma {:induction false} StaysUnrivalled(p: Process, op: string, es: seq<Event>, s: State)
    requires Unrivalled(p, op, es, s)
    ensures Unrivalled(p, op, [], Play(es, s))
  {
    if es != [] {
      var front := es[..|es| - 1];
      assert Unrivalled(p, op, front, s);
      StaysUnrivalled(p, op, front, s);
    }
  }

  /** The event is no update of the schedule by a resume of this operation. */
  predicate LeavesHeld(s: State, e: Event, op: string, kind: TaskKind) {
    UpdatesRow(s, e, kind) ==> !Resumes(s.calls[e.who].step, op)
  }

  lemma EventKeepsRecoverable(p: Process, op: string, s: State, e: Event, kind: TaskKind)
    requires ValidState(p.identity, s) && Recoverable(p, op, kind, s.rows[kind]) && LeavesHeld(s, e, op, kind)
    ensures kind in Next(s, e).rows && Recoverable(p, op, kind, Next(s, e).rows[kind])
    ensures Baseline(Next(s, e).rows[kind]) == Baseline(s.rows[kind])
  {
    EventOnRow(s, e, kind);
    if UpdatesRow(s, e, kind) { StepKeepsRecoverable(p, op, s.calls[e.who].step, kind, s.rows[kind]); }
  }

  lemma EventKeepsBack(p: Process, op: string, s: State, e: Event, kind: TaskKind)
    requires ValidState(p.identity, s) && Back(p, op, kind, s.rows[kind]) && LeavesHeld(s, e, op, kind)
    requires Unrivalled(p, op, [], s)
    ensures kind in Next(s, e).rows && Back(p, op, kind, Next(s, e).rows[kind])
  {
    EventOnRow(s, e, kind);
    if UpdatesRow(s, e, kind) { StepKeepsBackIff(p, op, s.calls[e.who].step, kind, s.rows[kind]); }
  }

  // ----- The restore -----

  ghost predicate AllRecoverable(p: Process, op: string, rows: Rows) {
    Complete(rows) && forall kind :: kind in rows ==> Recoverable(p, op, kind, rows[kind])
  }

  /** A restore that has not failed: it found every schedule it checked under control. */
  predicate Unfailing(q: Progress, step: Step) {
    && q.step == step && q.phase != Ended(false)
    && ((q.phase.Checking? ==> q.phase.i > 0) ==> q.controlled)
  }

  lemma RestoreAdvances(p: Process, op: string, q: Progress, rows: Rows)
    requires ValidProcess(p) && SafeOperation(op) && AllRecoverable(p, op, rows)
    requires Unfailing(q, Step(p, Restore, op)) && !q.phase.Ended?
    ensures Unfailing(Advance(q, rows, true, true).0, Step(p, Restore, op))
  {
    if q.phase.Checking? || q.phase.Holding? || q.phase.Updating? {
      var kind := KindAt(q.phase.i);
      assert Recoverable(p, op, kind, rows[kind]);
      RestoreBringsBack(p, op, kind, rows[kind]);
    }
  }

  ghost predicate Restoring(p: Process, op: string, who: Caller, s: State) {
    AllRecoverable(p, op, s.rows) && who in s.calls && Unfailing(s.calls[who], Step(p, Restore, op))
  }

  lemma EventKeepsRestoring(p: Process, op: string, who: Caller, s: State, e: Event)
    requires ValidProcess(p) && SafeOperation(op) && ValidState(p.identity, s) && Restoring(p, op, who, s)
    requires UnresumedByOthers(op, who, [], s) && NotBegun([e], who) && Served([e], who)
    ensures Restoring(p, op, who, Next(s, e))
  {
    assert [e][0] == e;
    forall kind: TaskKind ensures kind in Next(s, e).rows && Recoverable(p, op, kind, Next(s, e).rows[kind]) {
      EventKeepsRecoverable(p, op, s, e, kind);
    }
    if e.who == who && InFlight(s, who) { RestoreAdvances(p, op, s.calls[who], s.rows); }
  }

  /** Whatever calls overlap it, short of a resume, a served restore by a process the records name cannot fail. */
  lemma {:induction false} RestoreNeverFails(p: Process, op: string, who: Caller, es: seq<Event>, s: State)
    requires ValidProcess(p) && SafeOperation(op) && ValidState(p.identity, s) && ValidEvents(p.identity, es)
    requires AllRecoverable(p, op, s.rows) && who in s.calls && s.calls[who] == Started(Step(p, Restore, op))
    requires UnresumedByOthers(op, who, es, s) && NotBegun(es, who) && Served(es, who)
    ensures Restoring(p, op, who, Play(es, s))
  {
    if es != [] {
      var front, e := es[..|es| - 1], es[|es| - 1];
      assert UnresumedByOthers(op, who, front, s);
      RestoreNeverFails(p, op, who, front, s);
      PlayKeepsValid(p.identity, front, s);
      StaysUnresumed(op, who, front, s);
      EventKeepsRestoring(p, op, who, Play(front, s), e);
    }
  }

  lemma EventBringsBack(p: Process, op: string, who: Caller, s: State, e: Event, kind: TaskKind)
    requires ValidProcess(p) && SafeOperation(op) && ValidState(p.identity, s) && Restoring(p, op, who, s)
    requires UnresumedByOthers(op, who, [], s) && NotBegun([e], who) && Unrivalled(p, op, [], s)
    requires PastUpdate(s.calls[who], kind) ==> Back(p, op, kind, s.rows[kind])
    ensures var t := Next(s, e);
      who in t.calls && kind in t.rows && (PastUpdate(t.calls[who], kind) ==> Back(p, op, kind, t.rows[kind]))
  {
    assert [e][0] == e;
    OneMoreEvent(s, e, who, kind);
    if PastUpdate(s.calls[who], kind) {
      EventKeepsBack(p, op, s, e, kind);
    } else if PastUpdate(Next(s, e).calls[who], kind) {
      UpdateBringsBack(p, op, who, s, e, kind);
    }
  }

  lemma UpdateBringsBack(p: Process, op: string, who: Caller, s: State, e: Event, kind: TaskKind)
    requires ValidProcess(p) && SafeOperation(op) && Restoring(p, op, who, s)
    requires e.Operate? && e.who == who && UpdatesRow(s, e, kind)
    ensures kind in Next(s, e).rows && Back(p, op, kind, Next(s, e).rows[kind])
  {
    EventOnRow(s, e, kind);
    RestoreBringsBack(p, op, kind, s.rows[kind]);
  }

  /** Without a rival, what it has updated stays returned. */
  lemma {:induction false} RestoredStaysBack(p: Process, op: string, who: Caller, es: seq<Event>,
                                             s: State, kind: TaskKind)
    requires ValidProcess(p) && SafeOperation(op) && ValidState(p.identity, s) && ValidEvents(p.identity, es)
    requires AllRecoverable(p, op, s.rows) && who in s.calls && s.calls[who] == Started(Step(p, Restore, op))
    requires Unopposed(p, op, who, es, s)
    ensures var t := Play(es, s);
      who in t.calls && kind in t.rows && (PastUpdate(t.calls[who], kind) ==> Back(p, op, kind, t.rows[kind]))
  {
    if es != [] {
      var front, e := es[..|es| - 1], es[|es| - 1];
      UnopposedBefore(p, op, who, es, s, |es| - 1);
      RestoredStaysBack(p, op, who, front, s, kind);
      RestoreNeverFails(p, op, who, front, s);
      PlayKeepsValid(p.identity, front, s);
      StaysUnresumed(op, who, front, s);
      StaysUnrivalled(p, op, front, s);
      EventBringsBack(p, op, who, Play(front, s), e, kind);
    }
  }

  // ----- The resume -----

  /** The schedules the resume has not updated yet are still returned, with the operator's pause and note on record. */
  ghost predicate Resuming(p: Process, op: string, who: Caller, s: State, rows: Rows) {
    && Complete(s.rows) && Complete(rows)
    && who in s.calls && s.calls[who].step == Step(p, Resume, op) && s.calls[who].phase != Ended(false)
    && !s.calls[who].phase.Holding? && !s.calls[who].phase.Draining?
    && forall kind :: kind in rows && !PastUpdate(s.calls[who], kind) ==>
         Back(p, op, kind, s.rows[kind]) && Baseline(s.rows[kind]) == Baseline(rows[kind])
  }

  /** One accepted operation of a pause or resume. */
  lemma AcceptedAdvances(q: Progress, rows: Rows)
    requires Complete(rows) && !IsMigration(q.step) && (q.phase.Checking? || q.phase.Updating?)
    requires Accepted(q.step, KindAt(q.phase.i), rows[KindAt(q.phase.i)])
    ensures var r := Advance(q, rows, true, true).0;
      && r.step == q.step && r.phase != Ended(false) && !r.phase.Holding? && !r.phase.Draining?
      && forall kind :: PastUpdate(q, kind) ==> PastUpdate(r, kind)
  {
    assert q.phase.Checking? ==> Admits(q.step, KindAt(q.phase.i), rows);
  }

  lemma ResumeAdvances(p: Process, op: string, who: Caller, s: State, rows: Rows)
    requires ValidProcess(p) && SafeOperation(op) && Resuming(p, op, who, s, rows) && InFlight(s, who)
    ensures var q := Advance(s.calls[who], s.rows, true, true).0;
      && q.step == Step(p, Resume, op) && q.phase != Ended(false) && !q.phase.Holding? && !q.phase.Draining?
      && forall kind :: PastUpdate(s.calls[who], kind) ==> PastUpdate(q, kind)
  {
    var kind := KindAt(s.calls[who].phase.i);
    assert !PastUpdate(s.calls[who], kind);
    BackResumes(p, op, kind, s.rows[kind]);
    AcceptedAdvances(s.calls[who], s.rows);
  }

  /** An event that is no update of this schedule by the resume itself. */
  lemma OtherKeepsReturned(p: Process, op: string, who: Caller, s: State, e: Event, rows: Rows, kind: TaskKind)
    requires ValidState(p.identity, s) && UnresumedByOthers(op, who, [], s) && Unrivalled(p, op, [], s)
    requires Resuming(p, op, who, s, rows) && !PastUpdate(s.calls[who], kind)
    requires !(e.who == who && UpdatesRow(s, e, kind))
    ensures kind in Next(s, e).rows && Back(p, op, kind, Next(s, e).rows[kind])
    ensures Baseline(Next(s, e).rows[kind]) == Baseline(rows[kind])
  {
    EventKeepsBack(p, op, s, e, kind);
    EventKeepsRecoverable(p, op, s, e, kind);
  }

  lemma EventKeepsResuming(p: Process, op: string, who: Caller, s: State, e: Event, rows: Rows)
    requires ValidProcess(p) && SafeOperation(op) && ValidState(p.identity, s) && Resuming(p, op, who, s, rows)
    requires UnresumedByOthers(op, who, [], s) && Unrivalled(p, op, [], s) && NotBegun([e], who) && Served([e], who)
    ensures Resuming(p, op, who, Next(s, e), rows)
  {
    var t := Next(s, e);
    ResumingGoesOn(p, op, who, s, e, rows);
    forall kind | kind in rows && !PastUpdate(t.calls[who], kind)
      ensures kind in t.rows && Back(p, op, kind, t.rows[kind]) && Baseline(t.rows[kind]) == Baseline(rows[kind])
    {
      if e.who == who && UpdatesRow(s, e, kind) { OwnUpdateIsPast(s, e, kind); }
      OtherKeepsReturned(p, op, who, s, e, rows, kind);
    }
    forall kind: TaskKind ensures kind in t.rows { EventOnRow(s, e, kind); }
  }

  lemma OwnUpdateIsPast(s: State, e: Event, kind: TaskKind)
    requires UpdatesRow(s, e, kind)
    ensures PastUpdate(Next(s, e).calls[e.who], kind) || IsMigration(s.calls[e.who].step)
  {
  }

  /** The resume's own progress. */
  lemma ResumingGoesOn(p: Process, op: string, who: Caller, s: State, e: Event, rows: Rows)
    requires ValidProcess(p) && SafeOperation(op) && Resuming(p, op, who, s, rows)
    requires NotBegun([e], who) && Served([e], who)
    ensures var t := Next(s, e);
      && who in t.calls && t.calls[who].step == Step(p, Resume, op) && t.calls[who].phase != Ended(false)
      && !t.calls[who].phase.Holding? && !t.calls[who].phase.Draining?
      && forall kind :: PastUpdate(s.calls[who], kind) ==> PastUpdate(t.calls[who], kind)
  {
    assert [e][0] == e;
    if e.who == who && InFlight(s, who) { ResumeAdvances(p, op, who, s, rows); }
  }

  /** Nor can the served resume fail, as long as nobody else resumes the operation and no rival restores it. */
  lemma {:induction false} ResumeNeverFails(p: Process, op: string, who: Caller, es: seq<Event>, s: State, rows: Rows)
    requires ValidProcess(p) && SafeOperation(op) && ValidState(p.identity, s)
    requires Resuming(p, op, who, s, rows)
    requires Unopposed(p, op, who, es, s)
    ensures Resuming(p, op, who, Play(es, s), rows)
  {
    if es != [] {
      var front, e := es[..|es| - 1], es[|es| - 1];
      UnopposedBefore(p, op, who, es, s, |es| - 1);
      ResumeNeverFails(p, op, who, front, s, rows);
      PlayKeepsValid(p.identity, front, s);
      StaysUnresumed(op, who, front, s);
      StaysUnrivalled(p, op, front, s);
      EventKeepsResuming(p, op, who, Play(front, s), e, rows);
    }
  }

  /** The schedule as its own update by the resume leaves it. */
  predicate Returned(p: Process, kind: TaskKind, t: State, s: State) {
    Free(t, kind) && RestoredAt(t, s, kind) && t.rows[kind].config == Desired(p, kind)
  }

  lemma ResumeReturns(p: Process, op: string, who: Caller, s: State, e: Event, rows: Rows, kind: TaskKind)
    requires ValidProcess(p) && SafeOperation(op) && Resuming(p, op, who, s, rows) && ReadPause(rows[kind]).Absent?
    requires e.Operate? && e.who == who && UpdatesRow(s, e, kind)
    ensures Returned(p, kind, Next(s, e), State(rows, map[]))
  {
    assert !PastUpdate(s.calls[who], kind);
    BackResumes(p, op, kind, s.rows[kind]);
    EventOnRow(s, e, kind);
  }

  lemma ReturnedByUpdate(p: Process, op: string, who: Caller, es: seq<Event>, s: State, rows: Rows,
                         kind: TaskKind, m: nat)
    requires ValidProcess(p) && SafeOperation(op) && ValidState(p.identity, s)
    requires Resuming(p, op, who, s, rows) && ReadPause(rows[kind]).Absent?
    requires Unopposed(p, op, who, es, s)
    requires AppliedAt(es, s, who, kind, m)
    ensures Returned(p, kind, Play(es[..m + 1], s), State(rows, map[]))
  {
    var front := es[..m];
    UnopposedBefore(p, op, who, es, s, m);
    ResumeNeverFails(p, op, who, front, s, rows);
    ResumeReturns(p, op, who, Play(front, s), es[m], rows, kind);
    assert es[..m + 1][..m] == front;
  }

  lemma AppliedOnTheWay(es: seq<Event>, s: State, who: Caller, step: Step, kind: TaskKind) returns (m: nat)
    requires who in s.calls && s.calls[who] == Started(step) && NotBegun(es, who) && !IsMigration(step)
    requires who in Play(es, s).calls && Play(es, s).calls[who].phase == Ended(true)
    ensures AppliedAt(es, s, who, kind, m)
  {
    PastUpdateWasApplied(es, s, who, step, kind);
    m :| AppliedAt(es, s, who, kind, m);
  }

  /** When it has succeeded, each schedule came back at one moment of the play. */
  lemma ResumedCameBack(p: Process, op: string, who: Caller, es: seq<Event>, s: State, rows: Rows, kind: TaskKind)
    returns (n: nat)
    requires ValidProcess(p) && SafeOperation(op) && ValidState(p.identity, s)
    requires who in s.calls && s.calls[who] == Started(Step(p, Resume, op))
    requires Resuming(p, op, who, s, rows) && ReadPause(rows[kind]).Absent?
    requires Unopposed(p, op, who, es, s)
    requires who in Play(es, s).calls && Play(es, s).calls[who].phase == Ended(true)
    ensures 0 < n <= |es| && Returned(p, kind, Play(es[..n], s), State(rows, map[]))
  {
    var m := AppliedOnTheWay(es, s, who, Step(p, Resume, op), kind);
    ReturnedByUpdate(p, op, who, es, s, rows, kind, m);
    n := m + 1;
  }

  // ----- The rollback as a whole -----

  lemma RunKeepsRecoverable(p: Process, op: string, steps: seq<Step>, kind: TaskKind, s: Schedule)
    requires Recoverable(p, op, kind, s) && ValidSteps(p.identity, steps) && NeverResumes(op, steps)
    ensures Recoverable(p, op, kind, Run(steps, kind, s)) && Baseline(Run(steps, kind, s)) == Baseline(s)
  {
    RunRespectsOwner(p.identity, op, steps, kind, s);
    RunKeepsReachable(p.identity, steps, kind, s);
  }

  lemma PausedIsRecoverable(p: Process, op: string, kind: TaskKind, s: Schedule)
    requires ValidProcess(p) && SafeOperation(op) && Reachable(p.identity, kind, s) && ReadPause(s).Absent?
    requires Accepted(Step(p, Pause, op), kind, s)
    ensures var t := Apply(Step(p, Pause, op), kind, s); Recoverable(p, op, kind, t) && Baseline(t) == Baseline(s)
    ensures s.config == Desired(p, kind)
  {
    StepKeepsReachable(p.identity, Step(p, Pause, op), kind, s);
    StepKeepsBaseline(p.identity, Step(p, Pause, op), kind, s);
    UncontrolledAcceptance(p, op, kind, s);
  }

  /** Under the operation and recoverable, with the pause and note of the given schedules on record. */
  ghost predicate Recorded(p: Process, op: string, at: Rows, rows: Rows) {
    && AllRecoverable(p, op, at) && Complete(rows)
    && forall kind :: kind in rows ==> Baseline(at[kind]) == Baseline(rows[kind])
  }

  lemma PlayKeepsRecorded(p: Process, op: string, es: seq<Event>, s: State, rows: Rows)
    requires ValidState(p.identity, s) && ValidEvents(p.identity, es) && Unresumed(op, es, s)
    requires Recorded(p, op, s.rows, rows)
    ensures Recorded(p, op, Play(es, s).rows, rows)
  {
    var t := Play(es, s);
    forall kind: TaskKind
      ensures kind in t.rows && Recoverable(p, op, kind, t.rows[kind]) && Baseline(t.rows[kind]) == Baseline(rows[kind])
    {
      PlayRefinesSteps(p.identity, es, s, kind);
      UnresumedCalls(op, es, s, kind);
      RunKeepsRecoverable(p, op, Trace(es, s, kind), kind, s.rows[kind]);
    }
  }

  lemma UnopposedIsUnresumed(p: Process, op: string, who: Caller, es: seq<Event>, s: State)
    requires Unopposed(p, op, who, es, s) && who in s.calls && !s.calls[who].step.action.Resume?
    ensures Unresumed(op, es, s)
  {
    forall c | InFlight(s, c) ensures s.calls[c].step.action != Resume || s.calls[c].step.operation != op {
      if c != who { assert !Resumes(s.calls[c].step, op); }
    }
    forall i | 0 <= i < |es| && es[i].Begin?
      ensures es[i].step.action != Resume || es[i].step.operation != op
    {
      assert !Resumes(es[i].step, op);
    }
  }

  /** The restore, once it is over: it succeeded, and every schedule is returned. */
  lemma RestoreIsOver(p: Process, op: string, who: Caller, es: seq<Event>, t: State, rows: Rows)
    requires ValidProcess(p) && SafeOperation(op) && ValidState(p.identity, t) && Recorded(p, op, t.rows, rows)
    requires who in t.calls && t.calls[who] == Started(Step(p, Restore, op)) && Unopposed(p, op, who, es, t)
    requires !InFlight(Play(es, t), who)
    ensures var u := Play(es, t);
      && who in u.calls && u.calls[who].phase == Ended(true) && Recorded(p, op, u.rows, rows)
      && forall kind :: kind in u.rows ==> Back(p, op, kind, u.rows[kind])
  {
    RestoreSucceeds(p, op, who, es, t);
    UnopposedIsUnresumed(p, op, who, es, t);
    PlayKeepsRecorded(p, op, es, t, rows);
  }

  lemma RestoreSucceeds(p: Process, op: string, who: Caller, es: seq<Event>, t: State)
    requires ValidProcess(p) && SafeOperation(op) && ValidState(p.identity, t) && AllRecoverable(p, op, t.rows)
    requires who in t.calls && t.calls[who] == Started(Step(p, Restore, op)) && Unopposed(p, op, who, es, t)
    requires !InFlight(Play(es, t), who)
    ensures var u := Play(es, t);
      && who in u.calls && u.calls[who].phase == Ended(true)
      && forall kind :: kind in u.rows ==> Back(p, op, kind, u.rows[kind])
  {
    RestoreNeverFails(p, op, who, es, t);
    SucceededBringsBack(p, op, who, es, t);
  }

  lemma SucceededBringsBack(p: Process, op: string, who: Caller, es: seq<Event>, t: State)
    requires ValidProcess(p) && SafeOperation(op) && ValidState(p.identity, t) && AllRecoverable(p, op, t.rows)
    requires who in t.calls && t.calls[who] == Started(Step(p, Restore, op)) && Unopposed(p, op, who, es, t)
    requires who in Play(es, t).calls && Unfailing(Play(es, t).calls[who], Step(p, Restore, op))
    requires Play(es, t).calls[who].phase.Ended?
    ensures forall kind :: kind in Play(es, t).rows ==> Back(p, op, kind, Play(es, t).rows[kind])
  {
    forall kind | kind in Play(es, t).rows ensures Back(p, op, kind, Play(es, t).rows[kind]) {
      RestoredStaysBack(p, op, who, es, t, kind);
    }
  }

  /** The resume: it does not fail, and where it succeeded the schedule came back. */
  ghost predicate CameBack(p: Process, who: Caller, es: seq<Event>, t: State, rows: Rows, kind: TaskKind) {
    var u, original := Play(es, t), State(rows, map[]);
    && who in u.calls && u.calls[who].phase != Ended(false)
    && (u.calls[who].phase == Ended(true) ==>
          && RestoredIffFree(u, original, kind)
          && exists n :: 0 < n <= |es| && Returned(p, kind, Play(es[..n], t), original)
                         && RestoredUnlessTaken(es, n, t, original, kind))
  }

  lemma ResumeBringsBack(p: Process, op: string, who: Caller, es: seq<Event>, t: State, rows: Rows, kind: TaskKind)
    requires ValidProcess(p) && SafeOperation(op) && ValidState(p.identity, t)
    requires who in t.calls && t.calls[who] == Started(Step(p, Resume, op)) && Unopposed(p, op, who, es, t)
    requires Resuming(p, op, who, t, rows) && ReadPause(rows[kind]).Absent?
    ensures CameBack(p, who, es, t, rows, kind)
  {
    ResumeNeverFails(p, op, who, es, t, rows);
    if Play(es, t).calls[who].phase == Ended(true) {
      var n := ResumedCameBack(p, op, who, es, t, rows, kind);
      RestoredFromThenOn(p.identity, es, n, t, State(rows, map[]), kind);
    }
  }

  /** The process has paused these schedules while all of them were free. */
  ghost predicate PausedBy(p: Process, op: string, at: Rows, rows: Rows) {
    Complete(at) && forall k :: k in rows ==>
      (ReadPause(rows[k]).Absent? && Accepted(Step(p, Pause, op), k, rows[k])
       && at[k] == Apply(Step(p, Pause, op), k, rows[k]))
  }

  lemma RestoreIsBegun(p: Process, op: string, who: Caller, before: seq<Event>, s: State, rows: Rows)
    requires ValidProcess(p) && SafeOperation(op) && ReachableRows(p.identity, rows)
    requires ValidState(p.identity, s) && ValidEvents(p.identity, before) && Unresumed(op, before, s)
    requires PausedBy(p, op, s.rows, rows) && !InFlight(Play(before, s), who)
    ensures var t := Begun(before, s, who, Step(p, Restore, op));
      && ValidState(p.identity, t) && Recorded(p, op, t.rows, rows)
      && who in t.calls && t.calls[who] == Started(Step(p, Restore, op))
  {
    PausedIsRecorded(p, op, s.rows, rows);
    PlayKeepsRecorded(p, op, before, s, rows);
    PlayKeepsValid(p.identity, before, s);
  }

  /**
   * Rollback with calls overlapping it throughout. The process has paused the three schedules; any calls follow,
   * short of resuming its operation; then it restores and then resumes, served, while others go on, short of
   * resuming the operation or restoring it to another configuration. The restore succeeds, the resume cannot fail,
   * and when it reports success every schedule went back, at its own update, to its configuration, pause and note.
   */
  lemma RollbackGoesThrough(p: Process, op: string, who: Caller, before: seq<Event>, during: seq<Event>,
                            after: seq<Event>, s: State, rows: Rows, kind: TaskKind)
    requires ValidProcess(p) && SafeOperation(op) && ReachableRows(p.identity, rows)
    requires ValidState(p.identity, s) && ValidEvents(p.identity, before) && Unresumed(op, before, s)
    requires PausedBy(p, op, s.rows, rows) && !InFlight(Play(before, s), who)
    requires var t := Begun(before, s, who, Step(p, Restore, op));
      && Unopposed(p, op, who, during, t) && !InFlight(Play(during, t), who)
      && Unopposed(p, op, who, after, Begun(during, t, who, Step(p, Resume, op)))
    ensures var t := Begun(before, s, who, Step(p, Restore, op));
      && who in Play(during, t).calls && Play(during, t).calls[who].phase == Ended(true)
      && CameBack(p, who, after, Begun(during, t, who, Step(p, Resume, op)), rows, kind)
      && rows[kind].config == Desired(p, kind)
  {
    var t := Begun(before, s, who, Step(p, Restore, op));
    RestoreIsBegun(p, op, who, before, s, rows);
    PausedIsRecoverable(p, op, kind, rows[kind]);
    RestoreThenResumeCalls(p, op, who, t, during, Begun(during, t, who, Step(p, Resume, op)), after, rows, kind);
  }

  lemma RestoreThenResumeCalls(p: Process, op: string, who: Caller, t: State, during: seq<Event>, v: State,
                               after: seq<Event>, rows: Rows, kind: TaskKind)
    requires ValidProcess(p) && SafeOperation(op) && ValidState(p.identity, t) && Recorded(p, op, t.rows, rows)
    requires who in t.calls && t.calls[who] == Started(Step(p, Restore, op)) && Unopposed(p, op, who, during, t)
    requires !InFlight(Play(during, t), who) && v == Next(Play(during, t), Begin(who, Step(p, Resume, op)))
    requires Unopposed(p, op, who, after, v) && ReadPause(rows[kind]).Absent?
    ensures who in Play(during, t).calls && Play(during, t).calls[who].phase == Ended(true)
    ensures CameBack(p, who, after, v, rows, kind)
  {
    RestoreIsOver(p, op, who, during, t, rows);
    PlayKeepsValid(p.identity, during, t);
    ResumeIsBegun(p, op, who, Play(during, t), rows);
    ResumeBringsBack(p, op, who, after, v, rows, kind);
  }

  lemma PausedIsRecorded(p: Process, op: string, at: Rows, rows: Rows)
    requires ValidProcess(p) && SafeOperation(op) && ReachableRows(p.identity, rows) && Complete(at)
    requires PausedBy(p, op, at, rows)
    ensures Recorded(p, op, at, rows)
  {
    forall k: TaskKind ensures Recoverable(p, op, k, at[k]) && Baseline(at[k]) == Baseline(rows[k]) {
      PausedIsRecoverable(p, op, k, rows[k]);
    }
  }

  lemma ResumeIsBegun(p: Process, op: string, who: Caller, u: State, rows: Rows)
    requires ValidProcess(p) && SafeOperation(op) && ValidState(p.identity, u) && !InFlight(u, who)
    requires Recorded(p, op, u.rows, rows) && forall kind :: kind in u.rows ==> Back(p, op, kind, u.rows[kind])
    ensures var t := Next(u, Begin(who, Step(p, Resume, op)));
      ValidState(p.identity, t) && Resuming(p, op, who, t, rows)
  {
  }
}
