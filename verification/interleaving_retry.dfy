/**
 * Retrying a call that broke off, while calls of other operations go on: once the operation holds a schedule they
 * are kept out, so the retry ends exactly where the undisturbed call would have ended.
 */
module InterleavedRetries {
  import opened Options
  import opened Schedules
  import opened ScheduleRuns
  import opened ControlCalls
  import opened ControlMachine
  import opened Interleavings
  import opened InterleavedOwnership

  // ----- The attempts, and the calls around them -----

  /** The operation holds a schedule to the end of the call: a resume releases the last one last. */
  ghost predicate Guards(step: Step, rows: Rows) {
    if step.action.Resume? then Holds(step.operation, Notifications, rows)
    else exists kind :: Holds(step.operation, kind, rows)
  }

  /** The caller begins this call; the others begin calls of other operations, and only while the operation guards. */
  ghost predicate MayBegin(step: Step, who: Caller, s: State, e: Event) {
    e.Begin? ==>
      if e.who == who then e.step == step else e.step.operation != step.operation && Guards(step, s.rows)
  }

  predicate Succeeded(s: State, who: Caller) {
    who in s.calls && s.calls[who].phase == Ended(true)
  }

  /** Any number of attempts broken off anywhere, none of which has succeeded yet. */
  ghost predicate Attempting(step: Step, who: Caller, es: seq<Event>, s: State) {
    !Succeeded(Play(es, s), who)
    && (es != [] ==>
          Attempting(step, who, es[..|es| - 1], s)
          && MayBegin(step, who, Play(es[..|es| - 1], s), es[|es| - 1]))
  }

  // ----- What the attempts and the others leave -----

  /** A foreign call that still has to check a schedule the operation holds on to. */
  ghost predicate KeptOut(step: Step, q: Progress, rows: Rows) {
    && q.phase.Checking? && q.step.operation != step.operation
    && exists kind :: q.phase.i <= Position(kind) && Holds(step.operation, kind, rows)
                      && (step.action.Resume? ==> kind == Notifications)
  }

  ghost predicate OthersKeptOut(step: Step, who: Caller, s: State) {
    forall c :: c != who && InFlight(s, c) ==> KeptOut(step, s.calls[c], s.rows)
  }

  /** An attempt that goes its way: what it is past, it has updated. */
  ghost predicate OnCourse(q: Progress, step: Step, rows: Rows, partial: Rows)
    requires Complete(rows) && Complete(partial)
  {
    && q.step == step && q.phase != Ended(true)
    && (q.phase.Holding? || q.phase.Draining? ==> IsMigration(step))
    && (IsMigration(step) && !q.phase.Ended? && (q.phase.Checking? ==> q.phase.i > 0) ==> q.controlled)
    && (q.phase.Updating? ==>
          forall kind :: Position(kind) < q.phase.i ==> partial[kind] == Apply(step, kind, rows[kind]))
  }

  ghost predicate Retrying(step: Step, who: Caller, s: State, rows: Rows) {
    && PartlyUpdated(step, rows, s.rows) && OthersKeptOut(step, who, s)
    && (who in s.calls ==> OnCourse(s.calls[who], step, rows, s.rows))
  }

  lemma BeginKeepsRetrying(step: Step, who: Caller, s: State, e: Event, rows: Rows)
    requires Retrying(step, who, s, rows) && e.Begin? && MayBegin(step, who, s, e)
    ensures Retrying(step, who, Next(s, e), rows)
  {
    if e.who != who {
      var kind :| Holds(step.operation, kind, s.rows) && (step.action.Resume? ==> kind == Notifications);
      assert KeptOut(step, Started(e.step), s.rows);
    }
  }

  lemma KeptOutStays(step: Step, q: Progress, rows: Rows, up: bool, drained: bool)
    requires KeptOut(step, q, rows)
    ensures Advance(q, rows, up, drained).1 == rows
    ensures !Advance(q, rows, up, drained).0.phase.Ended? ==> KeptOut(step, Advance(q, rows, up, drained).0, rows)
  {
    var kind :| q.phase.i <= Position(kind) && Holds(step.operation, kind, rows)
                && (step.action.Resume? ==> kind == Notifications);
    assert KindAt(q.phase.i) == kind ==> !Admits(q.step, kind, rows);
    assert q.phase.i == Position(kind) ==> KindAt(q.phase.i) == kind;
  }

  lemma OtherKeepsRetrying(step: Step, who: Caller, s: State, e: Event, rows: Rows)
    requires Retrying(step, who, s, rows) && e.Operate? && e.who != who
    ensures Retrying(step, who, Next(s, e), rows)
  {
    if InFlight(s, e.who) { KeptOutStays(step, s.calls[e.who], s.rows, e.up, e.drained); }
  }

  // ----- One operation of an attempt -----

  lemma OneMorePartly(step: Step, rows: Rows, partial: Rows, kind: TaskKind)
    requires PartlyUpdated(step, rows, partial)
    ensures PartlyUpdated(step, rows, partial[kind := Apply(step, kind, rows[kind])])
  {
  }

  lemma AllUpdated(step: Step, rows: Rows, after: Rows)
    requires Complete(rows) && Complete(after)
    requires forall kind :: kind in rows ==> after[kind] == Apply(step, kind, rows[kind])
    ensures after == ApplyAll(step, rows)
  {
  }

  lemma UpdateKeepsCourse(id: Identity, step: Step, q: Progress, rows: Rows, partial: Rows)
    requires ValidStep(id, step) && ReachableRows(id, rows) && PartlyUpdated(step, rows, partial)
    requires OnCourse(q, step, rows, partial) && q.phase.Updating?
    ensures var kind := KindAt(q.phase.i);
      var after := partial[kind := Apply(step, kind, rows[kind])];
      && Advance(q, partial, true, true) == (AfterUpdate(q, q.phase.i), after) && PartlyUpdated(step, rows, after)
      && if q.phase.i < 2 then OnCourse(AfterUpdate(q, q.phase.i), step, rows, after) else after == ApplyAll(step, rows)
  {
    var kind := KindAt(q.phase.i);
    var after := partial[kind := Apply(step, kind, rows[kind])];
    PartialRow(id, step, kind, rows[kind], partial[kind]);
    OneMorePartly(step, rows, partial, kind);
    forall k | Position(k) <= q.phase.i ensures after[k] == Apply(step, k, rows[k]) {
      if Position(k) == q.phase.i { assert k == kind; }
    }
    if q.phase.i == 2 { AllUpdated(step, rows, after); }
  }

  /** A check passes; a migration sees a record at the first. */
  lemma CheckKeepsCourse(id: Identity, step: Step, q: Progress, rows: Rows, partial: Rows)
    requires ValidStep(id, step) && ReachableRows(id, rows) && PartlyUpdated(step, rows, partial)
    requires OnCourse(q, step, rows, partial) && !q.phase.Ended? && !q.phase.Updating?
    ensures var r := Advance(q, partial, true, true);
      r.1 == partial && OnCourse(r.0, step, rows, partial) && r.0.phase != Ended(false)
  {
    PartialRows(id, step, rows, partial);
    AcceptedIsAdmitted(step, partial);
    if !q.phase.Draining? {
      var kind := KindAt(q.phase.i);
      assert Admits(step, kind, partial) && (IsMigration(step) ==> Holds(step.operation, kind, partial));
    }
  }

  /** An operation that fails leaves everything as it is. */
  lemma OperationOrFailure(q: Progress, rows: Rows, up: bool, drained: bool)
    requires !q.phase.Ended?
    ensures Advance(q, rows, up, drained) == Advance(q, rows, true, true)
         || Advance(q, rows, up, drained) == (q.(phase := Ended(false)), rows)
  {
  }

  lemma OperationKeepsCourse(id: Identity, step: Step, q: Progress, rows: Rows, partial: Rows, up: bool, drained: bool)
    requires ValidStep(id, step) && ReachableRows(id, rows) && PartlyUpdated(step, rows, partial)
    requires OnCourse(q, step, rows, partial) && !q.phase.Ended?
    ensures var r := Advance(q, partial, up, drained);
      && PartlyUpdated(step, rows, r.1)
      && (r.0.phase == Ended(true) ==> r.1 == ApplyAll(step, rows))
      && (r.0.phase != Ended(true) ==> OnCourse(r.0, step, rows, r.1))
  {
    OperationOrFailure(q, partial, up, drained);
    if q.phase.Updating? {
      UpdateKeepsCourse(id, step, q, rows, partial);
    } else {
      CheckKeepsCourse(id, step, q, rows, partial);
    }
  }

  lemma PartlyIsReadable(id: Identity, step: Step, rows: Rows, partial: Rows, kind: TaskKind)
    requires ValidStep(id, step) && ReachableRows(id, rows) && PartlyUpdated(step, rows, partial)
    ensures !ReadPause(partial[kind]).Invalid?
  {
    StepKeepsBaseline(id, step, kind, rows[kind]);
  }

  /** An update keeps the others out, unless it is the last one of a resume. */
  lemma UpdateKeepsOthersOut(id: Identity, step: Step, q: Progress, rows: Rows, partial: Rows,
                             other: Progress, up: bool, drained: bool)
    requires ValidStep(id, step) && ReachableRows(id, rows) && PartlyUpdated(step, rows, partial)
    requires q.step == step && !q.phase.Ended? && KeptOut(step, other, partial)
    requires Advance(q, partial, up, drained).0.phase != Ended(true)
    ensures KeptOut(step, other, Advance(q, partial, up, drained).1)
  {
    var kind :| other.phase.i <= Position(kind) && Holds(step.operation, kind, partial)
                && (step.action.Resume? ==> kind == Notifications);
    PartlyIsReadable(id, step, rows, partial, kind);
    if q.phase.Updating? && KindAt(q.phase.i) == kind { StepRespectsOwner(id, step, kind, partial[kind]); }
    assert Holds(step.operation, kind, Advance(q, partial, up, drained).1);
  }

  // ----- The play -----

  lemma OwnKeepsRetrying(id: Identity, step: Step, who: Caller, s: State, e: Event, rows: Rows)
    requires ValidStep(id, step) && ReachableRows(id, rows) && Retrying(step, who, s, rows)
    requires e.Operate? && e.who == who && !Succeeded(Next(s, e), who)
    ensures Retrying(step, who, Next(s, e), rows)
  {
    if InFlight(s, who) {
      var q := s.calls[who];
      OperationKeepsCourse(id, step, q, rows, s.rows, e.up, e.drained);
      forall c | c != who && InFlight(s, c) ensures KeptOut(step, s.calls[c], Advance(q, s.rows, e.up, e.drained).1) {
        UpdateKeepsOthersOut(id, step, q, rows, s.rows, s.calls[c], e.up, e.drained);
      }
    }
  }

  lemma {:induction false} AttemptsKeepRetrying(id: Identity, step: Step, who: Caller, es: seq<Event>, s: State)
    requires ValidStep(id, step) && ReachableRows(id, s.rows) && AtRest(s) && who !in s.calls
    requires forall kind :: kind in s.rows ==> Accepted(step, kind, s.rows[kind])
    requires Attempting(step, who, es, s)
    ensures Retrying(step, who, Play(es, s), s.rows)
  {
    if es != [] {
      var front, e := es[..|es| - 1], es[|es| - 1];
      AttemptsKeepRetrying(id, step, who, front, s);
      if e.Begin? {
        BeginKeepsRetrying(step, who, Play(front, s), e, s.rows);
      } else if e.who == who {
        OwnKeepsRetrying(id, step, who, Play(front, s), e, s.rows);
      } else {
        OtherKeepsRetrying(step, who, Play(front, s), e, s.rows);
      }
    }
  }

  // ----- A migration that has nothing in front of it -----

  /** Nothing is held, so nobody else begins, and no attempt changes anything. */
  ghost predicate Idling(step: Step, who: Caller, s: State, rows: Rows) {
    && s.rows == rows && (forall c :: c != who ==> !InFlight(s, c))
    && (who in s.calls ==> s.calls[who].step == step && !s.calls[who].controlled
                           && (s.calls[who].phase.Checking? || s.calls[who].phase == Ended(false)))
  }

  lemma NothingGuards(step: Step, rows: Rows)
    requires NoneHeld(rows)
    ensures !Guards(step, rows)
  {
  }

  lemma EventKeepsIdling(step: Step, who: Caller, s: State, e: Event, rows: Rows)
    requires IsMigration(step) && NoneHeld(rows) && Idling(step, who, s, rows)
    requires MayBegin(step, who, s, e) && !Succeeded(Next(s, e), who)
    ensures Idling(step, who, Next(s, e), rows)
  {
    NothingGuards(step, rows);
    forall c | c != who ensures !InFlight(Next(s, e), c) { assert !InFlight(s, c); }
    if e.Operate? && e.who == who && InFlight(s, who) {
      var q := s.calls[who];
      var r := Advance(q, s.rows, e.up, e.drained);
      assert r.1 == rows && r.0.step == step && !r.0.controlled;
      assert r.0.phase.Checking? || r.0.phase.Ended?;
      assert Next(s, e).calls[who] == r.0;
    }
  }

  lemma {:induction false} AttemptsIdle(step: Step, who: Caller, es: seq<Event>, s: State)
    requires IsMigration(step) && NoneHeld(s.rows) && AtRest(s) && who !in s.calls && Attempting(step, who, es, s)
    ensures Idling(step, who, Play(es, s), s.rows)
  {
    if es != [] {
      AttemptsIdle(step, who, es[..|es| - 1], s);
      EventKeepsIdling(step, who, Play(es[..|es| - 1], s), es[|es| - 1], s.rows);
    }
  }

  // ----- The retry -----

  /** What the next served operation of the retry does: go on, or end as the undisturbed call ends. */
  ghost predicate EndsAs(o: Outcome, s: State, who: Caller) {
    var u := Next(s, Operate(who, true, true));
    && who in u.calls && u.calls[who].phase != Ended(false)
    && (u.calls[who].phase == Ended(true) ==> o == Outcome(u.rows, true))
  }

  lemma RetryingEnds(id: Identity, step: Step, who: Caller, s: State, rows: Rows)
    requires ValidStep(id, step) && ReachableRows(id, rows) && Retrying(step, who, s, rows) && InFlight(s, who)
    ensures EndsAs(Outcome(ApplyAll(step, rows), true), s, who)
  {
    var q := s.calls[who];
    if q.phase.Updating? {
      UpdateKeepsCourse(id, step, q, rows, s.rows);
    } else {
      CheckKeepsCourse(id, step, q, rows, s.rows);
    }
  }

  lemma IdlingEnds(step: Step, who: Caller, s: State, rows: Rows)
    requires Idling(step, who, s, rows) && InFlight(s, who)
    requires IsMigration(step) && NoneHeld(rows) && AllAdmit(step, rows)
    ensures EndsAs(Outcome(rows, true), s, who)
  {
    assert Admits(step, KindAt(s.calls[who].phase.i), rows);
  }

  lemma SuccessIsAcceptance(step: Step, rows: Rows, calls: nat)
    requires Complete(rows) && CallOutcome(Call(step, calls, true), rows).ok && !(IsMigration(step) && NoneHeld(rows))
    ensures forall kind :: kind in rows ==> Accepted(step, kind, rows[kind])
    ensures CallOutcome(Call(step, calls, true), rows) == Outcome(ApplyAll(step, rows), true)
  {
    var o := CallOutcome(Call(step, calls, true), rows);
    forall kind: TaskKind
      ensures Complete(o.rows) && Accepted(step, kind, rows[kind]) && o.rows[kind] == Apply(step, kind, rows[kind])
    {
      SuccessfulCallAppliesToAll(Call(step, calls, true), rows, kind);
    }
    AllUpdated(step, rows, o.rows);
  }

  /**
   * If a call would succeed undisturbed, then after any number of attempts at it, broken off anywhere, and with any
   * calls of other operations around them, begun while this one holds a schedule (for a resume, the last one), no
   * served operation of the next attempt fails, and when it succeeds it ends exactly where the undisturbed call ends.
   */
  lemma InterleavedRetry(id: Identity, step: Step, who: Caller, es: seq<Event>, s: State, calls: nat)
    requires ValidStep(id, step) && ReachableRows(id, s.rows) && AtRest(s) && who !in s.calls
    requires CallOutcome(Call(step, calls, true), s.rows).ok
    requires Attempting(step, who, es, s) && InFlight(Play(es, s), who)
    ensures EndsAs(CallOutcome(Call(step, calls, true), s.rows), Play(es, s), who)
  {
    if IsMigration(step) && NoneHeld(s.rows) {
      AttemptsIdle(step, who, es, s);
      IdlingEnds(step, who, Play(es, s), s.rows);
    } else {
      SuccessIsAcceptance(step, s.rows, calls);
      AttemptsKeepRetrying(id, step, who, es, s);
      RetryingEnds(id, step, who, Play(es, s), s.rows);
    }
  }
}
