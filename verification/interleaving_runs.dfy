/**
 * What survives of the whole-call guarantees when calls interleave: restoration, holding and rollback.
 */
module InterleavedRuns {
  import opened Options
  import opened Schedules
  import opened ScheduleRuns
  import opened ControlCalls
  import opened ControlMachine
  import opened Interleavings
  import opened InterleavedOwnership

  // ----- A successful call updated every schedule at some moment -----

  predicate AppliedAt(es: seq<Event>, s: State, who: Caller, kind: TaskKind, n: nat) {
    n < |es| && es[n].Operate? && es[n].who == who && UpdatesRow(Play(es[..n], s), es[n], kind)
  }

  /** The call has updated this schedule; a migration that found nothing controlled updates none. */
  predicate PastUpdate(p: Progress, kind: TaskKind) {
    match p.phase
    case Updating(i) => i > Position(kind)
    case Ended(ok) => ok && (IsMigration(p.step) ==> p.controlled)
    case _ => false
  }

  predicate SeesRecords(p: Progress) {
    (p.phase.Holding? || p.phase.Draining? || p.phase.Updating?) && IsMigration(p.step) ==> p.controlled
  }

  ghost predicate NotBegun(es: seq<Event>, who: Caller) {
    forall i :: 0 <= i < |es| && es[i].Begin? ==> es[i].who != who
  }

  lemma OneMoreEvent(s: State, e: Event, who: Caller, kind: TaskKind)
    requires who in s.calls && (e.Begin? ==> e.who != who) && SeesRecords(s.calls[who])
    ensures var t := Next(s, e);
      && who in t.calls && t.calls[who].step == s.calls[who].step && SeesRecords(t.calls[who])
      && (PastUpdate(t.calls[who], kind) ==>
            PastUpdate(s.calls[who], kind) || (e.Operate? && e.who == who && UpdatesRow(s, e, kind)))
  {
  }

  lemma {:induction false} PastUpdateWasApplied(es: seq<Event>, s: State, who: Caller, step: Step, kind: TaskKind)
    requires who in s.calls && s.calls[who] == Started(step) && NotBegun(es, who)
    ensures var t := Play(es, s); who in t.calls && t.calls[who].step == step && SeesRecords(t.calls[who])
    ensures PastUpdate(Play(es, s).calls[who], kind) ==> exists n: nat :: AppliedAt(es, s, who, kind, n)
  {
    if es != [] {
      var front, e := es[..|es| - 1], es[|es| - 1];
      PastUpdateWasApplied(front, s, who, step, kind);
      OneMoreEvent(Play(front, s), e, who, kind);
      if PastUpdate(Play(front, s).calls[who], kind) {
        var n: nat :| AppliedAt(front, s, who, kind, n);
        assert front[..n] == es[..n] && AppliedAt(es, s, who, kind, n);
      } else if PastUpdate(Play(es, s).calls[who], kind) {
        assert AppliedAt(es, s, who, kind, |es| - 1);
      }
    }
  }

  // ----- Nothing is updated before everything was checked -----

  /** The caller's own check of the schedule passed here, and the schedule would have accepted its update. */
  predicate CheckedAt(es: seq<Event>, s: State, who: Caller, kind: TaskKind, n: nat) {
    && n < |es| && es[n].Operate? && es[n].who == who && es[n].up
    && var t := Play(es[..n], s);
       && InFlight(t, who) && t.calls[who].phase == Checking(Position(kind))
       && kind in t.rows && Accepted(t.calls[who].step, kind, t.rows[kind])
  }

  predicate PastCheck(q: Progress, kind: TaskKind) {
    match q.phase
    case Checking(i) => i > Position(kind)
    case Updating(_) => true
    case Ended(ok) => ok
    case _ => false
  }

  lemma OneMoreCheck(s: State, e: Event, who: Caller, kind: TaskKind)
    requires Complete(s.rows) && who in s.calls && (e.Begin? ==> e.who != who) && !IsMigration(s.calls[who].step)
    requires !s.calls[who].phase.Holding? && !s.calls[who].phase.Draining?
    ensures var t := Next(s, e);
      && Complete(t.rows) && who in t.calls && t.calls[who].step == s.calls[who].step
      && !t.calls[who].phase.Holding? && !t.calls[who].phase.Draining?
      && (PastCheck(t.calls[who], kind) && !PastCheck(s.calls[who], kind) ==>
            && e.Operate? && e.who == who && e.up && InFlight(s, who) && s.calls[who].phase == Checking(Position(kind))
            && Accepted(s.calls[who].step, kind, s.rows[kind]))
  {
    if e.Operate? && InFlight(s, e.who) && s.calls[e.who].phase.Updating? {
      UpdatePassesIff(s, e.who, e.up, e.drained);
    }
    if e.Operate? && e.who == who && InFlight(s, who) && s.calls[who].phase.Checking? {
      CheckPassesIff(s, who, e.up, e.drained);
    }
  }

  /**
   * A pause or resume that is past its checks had every schedule accept its update at the moment of its own check;
   * so nothing is changed by a call that one of the three would have refused throughout.
   */
  lemma {:induction false} PastCheckWasAccepted(es: seq<Event>, s: State, who: Caller, step: Step, kind: TaskKind)
    requires Complete(s.rows) && who in s.calls && s.calls[who] == Started(step) && NotBegun(es, who)
    requires !IsMigration(step)
    ensures var t := Play(es, s);
      && Complete(t.rows) && who in t.calls && t.calls[who].step == step
      && !t.calls[who].phase.Holding? && !t.calls[who].phase.Draining?
    ensures PastCheck(Play(es, s).calls[who], kind) ==> exists n: nat :: CheckedAt(es, s, who, kind, n)
  {
    if es != [] {
      var front, e := es[..|es| - 1], es[|es| - 1];
      PastCheckWasAccepted(front, s, who, step, kind);
      OneMoreCheck(Play(front, s), e, who, kind);
      if PastCheck(Play(front, s).calls[who], kind) {
        var n: nat :| CheckedAt(front, s, who, kind, n);
        assert front[..n] == es[..n] && CheckedAt(es, s, who, kind, n);
      } else if PastCheck(Play(es, s).calls[who], kind) {
        assert CheckedAt(es, s, who, kind, |es| - 1);
      }
    }
  }

  // ----- Restoration -----

  /** The state in which a caller has just begun a call. */
  function Begun(before: seq<Event>, s: State, who: Caller, step: Step): State {
    Next(Play(before, s), Begin(who, step))
  }

  ghost predicate Completes(before: seq<Event>, after: seq<Event>, s: State, who: Caller, step: Step) {
    && !InFlight(Play(before, s), who) && NotBegun(after, who)
    && var t := Play(after, Begun(before, s, who, step)); who in t.calls && t.calls[who].phase == Ended(true)
  }

  lemma AppliedOnce(before: seq<Event>, after: seq<Event>, s: State, who: Caller, step: Step, kind: TaskKind)
    returns (n: nat)
    requires Completes(before, after, s, who, step) && !IsMigration(step)
    ensures AppliedAt(after, Begun(before, s, who, step), who, kind, n)
    ensures Play(after[..n], Begun(before, s, who, step)) == Play(before + [Begin(who, step)] + after[..n], s)
    ensures Play(after[..n], Begun(before, s, who, step)).calls[who].step == step
  {
    var t := Begun(before, s, who, step);
    PastUpdateWasApplied(after, t, who, step, kind);
    n :| AppliedAt(after, t, who, kind, n);
    assert NotBegun(after[..n], who);
    PastUpdateWasApplied(after[..n], t, who, step, kind);
    PlaySplit(before, [Begin(who, step)], s);
    PlaySplit(before + [Begin(who, step)], after[..n], s);
    assert [Begin(who, step)][..0] == [];
    assert Play([Begin(who, step)], Play(before, s)) == t;
  }

  lemma ValidTogether(id: Identity, before: seq<Event>, e: Event, after: seq<Event>, n: nat)
    requires ValidEvents(id, before) && ValidEvents(id, after) && n <= |after| && (e.Begin? ==> ValidStep(id, e.step))
    ensures ValidEvents(id, before + [e] + after[..n])
  {
  }

  /** The schedule is paused and noted as the operator had it in the earlier state, a bootstrap pause being over. */
  predicate RestoredAt(t: State, s: State, kind: TaskKind) {
    && kind in t.rows && kind in s.rows
    && (t.rows[kind].paused, t.rows[kind].note) == Settle((s.rows[kind].paused, s.rows[kind].note))
  }

  predicate Free(s: State, kind: TaskKind) {
    kind in s.rows && ReadPause(s.rows[kind]).Absent?
  }

  ghost predicate AlwaysFree(es: seq<Event>, s: State, kind: TaskKind) {
    Free(Play(es, s), kind) && (es != [] ==> AlwaysFree(es[..|es| - 1], s, kind))
  }

  /** A pause takes the schedule. */
  predicate Takes(s: State, e: Event, kind: TaskKind) {
    UpdatesRow(s, e, kind) && s.calls[e.who].step.action.Pause?
  }

  ghost predicate NeverTaken(es: seq<Event>, s: State, kind: TaskKind) {
    es == [] || (NeverTaken(es[..|es| - 1], s, kind) && !Takes(Play(es[..|es| - 1], s), es[|es| - 1], kind))
  }

  lemma EventKeepsFreeIff(id: Identity, t: State, e: Event, s: State, kind: TaskKind)
    requires ValidState(id, t) && Free(t, kind) && RestoredAt(t, s, kind)
    ensures Free(Next(t, e), kind) <==> !Takes(t, e, kind)
    ensures !Takes(t, e, kind) ==> RestoredAt(Next(t, e), s, kind)
  {
    EventOnRow(t, e, kind);
    if UpdatesRow(t, e, kind) { StepKeepsBaseline(id, t.calls[e.who].step, kind, t.rows[kind]); }
  }

  /** A restored schedule stays free exactly as long as no pause takes it, and until then as it was restored. */
  lemma {:induction false} StaysRestoredIff(id: Identity, es: seq<Event>, t: State, s: State, kind: TaskKind)
    requires ValidState(id, t) && ValidEvents(id, es) && Free(t, kind) && RestoredAt(t, s, kind)
    ensures AlwaysFree(es, t, kind) <==> NeverTaken(es, t, kind)
    ensures NeverTaken(es, t, kind) ==> Free(Play(es, t), kind) && RestoredAt(Play(es, t), s, kind)
  {
    if es != [] {
      var front := es[..|es| - 1];
      StaysRestoredIff(id, front, t, s, kind);
      PlayKeepsValid(id, front, t);
      if NeverTaken(front, t, kind) { EventKeepsFreeIff(id, Play(front, t), es[|es| - 1], s, kind); }
    }
  }

  lemma RestoredByItsUpdate(id: Identity, before: seq<Event>, after: seq<Event>, s: State,
                            who: Caller, step: Step, kind: TaskKind)
    returns (n: nat)
    requires ValidState(id, s) && ValidEvents(id, before) && ValidEvents(id, after) && ValidStep(id, step)
    requires step.action.Resume? && Completes(before, after, s, who, step) && ReadPause(s.rows[kind]).Absent?
    ensures n < |after|
    ensures var t := Play(after[..n + 1], Begun(before, s, who, step)); Free(t, kind) && RestoredAt(t, s, kind)
  {
    var t := Begun(before, s, who, step);
    n := AppliedOnce(before, after, s, who, step, kind);
    var es := before + [Begin(who, step)] + after[..n];
    ValidTogether(id, before, Begin(who, step), after, n);
    PlayRefinesSteps(id, es, s, kind);
    ResumeRestoresOriginal(id, Trace(es, s, kind), step, kind, s.rows[kind]);
    assert after[..n + 1][..n] == after[..n];
    EventOnRow(Play(after[..n], t), after[n], kind);
    assert Play(after[..n + 1], t) == Next(Play(after[..n], t), after[n]);
  }

  /** Of the pauses and resumes that updated the schedule, the last one was a pause. */
  ghost predicate TakenLast(es: seq<Event>, s: State, kind: TaskKind) {
    es != [] &&
    var before, e := Play(es[..|es| - 1], s), es[|es| - 1];
    Takes(before, e, kind) || (!Gives(before, e, kind) && TakenLast(es[..|es| - 1], s, kind))
  }

  /** A resume updates the schedule. */
  predicate Gives(s: State, e: Event, kind: TaskKind) {
    UpdatesRow(s, e, kind) && s.calls[e.who].step.action.Resume?
  }

  lemma EventDecidesFree(id: Identity, t: State, e: Event, kind: TaskKind)
    requires ValidState(id, t) && !ReadPause(t.rows[kind]).Invalid?
    ensures kind in Next(t, e).rows && !ReadPause(Next(t, e).rows[kind]).Invalid?
    ensures Free(Next(t, e), kind) <==> !Takes(t, e, kind) && (Gives(t, e, kind) || Free(t, kind))
  {
    EventOnRow(t, e, kind);
    if UpdatesRow(t, e, kind) {
      StepKeepsBaseline(id, t.calls[e.who].step, kind, t.rows[kind]);
      if ReadPause(t.rows[kind]).Present? { StepRespectsOwner(id, t.calls[e.who].step, kind, t.rows[kind]); }
    }
  }

  /** A free schedule is free in the end exactly when it was not taken without being given back. */
  lemma {:induction false} FreeAtEndIff(id: Identity, es: seq<Event>, t: State, kind: TaskKind)
    requires ValidState(id, t) && ValidEvents(id, es) && Free(t, kind)
    ensures kind in Play(es, t).rows && !ReadPause(Play(es, t).rows[kind]).Invalid?
    ensures Free(Play(es, t), kind) <==> !TakenLast(es, t, kind)
  {
    if es != [] {
      var front := es[..|es| - 1];
      FreeAtEndIff(id, front, t, kind);
      PlayKeepsValid(id, front, t);
      EventDecidesFree(id, Play(front, t), es[|es| - 1], kind);
    }
  }

  /** Whatever is played on a restored schedule, the operator's own pause and note stay as restored. */
  lemma BaselineStays(id: Identity, es: seq<Event>, t: State, s: State, kind: TaskKind)
    requires ValidState(id, t) && ValidEvents(id, es) && Free(t, kind) && RestoredAt(t, s, kind)
    ensures kind in Play(es, t).rows
    ensures Baseline(Play(es, t).rows[kind]) == Settle((s.rows[kind].paused, s.rows[kind].note))
  {
    PlayRefinesSteps(id, es, t, kind);
    RunKeepsBaseline(id, Trace(es, t, kind), kind, t.rows[kind]);
  }

  /** Such a schedule shows them exactly while it is free. */
  lemma ShownIffFree(u: Schedule, s: Schedule)
    requires ReadPause(s).Absent? && !ReadPause(u).Invalid? && Baseline(u) == Settle((s.paused, s.note))
    ensures (u.paused, u.note) == Settle((s.paused, s.note)) <==> ReadPause(u).Absent?
  {
  }

  /** After n events the schedule is free and restored; how it fares from there on, throughout and in the end. */
  ghost predicate RestoredUnlessTaken(after: seq<Event>, n: nat, t: State, s: State, kind: TaskKind)
    requires n <= |after|
  {
    var mid, rest := Play(after[..n], t), after[n..];
    && Free(mid, kind) && RestoredAt(mid, s, kind)
    && (AlwaysFree(rest, mid, kind) <==> NeverTaken(rest, mid, kind))
    && (Free(Play(after, t), kind) <==> !TakenLast(rest, mid, kind))
  }

  /**
   * Whole-run restoration under any interleaving: when a resume reports success, every schedule went, at the
   * moment of its own update, back to exactly the operator's settled pause and note of the very beginning. They
   * are not lost any more: in the end the schedule is as the operator had it exactly when it is free, and it is
   * free exactly when no pause took it since without a resume giving it back.
   */
  lemma InterleavedRestoration(id: Identity, before: seq<Event>, after: seq<Event>, s: State,
                               who: Caller, step: Step, kind: TaskKind)
    requires ValidState(id, s) && ValidEvents(id, before) && ValidEvents(id, after) && ValidStep(id, step)
    requires step.action.Resume? && Completes(before, after, s, who, step) && ReadPause(s.rows[kind]).Absent?
    ensures exists n :: 0 < n <= |after| && RestoredUnlessTaken(after, n, Begun(before, s, who, step), s, kind)
    ensures RestoredIffFree(Play(after, Begun(before, s, who, step)), s, kind)
  {
    var n := RestorationMoment(id, before, after, s, who, step, kind);
  }

  /** The number of events up to and with the update that restores the schedule. */
  lemma RestorationMoment(id: Identity, before: seq<Event>, after: seq<Event>, s: State,
                          who: Caller, step: Step, kind: TaskKind) returns (n: nat)
    requires ValidState(id, s) && ValidEvents(id, before) && ValidEvents(id, after) && ValidStep(id, step)
    requires step.action.Resume? && Completes(before, after, s, who, step) && ReadPause(s.rows[kind]).Absent?
    ensures 0 < n <= |after| && RestoredUnlessTaken(after, n, Begun(before, s, who, step), s, kind)
    ensures RestoredIffFree(Play(after, Begun(before, s, who, step)), s, kind)
  {
    var update := RestoredByItsUpdate(id, before, after, s, who, step, kind);
    n := update + 1;
    PlayKeepsValid(id, before, s);
    RestoredFromThenOn(id, after, n, Begun(before, s, who, step), s, kind);
  }

  /** The operator's pause and note are not lost, and the schedule shows them exactly while it is free. */
  predicate RestoredIffFree(u: State, s: State, kind: TaskKind) {
    && kind in u.rows && kind in s.rows
    && Baseline(u.rows[kind]) == Settle((s.rows[kind].paused, s.rows[kind].note))
    && (RestoredAt(u, s, kind) <==> Free(u, kind))
  }

  lemma RestoredFromThenOn(id: Identity, after: seq<Event>, n: nat, t: State, s: State, kind: TaskKind)
    requires ValidState(id, t) && ValidEvents(id, after) && n <= |after| && kind in s.rows
    requires Free(Play(after[..n], t), kind) && RestoredAt(Play(after[..n], t), s, kind)
    requires ReadPause(s.rows[kind]).Absent?
    ensures RestoredUnlessTaken(after, n, t, s, kind) && RestoredIffFree(Play(after, t), s, kind)
  {
    var mid, rest := Play(after[..n], t), after[n..];
    PlayKeepsValid(id, after[..n], t);
    PlaySplit(after[..n], rest, t);
    assert after == after[..n] + rest;
    assert ValidEvents(id, rest);
    StaysRestoredIff(id, rest, mid, s, kind);
    FreeAtEndIff(id, rest, mid, kind);
    BaselineStays(id, rest, mid, s, kind);
    ShownIffFree(Play(rest, mid).rows[kind], s.rows[kind]);
  }

  /** No pause is under way, and none is begun. */
  ghost predicate Unpaused(es: seq<Event>, s: State) {
    (forall c :: !Pausing(s, c)) && forall i :: 0 <= i < |es| && es[i].Begin? ==> !es[i].step.action.Pause?
  }

  lemma {:induction false} UnpausedNeverTakes(es: seq<Event>, s: State, kind: TaskKind)
    requires Unpaused(es, s)
    ensures Unpaused([], Play(es, s)) && NeverTaken(es, s, kind)
  {
    if es != [] {
      var front, e := es[..|es| - 1], es[|es| - 1];
      assert Unpaused(front, s);
      UnpausedNeverTakes(front, s, kind);
      forall c ensures !Pausing(Play(es, s), c) { assert !Pausing(Play(front, s), c); }
      assert Takes(Play(front, s), e, kind) ==> Pausing(Play(front, s), e.who);
    }
  }

  /**
   * What a caller has to see to: if no pause is under way when the resume begins and none is begun until it
   * reports success, then all it resumed is free and as the operator had it.
   */
  lemma UnpausedRestoration(id: Identity, before: seq<Event>, after: seq<Event>, s: State,
                            who: Caller, step: Step, kind: TaskKind)
    requires ValidState(id, s) && ValidEvents(id, before) && ValidEvents(id, after) && ValidStep(id, step)
    requires step.action.Resume? && Completes(before, after, s, who, step) && ReadPause(s.rows[kind]).Absent?
    requires Unpaused(after, Begun(before, s, who, step))
    ensures var u := Play(after, Begun(before, s, who, step)); Free(u, kind) && RestoredAt(u, s, kind)
  {
    var t := Begun(before, s, who, step);
    var n := RestoredByItsUpdate(id, before, after, s, who, step, kind);
    PlayKeepsValid(id, before, s);
    RestoredFromThenOn(id, after, n + 1, t, s, kind);
    UnpausedNeverTakes(after[..n + 1], t, kind);
    UnpausedNeverTakes(after[n + 1..], Play(after[..n + 1], t), kind);
    NeverTakenIsFree(after[n + 1..], Play(after[..n + 1], t), kind);
  }

  lemma {:induction false} NeverTakenIsFree(es: seq<Event>, s: State, kind: TaskKind)
    requires NeverTaken(es, s, kind)
    ensures !TakenLast(es, s, kind)
  {
    if es != [] { NeverTakenIsFree(es[..|es| - 1], s, kind); }
  }

  lemma HeldAfterPause(id: Identity, t: State, e: Event, kind: TaskKind)
    requires ValidState(id, t) && UpdatesRow(t, e, kind) && t.calls[e.who].step.action.Pause?
    ensures Holds(t.calls[e.who].step.operation, kind, Next(t, e).rows)
  {
    EventOnRow(t, e, kind);
  }

  /** When a pause reports success its operation holds every schedule, unless that operation was resumed meanwhile. */
  lemma InterleavedPauseHolds(id: Identity, before: seq<Event>, after: seq<Event>, s: State,
                              who: Caller, step: Step, kind: TaskKind)
    requires ValidState(id, s) && ValidEvents(id, before) && ValidEvents(id, after) && ValidStep(id, step)
    requires step.action.Pause? && Completes(before, after, s, who, step)
    requires Unresumed(step.operation, after, Begun(before, s, who, step))
    ensures var rows := Play(after, Begun(before, s, who, step)).rows;
      Holds(step.operation, kind, rows) && rows[kind].paused
  {
    var t := Begun(before, s, who, step);
    PlayKeepsValid(id, before, s);
    var n := AppliedOnce(before, after, s, who, step, kind);
    HeldFromThenOn(id, after, n, t, who, step, kind);
  }

  lemma HeldFromThenOn(id: Identity, es: seq<Event>, n: nat, t: State, who: Caller, step: Step, kind: TaskKind)
    requires ValidState(id, t) && ValidEvents(id, es) && Unresumed(step.operation, es, t)
    requires AppliedAt(es, t, who, kind, n) && step.action.Pause? && Play(es[..n], t).calls[who].step == step
    ensures var rows := Play(es, t).rows; Holds(step.operation, kind, rows) && rows[kind].paused
  {
    var first, rest := es[..n + 1], es[n + 1..];
    assert es == first + rest;
    HeldOnceApplied(id, es, n, t, who, step, kind);
    UnresumedSplit(step.operation, first, rest, t, kind);
    PlaySplit(first, rest, t);
    assert ValidEvents(id, rest);
    HeldStaysHeld(id, step.operation, rest, Play(first, t), kind);
  }

  lemma HeldOnceApplied(id: Identity, es: seq<Event>, n: nat, t: State, who: Caller, step: Step, kind: TaskKind)
    requires ValidState(id, t) && ValidEvents(id, es)
    requires AppliedAt(es, t, who, kind, n) && step.action.Pause? && Play(es[..n], t).calls[who].step == step
    ensures ValidState(id, Play(es[..n + 1], t)) && Holds(step.operation, kind, Play(es[..n + 1], t).rows)
  {
    var first := es[..n + 1];
    assert first[..n] == es[..n];
    PlayKeepsValid(id, es[..n], t);
    PlayKeepsValid(id, first, t);
    HeldAfterPause(id, Play(es[..n], t), es[n], kind);
  }

  lemma UnresumedSplit(op: string, first: seq<Event>, rest: seq<Event>, t: State, kind: TaskKind)
    requires Unresumed(op, first + rest, t)
    ensures Unresumed(op, rest, Play(first, t))
  {
    var es := first + rest;
    assert forall i :: 0 <= i < |first| ==> first[i] == es[i];
    assert forall i :: 0 <= i < |rest| ==> rest[i] == es[|first| + i];
    UnresumedCalls(op, first, t, kind);
  }

  // ----- Rollback -----

  lemma MidRowIsReturnable(outgoing: Process, op: string, es: seq<Event>, s: State, rows: Rows, kind: TaskKind)
    requires ValidProcess(outgoing) && SafeOperation(op) && ReachableRows(outgoing.identity, rows)
    requires ReadPause(rows[kind]).Absent? && Accepted(Step(outgoing, Pause, op), kind, rows[kind])
    requires ValidState(outgoing.identity, s) && ValidEvents(outgoing.identity, es) && Unresumed(op, es, s)
    requires s.rows[kind] == Apply(Step(outgoing, Pause, op), kind, rows[kind])
    ensures var mid := Play(es, s).rows;
      Complete(mid) && Holds(op, kind, mid) && Returnable(outgoing, op, kind, mid[kind], rows[kind])
  {
    var id := outgoing.identity;
    PlayRefinesSteps(id, es, s, kind);
    UnresumedCalls(op, es, s, kind);
    RollbackRoundTrip(outgoing, op, Trace(es, s, kind), kind, rows[kind]);
    StepKeepsBaseline(id, Step(outgoing, Pause, op), kind, rows[kind]);
    HeldStaysHeld(id, op, es, s, kind);
  }

  /**
   * Rollback of a deployment under any interleaving: once the outgoing process has paused the three schedules,
   * whatever calls of whatever processes overlap, short of resuming this operation, its own restore and
   * resume then succeed and give every schedule its configuration and the operator's pause back.
   */
  lemma InterleavedRollback(outgoing: Process, op: string, es: seq<Event>, s: State, rows: Rows, n: nat)
    requires ValidProcess(outgoing) && SafeOperation(op) && ReachableRows(outgoing.identity, rows) && 9 <= n
    requires ValidState(outgoing.identity, s) && ValidEvents(outgoing.identity, es) && Unresumed(op, es, s)
    requires forall kind :: kind in rows ==>
      (ReadPause(rows[kind]).Absent? && Accepted(Step(outgoing, Pause, op), kind, rows[kind])
       && s.rows[kind] == Apply(Step(outgoing, Pause, op), kind, rows[kind]))
    ensures var restored := CallOutcome(Call(Step(outgoing, Restore, op), n, true), Play(es, s).rows);
      var resumed := CallOutcome(Call(Step(outgoing, Resume, op), n, true), restored.rows);
      && restored.ok && resumed.ok && Complete(resumed.rows)
      && forall kind :: kind in rows ==> var u := resumed.rows[kind];
           u.config == rows[kind].config && (u.paused, u.note) == Settle((rows[kind].paused, rows[kind].note))
  {
    var mid := Play(es, s).rows;
    forall kind: TaskKind
      ensures Complete(mid) && Holds(op, kind, mid) && Returnable(outgoing, op, kind, mid[kind], rows[kind])
    {
      MidRowIsReturnable(outgoing, op, es, s, rows, kind);
    }
    RestoreAndResumeAll(outgoing, op, mid, rows, n);
    ReturnedRows(outgoing, op, mid, rows);
  }
}
