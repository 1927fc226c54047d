/**
 * Who owns the three schedules when calls interleave: when single ownership is kept, how it is lost, and why
 * nobody gets out again once it is.
 */
module InterleavedOwnership {
  import opened Options
  import opened Schedules
  import opened ScheduleRuns
  import opened ControlCalls
  import opened ControlMachine
  import opened Interleavings

  predicate HeldByOther(op: string, kind: TaskKind, rows: Rows) {
    kind in rows && ReadPause(rows[kind]).Present? && ReadPause(rows[kind]).record.operation != op
  }

  /** An accepted update keeps single ownership exactly when it is no pause beside another operation's hold. */
  lemma UpdateKeepsSingleOwnerIff(id: Identity, step: Step, kind: TaskKind, rows: Rows)
    requires Complete(rows) && SingleOwner(rows) && ValidStep(id, step) && Accepted(step, kind, rows[kind])
    ensures SingleOwner(rows[kind := Apply(step, kind, rows[kind])])
      <==> !(step.action.Pause? && exists k :: k != kind && HeldByOther(step.operation, k, rows))
  {
    var after := rows[kind := Apply(step, kind, rows[kind])];
    var op := step.operation;
    if step.action.Pause? {
      assert Holds(op, kind, after);
      if k :| k != kind && HeldByOther(op, k, rows) {
        assert after[k] == rows[k];
      } else {
        forall k: TaskKind ensures !HeldByOther(op, k, after) {
          if k != kind { assert after[k] == rows[k] && !HeldByOther(op, k, rows); }
        }
        NobodyElse(op, after);
      }
    } else if ReadPause(rows[kind]).Present? {
      StepRespectsOwner(id, step, kind, rows[kind]);
    } else {
      assert !ReadPause(after[kind]).Present?;
    }
  }

  lemma NobodyElse(op: string, rows: Rows)
    requires forall kind :: !HeldByOther(op, kind, rows)
    ensures SingleOwner(rows)
  {
    forall k, k' | k in rows && k' in rows && ReadPause(rows[k]).Present? && ReadPause(rows[k']).Present?
      ensures ReadPause(rows[k]).record.operation == ReadPause(rows[k']).record.operation
    {
      assert !HeldByOther(op, k, rows) && !HeldByOther(op, k', rows);
    }
  }

  /** A pause takes a schedule while another one is held by a different operation. */
  ghost predicate Intrudes(s: State, e: Event) {
    exists kind, k :: k != kind && UpdatesRow(s, e, kind) && s.calls[e.who].step.action.Pause?
      && HeldByOther(s.calls[e.who].step.operation, k, s.rows)
  }

  lemma EventKeepsSingleOwnerIff(id: Identity, s: State, e: Event)
    requires ValidState(id, s) && SingleOwner(s.rows)
    ensures SingleOwner(Next(s, e).rows) <==> !Intrudes(s, e)
  {
    if kind :| UpdatesRow(s, e, kind) {
      UpdateKeepsSingleOwnerIff(id, s.calls[e.who].step, kind, s.rows);
    } else {
      forall kind: TaskKind ensures kind in Next(s, e).rows && Next(s, e).rows[kind] == s.rows[kind] {
        EventOnRow(s, e, kind);
      }
      assert Next(s, e).rows == s.rows;
    }
  }

  ghost predicate NeverIntrudes(es: seq<Event>, s: State) {
    es == [] || (NeverIntrudes(es[..|es| - 1], s) && !Intrudes(Play(es[..|es| - 1], s), es[|es| - 1]))
  }

  ghost predicate AlwaysSingle(es: seq<Event>, s: State) {
    SingleOwner(Play(es, s).rows) && (es != [] ==> AlwaysSingle(es[..|es| - 1], s))
  }

  /** Over any interleaving there is a single owner throughout exactly when no pause ever intrudes. */
  lemma {:induction false} AlwaysSingleIff(id: Identity, es: seq<Event>, s: State)
    requires ValidState(id, s) && ValidEvents(id, es) && SingleOwner(s.rows)
    ensures AlwaysSingle(es, s) <==> NeverIntrudes(es, s)
  {
    if es != [] {
      var front := es[..|es| - 1];
      AlwaysSingleIff(id, front, s);
      PlayKeepsValid(id, front, s);
      if AlwaysSingle(front, s) { EventKeepsSingleOwnerIff(id, Play(front, s), es[|es| - 1]); }
    }
  }

  // ----- Keeping pauses and resumes apart keeps one owner -----

  predicate Pausing(s: State, who: Caller) {
    InFlight(s, who) && s.calls[who].step.action.Pause?
  }

  predicate ResumesRow(s: State, e: Event) {
    e.Operate? && InFlight(s, e.who) && s.calls[e.who].phase.Updating? && s.calls[e.who].step.action.Resume?
  }

  /** No resume updates a schedule while a pause is under way: all a caller has to see to. */
  ghost predicate Apart(es: seq<Event>, s: State) {
    es == [] ||
    (Apart(es[..|es| - 1], s)
     && var before := Play(es[..|es| - 1], s);
        ResumesRow(before, es[|es| - 1]) ==> forall who :: !Pausing(before, who))
  }

  function ChecksDone(phase: Phase): nat {
    match phase
    case Checking(i) => i
    case Ended(_) => 0
    case _ => 3
  }

  /** What a pause under way relies on: nothing it saw free was taken but behind the first schedule. */
  ghost predicate PauseSafe(p: Progress, rows: Rows) {
    var op := p.step.operation;
    && !p.phase.Holding? && !p.phase.Draining?
    && (forall kind ::
          Position(kind) < ChecksDone(p.phase) && HeldByOther(op, kind, rows) ==> HeldByOther(op, Sla, rows))
    && (p.phase.Updating? && p.phase.i > 0 ==> Holds(op, Sla, rows))
  }

  ghost predicate OwnerInv(s: State) {
    SingleOwner(s.rows) && forall who :: Pausing(s, who) ==> PauseSafe(s.calls[who], s.rows)
  }

  lemma CheckKeepsOwner(s: State, e: Event)
    requires Complete(s.rows) && OwnerInv(s) && e.Operate? && InFlight(s, e.who) && !s.calls[e.who].phase.Updating?
    ensures OwnerInv(Next(s, e))
  {
    var t := Next(s, e);
    assert t.rows == s.rows;
    forall who | Pausing(t, who) ensures PauseSafe(t.calls[who], t.rows) {
      assert Pausing(s, who) && PauseSafe(s.calls[who], s.rows);
    }
  }

  /** A pause that updates a schedule takes it only for the one owner. */
  lemma PauseKeepsOwner(id: Identity, s: State, e: Event, kind: TaskKind)
    requires ValidState(id, s) && OwnerInv(s) && UpdatesRow(s, e, kind) && s.calls[e.who].step.action.Pause?
    ensures OwnerInv(Next(s, e))
  {
    var t, p := Next(s, e), s.calls[e.who];
    PauseTakesForOwner(id, s, e, kind);
    NobodyElse(p.step.operation, t.rows);
    forall who | Pausing(t, who) ensures PauseSafe(t.calls[who], t.rows) {
      assert Pausing(s, who) && PauseSafe(s.calls[who], s.rows);
      if p.phase.i > 0 { assert Holds(p.step.operation, Sla, t.rows); }
    }
  }

  /** Afterwards nothing is held by anybody else. */
  lemma PauseTakesForOwner(id: Identity, s: State, e: Event, kind: TaskKind)
    requires ValidState(id, s) && OwnerInv(s) && UpdatesRow(s, e, kind) && s.calls[e.who].step.action.Pause?
    ensures var op, t := s.calls[e.who].step.operation, Next(s, e);
      Holds(op, kind, t.rows) && forall k :: !HeldByOther(op, k, t.rows)
  {
    var op, t := s.calls[e.who].step.operation, Next(s, e);
    assert Pausing(s, e.who) && PauseSafe(s.calls[e.who], s.rows);
    EventOnRow(s, e, kind);
    assert Holds(op, kind, t.rows);
    forall k: TaskKind ensures !HeldByOther(op, k, t.rows) {
      if k != kind {
        EventOnRow(s, e, k);
        assert HeldByOther(op, k, s.rows) ==> HeldByOther(op, Sla, s.rows);
      }
    }
  }

  lemma MigrationKeepsOwner(id: Identity, s: State, e: Event, kind: TaskKind)
    requires ValidState(id, s) && OwnerInv(s) && UpdatesRow(s, e, kind) && IsMigration(s.calls[e.who].step)
    ensures OwnerInv(Next(s, e))
  {
    var t, step := Next(s, e), s.calls[e.who].step;
    StepRespectsOwner(id, step, kind, s.rows[kind]);
    forall op: string, k: TaskKind
      ensures HeldByOther(op, k, t.rows) == HeldByOther(op, k, s.rows) && Holds(op, k, t.rows) == Holds(op, k, s.rows)
    {
    }
    forall who | Pausing(t, who) ensures PauseSafe(t.calls[who], t.rows) {
      assert Pausing(s, who) && PauseSafe(s.calls[who], s.rows);
    }
  }

  lemma EventKeepsOwner(id: Identity, s: State, e: Event)
    requires ValidState(id, s) && OwnerInv(s) && (ResumesRow(s, e) ==> forall who :: !Pausing(s, who))
    ensures OwnerInv(Next(s, e))
  {
    var t := Next(s, e);
    if e.Begin? {
      forall who | Pausing(t, who) ensures PauseSafe(t.calls[who], t.rows) {
        assert t.calls[who] == Started(e.step) || Pausing(s, who);
      }
    } else if InFlight(s, e.who) && s.calls[e.who].phase.Updating? {
      var kind := KindAt(s.calls[e.who].phase.i);
      EventOnRow(s, e, kind);
      if !UpdatesRow(s, e, kind) {
        assert t.rows == s.rows;
        forall who | Pausing(t, who) ensures PauseSafe(t.calls[who], t.rows) {
          assert Pausing(s, who) && PauseSafe(s.calls[who], s.rows);
        }
      } else if s.calls[e.who].step.action.Pause? {
        PauseKeepsOwner(id, s, e, kind);
      } else if s.calls[e.who].step.action.Resume? {
        forall who ensures !Pausing(t, who) { assert !Pausing(s, who); }
        UpdateKeepsSingleOwnerIff(id, s.calls[e.who].step, kind, s.rows);
      } else {
        MigrationKeepsOwner(id, s, e, kind);
      }
    } else if InFlight(s, e.who) {
      CheckKeepsOwner(s, e);
    }
  }

  ghost predicate AtRest(s: State) {
    forall who :: !InFlight(s, who)
  }

  /**
   * Any interleaving of any calls keeps a single owner as long as resumes and pauses are kept apart; in
   * particular overlapping pauses never split the schedules, because all of them take the first one first.
   */
  lemma {:induction false} PlayKeepsSingleOwner(id: Identity, es: seq<Event>, s: State)
    requires ValidState(id, s) && ValidEvents(id, es) && SingleOwner(s.rows) && AtRest(s) && Apart(es, s)
    ensures OwnerInv(Play(es, s))
  {
    if es != [] {
      var front := es[..|es| - 1];
      PlayKeepsSingleOwner(id, front, s);
      PlayKeepsValid(id, front, s);
      EventKeepsOwner(id, Play(front, s), es[|es| - 1]);
    }
  }

  // ----- A call that finds somebody else's hold never updates -----

  /** Some schedule this call has not checked yet is held by another operation. */
  ghost predicate Barred(p: Progress, rows: Rows) {
    p.phase.Checking? && exists kind :: p.phase.i <= Position(kind) && HeldByOther(p.step.operation, kind, rows)
  }

  ghost predicate AllBarred(s: State) {
    forall who :: InFlight(s, who) ==> Barred(s.calls[who], s.rows)
  }

  ghost predicate BarredBegin(rows: Rows, e: Event) {
    e.Begin? ==> exists kind :: HeldByOther(e.step.operation, kind, rows)
  }

  lemma BarredStays(s: State, e: Event)
    requires Complete(s.rows) && AllBarred(s) && BarredBegin(s.rows, e)
    ensures var t := Next(s, e); t.rows == s.rows && AllBarred(t)
    ensures var t := Next(s, e);
      e.Operate? && InFlight(s, e.who) && t.calls[e.who].phase.Ended? ==> !t.calls[e.who].phase.ok
  {
    if e.Operate? && InFlight(s, e.who) {
      var p := s.calls[e.who];
      assert Barred(p, s.rows);
      var kind :| p.phase.i <= Position(kind) && HeldByOther(p.step.operation, kind, s.rows);
      assert KindAt(p.phase.i) == kind ==> !Admits(p.step, kind, s.rows);
      assert p.phase.i == Position(kind) ==> KindAt(p.phase.i) == kind;
    }
  }

  lemma {:induction false} BarredCallsChangeNothing(es: seq<Event>, s: State)
    requires Complete(s.rows) && AllBarred(s) && forall i :: 0 <= i < |es| ==> BarredBegin(s.rows, es[i])
    ensures Play(es, s).rows == s.rows && AllBarred(Play(es, s))
  {
    if es != [] {
      var front, e := es[..|es| - 1], es[|es| - 1];
      assert forall i :: 0 <= i < |front| ==> front[i] == es[i];
      BarredCallsChangeNothing(front, s);
      assert BarredBegin(s.rows, es[|es| - 1]);
      BarredStays(Play(front, s), e);
    }
  }

  /** While one operation holds a schedule, calls of others begun from then on change nothing, however interleaved. */
  lemma ForeignCallsChangeNothing(es: seq<Event>, s: State, op: string, kind: TaskKind)
    requires Complete(s.rows) && AtRest(s) && Holds(op, kind, s.rows)
    requires forall i :: 0 <= i < |es| && es[i].Begin? ==> es[i].step.operation != op
    ensures Play(es, s).rows == s.rows
  {
    forall i | 0 <= i < |es| ensures BarredBegin(s.rows, es[i]) {
      if es[i].Begin? { assert HeldByOther(es[i].step.operation, kind, s.rows); }
    }
    BarredCallsChangeNothing(es, s);
  }

  /** Two operations hold schedules at once. */
  ghost predicate Split(rows: Rows) {
    exists k, k' :: k in rows && k' in rows && ReadPause(rows[k]).Present? && ReadPause(rows[k']).Present?
      && ReadPause(rows[k]).record.operation != ReadPause(rows[k']).record.operation
  }

  /** Once split, no call of anybody ever changes a schedule again: the three are stuck for good. */
  lemma SplitIsForever(es: seq<Event>, s: State)
    requires Complete(s.rows) && AtRest(s) && Split(s.rows)
    ensures Play(es, s).rows == s.rows && Split(Play(es, s).rows)
  {
    var k, k' :| k in s.rows && k' in s.rows && ReadPause(s.rows[k]).Present? && ReadPause(s.rows[k']).Present?
      && ReadPause(s.rows[k]).record.operation != ReadPause(s.rows[k']).record.operation;
    forall i | 0 <= i < |es| ensures BarredBegin(s.rows, es[i]) {
      if es[i].Begin? {
        assert HeldByOther(es[i].step.operation, k, s.rows) || HeldByOther(es[i].step.operation, k', s.rows);
      }
    }
    BarredCallsChangeNothing(es, s);
  }
}
