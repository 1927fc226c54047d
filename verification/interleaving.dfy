/**
 * Calls of several processes, interleaved between any two of their remote operations. A process has one
 * call at a time; its calls hold no lock on the schedules, so only each single update is atomic.
 */
module Interleavings {
  import opened Options
  import opened Schedules
  import opened ScheduleRuns
  import opened ControlCalls
  import opened ControlMachine

  /** Which of the processes; each has its own control mutex. */
  type Caller = nat

  datatype State = State(rows: Rows, calls: map<Caller, Progress>)

  datatype Event =
    | Begin(who: Caller, step: Step)
    | Operate(who: Caller, up: bool, drained: bool)

  predicate InFlight(s: State, who: Caller) {
    who in s.calls && !s.calls[who].phase.Ended?
  }

  function Next(s: State, e: Event): State {
    match e
    case Begin(who, step) => if InFlight(s, who) then s else s.(calls := s.calls[who := Started(step)])
    case Operate(who, up, drained) =>
      if !InFlight(s, who) then s
      else
        var (p, rows) := Advance(s.calls[who], s.rows, up, drained);
        State(rows, s.calls[who := p])
  }

  function Play(es: seq<Event>, s: State): State {
    if es == [] then s else Next(Play(es[..|es| - 1], s), es[|es| - 1])
  }

  ghost predicate ValidEvents(id: Identity, es: seq<Event>) {
    forall i :: 0 <= i < |es| && es[i].Begin? ==> ValidStep(id, es[i].step)
  }

  ghost predicate ValidState(id: Identity, s: State) {
    Complete(s.rows) && forall who :: who in s.calls ==> ValidStep(id, s.calls[who].step)
  }

  lemma {:induction false} PlayKeepsValid(id: Identity, es: seq<Event>, s: State)
    requires ValidState(id, s) && ValidEvents(id, es)
    ensures ValidState(id, Play(es, s))
  {
    if es != [] { PlayKeepsValid(id, es[..|es| - 1], s); }
  }

  lemma {:induction false} PlaySplit(a: seq<Event>, b: seq<Event>, s: State)
    ensures Play(a + b, s) == Play(b, Play(a, s))
  {
    if b == [] {
      assert a + b == a;
    } else {
      assert (a + b)[..|a + b| - 1] == a + b[..|b| - 1];
      PlaySplit(a, b[..|b| - 1], s);
    }
  }

  // ----- Each schedule sees a run of atomic updates -----

  /** The operation performed updates this schedule. */
  predicate UpdatesRow(s: State, e: Event, kind: TaskKind) {
    && e.Operate? && InFlight(s, e.who) && s.calls[e.who].phase.Updating?
    && KindAt(s.calls[e.who].phase.i) == kind && e.up
    && kind in s.rows && Accepted(s.calls[e.who].step, kind, s.rows[kind])
  }

  /** One event leaves a schedule alone or is exactly one accepted update of it. */
  lemma EventOnRow(s: State, e: Event, kind: TaskKind)
    requires Complete(s.rows)
    ensures var t := Next(s, e);
      && Complete(t.rows)
      && (if UpdatesRow(s, e, kind) then t.rows[kind] == Apply(s.calls[e.who].step, kind, s.rows[kind])
          else t.rows[kind] == s.rows[kind])
  {
  }

  /** A check changes nothing; that of a pause or resume passes exactly if the schedule would then accept its update. */
  lemma CheckPassesIff(s: State, who: Caller, up: bool, drained: bool)
    requires Complete(s.rows) && InFlight(s, who) && s.calls[who].phase.Checking? && !IsMigration(s.calls[who].step)
    ensures var t, i := Next(s, Operate(who, up, drained)), s.calls[who].phase.i;
      var passes := up && Accepted(s.calls[who].step, KindAt(i), s.rows[KindAt(i)]);
      && t.rows == s.rows && who in t.calls && t.calls[who].step == s.calls[who].step
      && t.calls[who].phase
         == if !passes then Ended(false) else if i == 2 then Updating(0) else Checking(i + 1)
  {
    CheckIsAcceptance(s.calls[who].step, KindAt(s.calls[who].phase.i), s.rows);
  }

  /** The checks of a migration: it remembers whether any schedule was under control, and is done if none was. */
  lemma MigrationCheckPassesIff(s: State, who: Caller, up: bool, drained: bool)
    requires Complete(s.rows) && InFlight(s, who) && s.calls[who].phase.Checking? && IsMigration(s.calls[who].step)
    ensures var t, q := Next(s, Operate(who, up, drained)), s.calls[who];
      var row := s.rows[KindAt(q.phase.i)];
      var controlled := q.controlled || ReadPause(row).Present?;
      && t.rows == s.rows && who in t.calls && t.calls[who].step == q.step
      && if !up || !Admits(q.step, KindAt(q.phase.i), s.rows) then t.calls[who].phase == Ended(false)
         else t.calls[who].controlled == controlled
              && t.calls[who].phase == (if q.phase.i < 2 then Checking(q.phase.i + 1)
                                        else if controlled then Holding(0) else Ended(true))
  {
  }

  /** Before it changes anything, a migration sees every schedule held by its own operation, and the drain settled. */
  lemma HoldPassesIff(s: State, who: Caller, up: bool, drained: bool)
    requires Complete(s.rows) && InFlight(s, who) && (s.calls[who].phase.Holding? || s.calls[who].phase.Draining?)
    ensures var t, q := Next(s, Operate(who, up, drained)), s.calls[who];
      && t.rows == s.rows && who in t.calls && t.calls[who].step == q.step && t.calls[who].controlled == q.controlled
      && if q.phase.Draining? then t.calls[who].phase == (if drained then Updating(0) else Ended(false))
         else var r := ReadPause(s.rows[KindAt(q.phase.i)]);
              var passes := up && r.Present? && r.record.operation == q.step.operation;
              t.calls[who].phase == (if !passes then Ended(false)
                                     else if q.phase.i == 2 then Draining else Holding(q.phase.i + 1))
  {
  }

  /** A call begins with the check of the first schedule, unless its caller still has one under way. */
  lemma BeginsWithCheck(s: State, who: Caller, step: Step)
    ensures var t := Next(s, Begin(who, step));
      && t.rows == s.rows && who in t.calls
      && if InFlight(s, who) then t == s
         else t.calls[who].step == step && t.calls[who].phase == Checking(0) && !t.calls[who].controlled
  {
  }

  /** Every call visits the schedules in one fixed order. */
  lemma FixedOrder()
    ensures KindAt(0) == Sla && KindAt(1) == Effects && KindAt(2) == Notifications
  {
  }

  /** An update goes on exactly if its schedule accepts it, and then changes that schedule alone. */
  lemma UpdatePassesIff(s: State, who: Caller, up: bool, drained: bool)
    requires Complete(s.rows) && InFlight(s, who) && s.calls[who].phase.Updating?
    ensures var t, i, step := Next(s, Operate(who, up, drained)), s.calls[who].phase.i, s.calls[who].step;
      var passes := up && Accepted(step, KindAt(i), s.rows[KindAt(i)]);
      && who in t.calls && t.calls[who].step == step
      && t.calls[who].phase
         == (if !passes then Ended(false) else if i == 2 then Ended(true) else Updating(i + 1))
      && t.rows == if passes then s.rows[KindAt(i) := Apply(step, KindAt(i), s.rows[KindAt(i)])] else s.rows
  {
  }

  /** The other calls do not notice: an event is its caller's alone. */
  lemma OthersGoOn(s: State, e: Event, c: Caller)
    requires c != e.who
    ensures var t := Next(s, e); (c in t.calls <==> c in s.calls) && (c in s.calls ==> t.calls[c] == s.calls[c])
  {
  }

  /** The updates one schedule accepts during a play. */
  ghost function Trace(es: seq<Event>, s: State, kind: TaskKind): seq<Step> {
    if es == [] then []
    else
      var before, e := Play(es[..|es| - 1], s), es[|es| - 1];
      Trace(es[..|es| - 1], s, kind) + if UpdatesRow(before, e, kind) then [before.calls[e.who].step] else []
  }

  lemma {:induction false} RunAppendStep(steps: seq<Step>, step: Step, kind: TaskKind, s: Schedule)
    ensures Run(steps + [step], kind, s) == Apply(step, kind, Run(steps, kind, s))
  {
    if steps == [] {
      assert (steps + [step])[1..] == [];
    } else {
      assert (steps + [step])[1..] == steps[1..] + [step];
      RunAppendStep(steps[1..], step, kind, Apply(steps[0], kind, s));
    }
  }

  /** However the calls interleave, what happens to one schedule is a run of accepted atomic updates. */
  lemma {:induction false} PlayRefinesSteps(id: Identity, es: seq<Event>, s: State, kind: TaskKind)
    requires ValidState(id, s) && ValidEvents(id, es)
    ensures var t := Play(es, s);
      && Complete(t.rows) && ValidSteps(id, Trace(es, s, kind))
      && t.rows[kind] == Run(Trace(es, s, kind), kind, s.rows[kind])
  {
    if es != [] {
      var front, e := es[..|es| - 1], es[|es| - 1];
      PlayRefinesSteps(id, front, s, kind);
      PlayKeepsValid(id, front, s);
      EventOnRow(Play(front, s), e, kind);
      if UpdatesRow(Play(front, s), e, kind) {
        assert Trace(es, s, kind) == Trace(front, s, kind) + [Play(front, s).calls[e.who].step];
        RunAppendStep(Trace(front, s, kind), Play(front, s).calls[e.who].step, kind, s.rows[kind]);
      } else {
        assert Trace(es, s, kind) == Trace(front, s, kind);
      }
    }
  }

  /** So the invariant of reachable schedules holds under every interleaving. */
  lemma PlayKeepsReachable(id: Identity, es: seq<Event>, s: State)
    requires ValidState(id, s) && ValidEvents(id, es) && ReachableRows(id, s.rows)
    ensures ReachableRows(id, Play(es, s).rows)
  {
    forall kind: TaskKind ensures Complete(Play(es, s).rows) && Reachable(id, kind, Play(es, s).rows[kind]) {
      PlayRefinesSteps(id, es, s, kind);
      RunKeepsReachable(id, Trace(es, s, kind), kind, s.rows[kind]);
    }
  }

  /** No call of the play resumes the operation, neither one already under way nor one begun later. */
  ghost predicate Unresumed(op: string, es: seq<Event>, s: State) {
    && (forall i :: 0 <= i < |es| && es[i].Begin? ==> es[i].step.action != Resume || es[i].step.operation != op)
    && (forall who :: InFlight(s, who) ==> s.calls[who].step.action != Resume || s.calls[who].step.operation != op)
  }

  lemma {:induction false} UnresumedCalls(op: string, es: seq<Event>, s: State, kind: TaskKind)
    requires Unresumed(op, es, s)
    ensures Unresumed(op, [], Play(es, s)) && NeverResumes(op, Trace(es, s, kind))
  {
    if es != [] {
      var front := es[..|es| - 1];
      assert Unresumed(op, front, s);
      UnresumedCalls(op, front, s, kind);
    }
  }

  /** Until its own operation resumes, a held schedule stays held, whatever any calls of anybody do meanwhile. */
  lemma HeldStaysHeld(id: Identity, op: string, es: seq<Event>, s: State, kind: TaskKind)
    requires ValidState(id, s) && ValidEvents(id, es) && Unresumed(op, es, s) && Holds(op, kind, s.rows)
    ensures var t := Play(es, s);
      && Holds(op, kind, t.rows) && t.rows[kind].paused
      && Advances(ReadPause(s.rows[kind]).record, ReadPause(t.rows[kind]).record)
  {
    PlayRefinesSteps(id, es, s, kind);
    UnresumedCalls(op, es, s, kind);
    RunRespectsOwner(id, op, Trace(es, s, kind), kind, s.rows[kind]);
  }
}
