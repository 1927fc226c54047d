/**
 * How single ownership is lost: one pause that slips in between the updates of another operation's broken
 * resume splits the three schedules.
 */
module InterleavedSplit {
  import opened Options
  import opened Schedules
  import opened ScheduleRuns
  import opened ControlCalls
  import opened ControlMachine
  import opened Interleavings
  import opened InterleavedOwnership

  // ----- A pause or resume that every schedule accepts, operation by operation -----

  ghost predicate AllAccept(step: Step, rows: Rows) {
    Complete(rows) && forall kind :: kind in rows ==> Accepted(step, kind, rows[kind])
  }

  /** The first n schedules updated. */
  function UpdatedFirst(step: Step, rows: Rows, n: nat): (updated: Rows)
    requires n <= 3 && Complete(rows)
    ensures Complete(updated)
  {
    map kind | kind in rows :: if Position(kind) < n then Apply(step, kind, rows[kind]) else rows[kind]
  }

  /** A call after its first n operations: three checks and three updates. */
  function Stage(step: Step, n: nat): Progress
    requires n <= 6
  {
    Progress(step, if n < 3 then Checking(n) else if n < 6 then Updating(n - 3) else Ended(true), false)
  }

  function RowsAt(step: Step, rows: Rows, n: nat): (after: Rows)
    requires n <= 6 && Complete(rows)
    ensures Complete(after)
  {
    UpdatedFirst(step, rows, if n < 3 then 0 else n - 3)
  }

  lemma NothingUpdated(step: Step, rows: Rows)
    requires Complete(rows)
    ensures UpdatedFirst(step, rows, 0) == rows
  {
  }

  lemma OneMoreUpdated(step: Step, rows: Rows, i: nat)
    requires i < 3 && Complete(rows)
    ensures UpdatedFirst(step, rows, i)[KindAt(i)] == rows[KindAt(i)]
    ensures UpdatedFirst(step, rows, i)[KindAt(i) := Apply(step, KindAt(i), rows[KindAt(i)])]
         == UpdatedFirst(step, rows, i + 1)
  {
  }

  lemma StageAdvances(step: Step, rows: Rows, n: nat)
    requires n < 6 && AllAccept(step, rows) && !IsMigration(step)
    ensures Advance(Stage(step, n), RowsAt(step, rows, n), true, true)
         == (Stage(step, n + 1), RowsAt(step, rows, n + 1))
  {
    if n < 3 {
      NothingUpdated(step, rows);
      assert Admits(step, KindAt(n), rows);
    } else {
      OneMoreUpdated(step, rows, n - 3);
    }
  }

  lemma Overwrite(calls: map<Caller, Progress>, who: Caller, p: Progress, q: Progress)
    ensures calls[who := p][who := q] == calls[who := q]
  {
  }

  lemma Operated(rows: Rows, calls: map<Caller, Progress>, who: Caller, p: Progress, up: bool, q: Progress, after: Rows)
    requires !p.phase.Ended? && Advance(p, rows, up, true) == (q, after)
    ensures Next(State(rows, calls[who := p]), Operate(who, up, true)) == State(after, calls[who := q])
  {
    Overwrite(calls, who, p, q);
  }

  lemma PlayOneMore(es: seq<Event>, e: Event, s: State, t: State)
    requires Play(es, s) == t
    ensures Play(es + [e], s) == Next(t, e)
  {
    assert (es + [e])[..|es + [e]| - 1] == es;
  }

  /** The beginning of a call and its first n operations. */
  function CallUpTo(who: Caller, step: Step, n: nat): seq<Event> {
    if n == 0 then [Begin(who, step)] else CallUpTo(who, step, n - 1) + [Operate(who, true, true)]
  }

  lemma CallGoesOn(es: seq<Event>, rows: Rows, calls: map<Caller, Progress>, who: Caller, step: Step, n: nat)
    requires n < 6 && AllAccept(step, rows) && !IsMigration(step)
    requires Play(es, State(rows, calls)) == State(RowsAt(step, rows, n), calls[who := Stage(step, n)])
    ensures Play(es + [Operate(who, true, true)], State(rows, calls))
         == State(RowsAt(step, rows, n + 1), calls[who := Stage(step, n + 1)])
  {
    var t := State(RowsAt(step, rows, n), calls[who := Stage(step, n)]);
    PlayOneMore(es, Operate(who, true, true), State(rows, calls), t);
    StageAdvances(step, rows, n);
    Operated(t.rows, calls, who, Stage(step, n), true, Stage(step, n + 1), RowsAt(step, rows, n + 1));
  }

  /** Nobody disturbs the call: each operation takes it one stage on. */
  lemma {:induction false} PlayCall(rows: Rows, calls: map<Caller, Progress>, who: Caller, step: Step, n: nat)
    requires n <= 6 && AllAccept(step, rows) && !IsMigration(step) && !InFlight(State(rows, calls), who)
    ensures Play(CallUpTo(who, step, n), State(rows, calls))
         == State(RowsAt(step, rows, n), calls[who := Stage(step, n)])
  {
    if n == 0 {
      PlayOneMore([], Begin(who, step), State(rows, calls), State(rows, calls));
      assert [] + [Begin(who, step)] == [Begin(who, step)];
      NothingUpdated(step, rows);
    } else {
      PlayCall(rows, calls, who, step, n - 1);
      CallGoesOn(CallUpTo(who, step, n - 1), rows, calls, who, step, n - 1);
    }
  }

  lemma PlayCallThen(rows: Rows, calls: map<Caller, Progress>, who: Caller, step: Step, n: nat, tail: seq<Event>)
    requires n <= 6 && AllAccept(step, rows) && !IsMigration(step) && !InFlight(State(rows, calls), who)
    ensures Play(CallUpTo(who, step, n) + tail, State(rows, calls))
         == Play(tail, State(RowsAt(step, rows, n), calls[who := Stage(step, n)]))
  {
    PlayCall(rows, calls, who, step, n);
    PlaySplit(CallUpTo(who, step, n), tail, State(rows, calls));
  }

  /** One update of a call past its checks: accepted, or the end of the call. */
  lemma UpdateOrEnd(rows: Rows, calls: map<Caller, Progress>, who: Caller, step: Step, n: nat, up: bool)
    requires 3 <= n < 6 && Complete(rows)
    ensures var kind := KindAt(n - 3);
      Next(State(rows, calls[who := Stage(step, n)]), Operate(who, up, true))
      == if up && Accepted(step, kind, rows[kind])
         then State(rows[kind := Apply(step, kind, rows[kind])], calls[who := Stage(step, n + 1)])
         else State(rows, calls[who := BrokenOff(step)])
  {
    var kind := KindAt(n - 3);
    if up && Accepted(step, kind, rows[kind]) {
      Operated(rows, calls, who, Stage(step, n), up, Stage(step, n + 1), rows[kind := Apply(step, kind, rows[kind])]);
    } else {
      Operated(rows, calls, who, Stage(step, n), up, BrokenOff(step), rows);
    }
  }

  // ----- One schedule through the cycle -----

  /** A free schedule that one operation may pause, so that any other may as well. */
  ghost predicate Ready(p: Process, a: string, kind: TaskKind, s: Schedule) {
    Reachable(p.identity, kind, s) && ReadPause(s).Absent? && Accepted(Step(p, Pause, a), kind, s)
  }

  ghost predicate AllReady(p: Process, a: string, rows: Rows) {
    Complete(rows) && forall kind :: kind in rows ==> Ready(p, a, kind, rows[kind])
  }

  /** A free schedule through one operation's pause and resume: who is admitted at each point. */
  lemma OneScheduleCycle(p: Process, a: string, b: string, kind: TaskKind, free: Schedule)
    requires ValidProcess(p) && SafeOperation(a) && SafeOperation(b) && a != b && Ready(p, a, kind, free)
    ensures var held := Apply(Step(p, Pause, a), kind, free);
      var released := Apply(Step(p, Resume, a), kind, held);
      && Accepted(Step(p, Pause, b), kind, free)
      && ReadPause(held).Present? && ReadPause(held).record.operation == a
      && Accepted(Step(p, Resume, a), kind, held) && !Accepted(Step(p, Pause, b), kind, held)
      && Accepted(Step(p, Pause, b), kind, released)
      && var taken := Apply(Step(p, Pause, b), kind, released);
         ReadPause(taken).Present? && ReadPause(taken).record.operation == b
  {
    UncontrolledAcceptance(p, a, kind, free);
    UncontrolledAcceptance(p, b, kind, free);
    StepKeepsReachable(p.identity, Step(p, Pause, a), kind, free);
    var held := Apply(Step(p, Pause, a), kind, free);
    ControlledAcceptance(p, a, kind, held);
    ControlledAcceptance(p, b, kind, held);
    StepKeepsReachable(p.identity, Step(p, Resume, a), kind, held);
    UncontrolledAcceptance(p, b, kind, Apply(Step(p, Resume, a), kind, held));
  }

  /** What every schedule accepts on the way: both pauses while free, the resume once paused. */
  lemma AllThrough(p: Process, a: string, b: string, rows: Rows)
    requires ValidProcess(p) && SafeOperation(a) && SafeOperation(b) && a != b && AllReady(p, a, rows)
    ensures AllAccept(Step(p, Pause, a), rows) && AllAccept(Step(p, Pause, b), rows)
    ensures AllAccept(Step(p, Resume, a), UpdatedFirst(Step(p, Pause, a), rows, 3))
  {
    forall kind | kind in rows
      ensures Accepted(Step(p, Pause, a), kind, rows[kind]) && Accepted(Step(p, Pause, b), kind, rows[kind])
      ensures Accepted(Step(p, Resume, a), kind, UpdatedFirst(Step(p, Pause, a), rows, 3)[kind])
    {
      OneScheduleCycle(p, a, b, kind, rows[kind]);
    }
  }

  // ----- The plays -----

  /** One call is checked; another operation pauses all schedules, resumes the first, and the tail is played. */
  function Overtaken(pause: Step, resume: Step, slip: Step, tail: seq<Event>): seq<Event> {
    CallUpTo(1, slip, 3) + (CallUpTo(0, pause, 6) + (CallUpTo(0, resume, 4) + tail))
  }

  /** The resume breaks off, and the checked call updates. */
  function Breaking(): seq<Event> {
    [Operate(0, false, true)] + [Operate(1, true, true)] + [Operate(1, true, true)]
  }

  /** The checked call updates one schedule before the resume updates the other two. */
  function Succeeding(): seq<Event> {
    [Operate(1, true, true)] + [Operate(0, true, true)] + [Operate(0, true, true)]
  }

  function BrokenOff(step: Step): Progress {
    Progress(step, Ended(false), false)
  }

  lemma PlayThree(a: Event, b: Event, c: Event, s: State)
    ensures Play([a] + [b] + [c], s) == Next(Next(Next(s, a), b), c)
  {
    assert [] + [a] == [a];
    PlayOneMore([], a, s, s);
    PlayOneMore([a], b, s, Next(s, a));
    PlayOneMore([a] + [b], c, s, Next(Next(s, a), b));
  }

  /** The second caller's call is past its checks. */
  function Waiting(slip: Step): map<Caller, Progress> {
    map[1 := Stage(slip, 3)]
  }

  /** Where the tail begins. */
  function Midway(rows: Rows, pause: Step, resume: Step, slip: Step): State
    requires Complete(rows)
  {
    State(UpdatedFirst(resume, UpdatedFirst(pause, rows, 3), 1), Waiting(slip)[0 := Stage(resume, 4)])
  }

  lemma PauseAndPart(rows: Rows, pause: Step, resume: Step, slip: Step, tail: seq<Event>)
    requires AllAccept(pause, rows) && AllAccept(resume, UpdatedFirst(pause, rows, 3))
    requires !IsMigration(pause) && !IsMigration(resume)
    ensures Play(CallUpTo(0, pause, 6) + (CallUpTo(0, resume, 4) + tail), State(rows, Waiting(slip)))
         == Play(tail, Midway(rows, pause, resume, slip))
  {
    var held := UpdatedFirst(pause, rows, 3);
    PlayCallThen(rows, Waiting(slip), 0, pause, 6, CallUpTo(0, resume, 4) + tail);
    PlayCallThen(held, Waiting(slip)[0 := Stage(pause, 6)], 0, resume, 4, tail);
    Overwrite(Waiting(slip), 0, Stage(pause, 6), Stage(resume, 4));
  }

  lemma PlayOvertaken(rows: Rows, pause: Step, resume: Step, slip: Step, tail: seq<Event>)
    requires AllAccept(pause, rows) && AllAccept(slip, rows) && AllAccept(resume, UpdatedFirst(pause, rows, 3))
    requires !IsMigration(pause) && !IsMigration(resume) && !IsMigration(slip)
    ensures Play(Overtaken(pause, resume, slip, tail), State(rows, map[]))
         == Play(tail, Midway(rows, pause, resume, slip))
  {
    NothingUpdated(slip, rows);
    PlayCallThen(rows, map[], 1, slip, 3, CallUpTo(0, pause, 6) + (CallUpTo(0, resume, 4) + tail));
    PauseAndPart(rows, pause, resume, slip, tail);
  }

  /** The resume breaks off; the other call takes the first schedule and is refused by the second. */
  lemma PlayBreaking(half: Rows, resume: Step, slip: Step)
    requires Complete(half) && Accepted(slip, Sla, half[Sla]) && !Accepted(slip, Effects, half[Effects])
    ensures Play(Breaking(), State(half, Waiting(slip)[0 := Stage(resume, 4)]))
         == State(half[Sla := Apply(slip, Sla, half[Sla])], map[0 := BrokenOff(resume), 1 := BrokenOff(slip)])
  {
    var broken: map<Caller, Progress> := map[0 := BrokenOff(resume)];
    var taken := half[Sla := Apply(slip, Sla, half[Sla])];
    assert Waiting(slip)[0 := BrokenOff(resume)] == broken[1 := Stage(slip, 3)];
    PlayThree(Operate(0, false, true), Operate(1, true, true), Operate(1, true, true),
              State(half, Waiting(slip)[0 := Stage(resume, 4)]));
    UpdateOrEnd(half, Waiting(slip), 0, resume, 4, false);
    UpdateOrEnd(half, broken, 1, slip, 3, true);
    UpdateOrEnd(taken, broken, 1, slip, 4, true);
  }

  /** The resume goes on to its end and never looks at the first schedule again. */
  lemma PlaySucceeding(held: Rows, half: Rows, resume: Step, slip: Step)
    requires AllAccept(resume, held) && !IsMigration(resume) && half == UpdatedFirst(resume, held, 1)
    requires Accepted(slip, Sla, half[Sla])
    ensures var t := Play(Succeeding(), State(half, Waiting(slip)[0 := Stage(resume, 4)]));
      && 0 in t.calls && t.calls[0] == Stage(resume, 6)
      && Sla in t.rows && t.rows[Sla] == Apply(slip, Sla, half[Sla])
  {
    var calls: map<Caller, Progress> := map[];
    var taken := half[Sla := Apply(slip, Sla, half[Sla])];
    var next := taken[Effects := Apply(resume, Effects, held[Effects])];
    PlayThree(Operate(1, true, true), Operate(0, true, true), Operate(0, true, true),
              State(half, Waiting(slip)[0 := Stage(resume, 4)]));
    assert Waiting(slip) == calls[1 := Stage(slip, 3)];
    Swap(calls, Stage(resume, 4), Stage(slip, 3));
    Swap(calls, Stage(resume, 4), Stage(slip, 4));
    UpdateOrEnd(half, calls[0 := Stage(resume, 4)], 1, slip, 3, true);
    assert taken[Effects] == held[Effects] && next[Notifications] == held[Notifications];
    UpdateOrEnd(taken, calls[1 := Stage(slip, 4)], 0, resume, 4, true);
    UpdateOrEnd(next, calls[1 := Stage(slip, 4)], 0, resume, 5, true);
  }

  lemma Swap(calls: map<Caller, Progress>, p: Progress, q: Progress)
    ensures calls[0 := p][1 := q] == calls[1 := q][0 := p]
  {
  }

  // ----- What they show -----

  /** The first schedule taken by b while the second is still held by a. */
  lemma TakenRows(p: Process, a: string, b: string, rows: Rows)
    requires ValidProcess(p) && SafeOperation(a) && SafeOperation(b) && a != b && AllReady(p, a, rows)
    ensures var pause := Step(p, Pause, b);
      var half := UpdatedFirst(Step(p, Resume, a), UpdatedFirst(Step(p, Pause, a), rows, 3), 1);
      && Accepted(pause, Sla, half[Sla]) && !Accepted(pause, Effects, half[Effects])
      && Split(half[Sla := Apply(pause, Sla, half[Sla])])
      && ReadPause(Apply(pause, Sla, half[Sla])).Present?
      && ReadPause(Apply(pause, Sla, half[Sla])).record.operation == b
  {
    OneScheduleCycle(p, a, b, Sla, rows[Sla]);
    OneScheduleCycle(p, a, b, Effects, rows[Effects]);
    var half := UpdatedFirst(Step(p, Resume, a), UpdatedFirst(Step(p, Pause, a), rows, 3), 1);
    var taken := half[Sla := Apply(Step(p, Pause, b), Sla, half[Sla])];
    assert taken[Effects] == Apply(Step(p, Pause, a), Effects, rows[Effects]);
    assert ReadPause(taken[Sla]).Present? && ReadPause(taken[Effects]).Present?;
  }

  lemma {:induction false} CallEvents(who: Caller, step: Step, n: nat)
    ensures forall e :: e in CallUpTo(who, step, n) && e.Begin? ==> e == Begin(who, step)
  {
    if n > 0 { CallEvents(who, step, n - 1); }
  }

  lemma OvertakenIsValid(id: Identity, pause: Step, resume: Step, slip: Step, tail: seq<Event>)
    requires ValidStep(id, pause) && ValidStep(id, resume) && ValidStep(id, slip)
    requires forall e :: e in tail ==> e.Operate?
    ensures ValidEvents(id, Overtaken(pause, resume, slip, tail))
  {
    CallEvents(1, slip, 3);
    CallEvents(0, pause, 6);
    CallEvents(0, resume, 4);
    forall e | e in Overtaken(pause, resume, slip, tail) && e.Begin? ensures ValidStep(id, e.step) {
      assert e in CallUpTo(1, slip, 3) || e in CallUpTo(0, pause, 6) || e in CallUpTo(0, resume, 4) + tail;
    }
  }

  lemma BothEnded(rows: Rows, first: Step, second: Step)
    ensures AtRest(State(rows, map[0 := BrokenOff(first), 1 := BrokenOff(second)]))
  {
  }

  lemma FreeHasOneOwner(p: Process, a: string, rows: Rows)
    requires AllReady(p, a, rows)
    ensures SingleOwner(rows)
  {
    forall kind | kind in rows ensures !ReadPause(rows[kind]).Present? { assert Ready(p, a, kind, rows[kind]); }
  }

  /**
   * Single ownership is not kept by the calls alone: a pause that passed its checks on free schedules updates
   * the first one after another operation's resume broke off behind it. From any free schedules, with any
   * two operations, the three end up split, at rest, and by SplitIsForever stuck.
   */
  lemma SlippedPauseSplits(p: Process, a: string, b: string, rows: Rows)
    requires ValidProcess(p) && SafeOperation(a) && SafeOperation(b) && a != b && AllReady(p, a, rows)
    ensures var s := State(rows, map[]);
      var es := Overtaken(Step(p, Pause, a), Step(p, Resume, a), Step(p, Pause, b), Breaking());
      && ValidState(p.identity, s) && AtRest(s) && SingleOwner(s.rows) && ValidEvents(p.identity, es)
      && AtRest(Play(es, s)) && Split(Play(es, s).rows)
  {
    var pause, resume, slip := Step(p, Pause, a), Step(p, Resume, a), Step(p, Pause, b);
    OvertakenIsValid(p.identity, pause, resume, slip, Breaking());
    FreeHasOneOwner(p, a, rows);
    AllThrough(p, a, b, rows);
    TakenRows(p, a, b, rows);
    PlayOvertaken(rows, pause, resume, slip, Breaking());
    var half := Midway(rows, pause, resume, slip).rows;
    PlayBreaking(half, resume, slip);
    BothEnded(half[Sla := Apply(slip, Sla, half[Sla])], resume, slip);
  }

  /** In the same way a resume can report success while another operation holds the first schedule again. */
  lemma SuccessfulResumeLeavesHeld(p: Process, a: string, b: string, rows: Rows)
    requires ValidProcess(p) && SafeOperation(a) && SafeOperation(b) && a != b && AllReady(p, a, rows)
    ensures var resume := Step(p, Resume, a);
      var t := Play(Overtaken(Step(p, Pause, a), resume, Step(p, Pause, b), Succeeding()), State(rows, map[]));
      0 in t.calls && t.calls[0] == Progress(resume, Ended(true), false) && Holds(b, Sla, t.rows)
  {
    var pause, resume, slip := Step(p, Pause, a), Step(p, Resume, a), Step(p, Pause, b);
    AllThrough(p, a, b, rows);
    TakenRows(p, a, b, rows);
    PlayOvertaken(rows, pause, resume, slip, Succeeding());
    PlaySucceeding(UpdatedFirst(pause, rows, 3), Midway(rows, pause, resume, slip).rows, resume, slip);
  }
}
