/**
 * One control call as the sequence of remote operations it really is: other processes may update any
 * schedule between any two of them. The runtime makes its calls through this machine.
 */
module ControlMachine {
  import opened Options
  import opened Schedules
  import opened ScheduleRuns
  import opened ControlCalls
  import Admission

  // ----- One call, operation by operation -----

  /** A position in the fixed order of the schedules. */
  type Slot = i: nat | i < 3

  /** What a call does next: check a schedule, check that it is held, wait for the drain, update a schedule. */
  datatype Phase = Checking(i: Slot) | Holding(i: Slot) | Draining | Updating(i: Slot) | Ended(ok: bool)

  /** `controlled` remembers whether a migration has seen a stored record. */
  datatype Progress = Progress(step: Step, phase: Phase, controlled: bool)

  function Started(step: Step): Progress {
    Progress(step, Checking(0), false)
  }

  function AfterCheck(p: Progress, i: Slot, present: bool): Progress {
    var controlled := IsMigration(p.step) && (p.controlled || present);
    if i < 2 then p.(phase := Checking(i + 1), controlled := controlled)
    else if !IsMigration(p.step) then p.(phase := Updating(0))
    else if !controlled then p.(phase := Ended(true))
    else p.(phase := Holding(0), controlled := true)
  }

  function AfterUpdate(p: Progress, i: Slot): Progress {
    p.(phase := if i < 2 then Updating(i + 1) else Ended(true))
  }

  /** One remote operation. It fails when the service is down, and ends the call when its check fails. */
  function Advance(p: Progress, rows: Rows, up: bool, drained: bool): (Progress, Rows) {
    match p.phase
    case Checking(i) =>
      if up && Admits(p.step, KindAt(i), rows)
      then (AfterCheck(p, i, ReadPause(rows[KindAt(i)]).Present?), rows)
      else (p.(phase := Ended(false)), rows)
    case Holding(i) =>
      if up && Holds(p.step.operation, KindAt(i), rows)
      then (p.(phase := if i < 2 then Holding(i + 1) else Draining), rows)
      else (p.(phase := Ended(false)), rows)
    case Draining => (p.(phase := if drained then Updating(0) else Ended(false)), rows)
    case Updating(i) =>
      if up && KindAt(i) in rows && Try(p.step, KindAt(i), rows[KindAt(i)]).Some?
      then (AfterUpdate(p, i), rows[KindAt(i) := Apply(p.step, KindAt(i), rows[KindAt(i)])])
      else (p.(phase := Ended(false)), rows)
    case Ended(_) => (p, rows)
  }

  function Remaining(phase: Phase): nat {
    match phase
    case Checking(i) => 10 - i
    case Holding(i) => 7 - i
    case Draining => 4
    case Updating(i) => 3 - i
    case Ended(_) => 0
  }

  /** An update of one schedule by somebody else. */
  datatype Foreign = Foreign(kind: TaskKind, step: Step)

  function Disturbed(rows: Rows, updates: seq<Foreign>): Rows {
    if updates == [] then rows
    else
      var before, f := Disturbed(rows, updates[..|updates| - 1]), updates[|updates| - 1];
      if f.kind in before then before[f.kind := Apply(f.step, f.kind, before[f.kind])] else before
  }

  /** What others do before the n-th operation of a call. */
  function At(others: seq<seq<Foreign>>, n: nat): seq<Foreign> {
    if n < |others| then others[n] else []
  }

  /** The rest of a call from its n-th operation on, with `left` service calls before an outage. */
  function Drive(p: Progress, rows: Rows, n: nat, left: nat, others: seq<seq<Foreign>>, drained: bool): Outcome
    decreases Remaining(p.phase)
  {
    if p.phase.Ended? then Outcome(rows, p.phase.ok)
    else
      var (q, after) := Advance(p, Disturbed(rows, At(others, n)), left > 0, drained);
      Drive(q, after, n + 1, if left > 0 && !p.phase.Draining? then left - 1 else left, others, drained)
  }

  // ----- The runtime that makes the calls -----

  class ScheduleService {
    var rows: Rows

    constructor (rows: Rows)
      ensures this.rows == rows
    {
      this.rows := rows;
    }

    /** Other processes get in between two operations. */
    method Interfere(updates: seq<Foreign>)
      modifies this
      ensures rows == Disturbed(old(rows), updates)
    {
      var i := 0;
      assert updates[..0] == [];
      while i < |updates|
        invariant i <= |updates| && rows == Disturbed(old(rows), updates[..i])
      {
        assert updates[..i + 1][..i] == updates[..i];
        if updates[i].kind in rows {
          rows := rows[updates[i].kind := Apply(updates[i].step, updates[i].kind, rows[updates[i].kind])];
        }
        i := i + 1;
      }
      assert updates[..i] == updates;
    }
  }

  /** Where a call stands once its preflight passed. */
  function Checked(step: Step, controlled: bool): Progress {
    if !IsMigration(step) then Progress(step, Updating(0), false)
    else if controlled then Progress(step, Holding(0), true)
    else Progress(step, Ended(true), false)
  }

  datatype Request = Inspect | Verify | Drain | Perform(action: Action)

  /** What the last look at the schedules and leases answers: whether it succeeded, and what it saw. */
  datatype Inspection = Inspection(ok: bool, leases: int, verified: bool)

  predicate RequestOk(request: Request, operation: string) {
    SafeOperation(operation) || (request.Inspect? && operation == "")
  }

  class Runtime {
    const process: Process
    const service: ScheduleService
    const gate: Admission.Gatekeeper

    constructor (process: Process, service: ScheduleService, gate: Admission.Gatekeeper)
      ensures this.process == process && this.service == service && this.gate == gate
    {
      this.process := process;
      this.service := service;
      this.gate := gate;
    }

    /** Create missing schedules paused, leave every existing one as it is, then check all of them. */
    method Reconcile() returns (ok: bool)
      modifies service
      ensures forall kind :: kind in old(service.rows) ==>
                kind in service.rows && service.rows[kind] == old(service.rows[kind])
      ensures forall kind :: kind in service.rows && kind !in old(service.rows) ==>
                service.rows[kind] == Created(process, kind)
      ensures ok <==> forall kind :: kind in old(service.rows) ==> ObservedOk(process, kind, service.rows[kind])
      ensures ok ==> Complete(service.rows)
    {
      ok := true;
      var i := 0;
      while i < 3
        invariant 0 <= i <= 3
        invariant forall kind :: kind in old(service.rows) ==>
                    kind in service.rows && service.rows[kind] == old(service.rows[kind])
        invariant forall kind :: kind in service.rows && kind !in old(service.rows) ==>
                    service.rows[kind] == Created(process, kind)
        invariant forall kind: TaskKind :: Position(kind) < i ==>
                    kind in service.rows && ObservedOk(process, kind, service.rows[kind])
      {
        var kind := KindAt(i);
        if kind !in service.rows {
          service.rows := service.rows[kind := Created(process, kind)];
        }
        if !ObservedOk(process, kind, service.rows[kind]) {
          assert KindAt(i) in old(service.rows);
          return false;
        }
        i := i + 1;
      }
    }

    /** The preflight of every call: each schedule is read by itself, before anything is changed. */
    method CheckAll(step: Step, calls: nat, others: seq<seq<Foreign>>, ghost drained: bool)
      returns (ok: bool, controlled: bool, left: nat)
      modifies service
      ensures var whole := Drive(Started(step), old(service.rows), 0, calls, others, drained);
              whole == if !ok then Outcome(service.rows, false)
                       else Drive(Checked(step, controlled), service.rows, 3, left, others, drained)
    {
      left, controlled := calls, false;
      var i := 0;
      while i < 3
        invariant 0 <= i <= 3 && (controlled ==> IsMigration(step))
        invariant Drive(Started(step), old(service.rows), 0, calls, others, drained)
               == Drive(if i < 3 then Progress(step, Checking(i), controlled) else Checked(step, controlled),
                        service.rows, i, left, others, drained)
      {
        service.Interfere(At(others, i));
        if left == 0 || !Admits(step, KindAt(i), service.rows) {
          return false, controlled, left;
        }
        controlled := IsMigration(step) && (controlled || ReadPause(service.rows[KindAt(i)]).Present?);
        left := left - 1;
        i := i + 1;
      }
      ok := true;
    }

    /** Updates the schedules one by one; each update re-validates the schedule it finds. */
    method UpdateAll(step: Step, controlled: bool, n: nat, calls: nat, others: seq<seq<Foreign>>, ghost drained: bool)
      returns (ok: bool)
      modifies service
      ensures Drive(Progress(step, Updating(0), controlled), old(service.rows), n, calls, others, drained)
           == Outcome(service.rows, ok)
    {
      var left := calls;
      var i := 0;
      while i < 3
        invariant 0 <= i <= 3
        invariant Drive(Progress(step, Updating(0), controlled), old(service.rows), n, calls, others, drained)
               == Drive(Progress(step, if i < 3 then Updating(i) else Ended(true), controlled),
                        service.rows, n + i, left, others, drained)
      {
        service.Interfere(At(others, n + i));
        if left == 0 || KindAt(i) !in service.rows {
          return false;
        }
        match Try(step, KindAt(i), service.rows[KindAt(i)]) {
          case None => return false;
          case Some(t) => service.rows := service.rows[KindAt(i) := t];
        }
        left := left - 1;
        i := i + 1;
      }
      ok := true;
    }

    method ChangePause(operation: string, pause: bool, calls: nat, others: seq<seq<Foreign>>) returns (ok: bool)
      modifies service
      ensures var step := Step(process, if pause then Pause else Resume, operation);
              Outcome(service.rows, ok) == Drive(Started(step), old(service.rows), 0, calls, others, true)
    {
      var step := Step(process, if pause then Pause else Resume, operation);
      var controlled, left;
      ok, controlled, left := CheckAll(step, calls, others, true);
      if !ok {
        return;
      }
      ok := UpdateAll(step, false, 3, left, others, true);
    }

    /** Every schedule must be held by the operation before a migration touches one. */
    method HoldAll(step: Step, calls: nat, others: seq<seq<Foreign>>, ghost drained: bool)
      returns (ok: bool, left: nat)
      modifies service
      ensures var whole := Drive(Progress(step, Holding(0), true), old(service.rows), 3, calls, others, drained);
              whole == if !ok then Outcome(service.rows, false)
                       else Drive(Progress(step, Draining, true), service.rows, 6, left, others, drained)
    {
      left := calls;
      var i := 0;
      while i < 3
        invariant 0 <= i <= 3
        invariant Drive(Progress(step, Holding(0), true), old(service.rows), 3, calls, others, drained)
               == Drive(Progress(step, if i < 3 then Holding(i) else Draining, true),
                        service.rows, 3 + i, left, others, drained)
      {
        service.Interfere(At(others, 3 + i));
        if left == 0 || !Holds(step.operation, KindAt(i), service.rows) {
          return false, left;
        }
        left := left - 1;
        i := i + 1;
      }
      ok := true;
    }

    method MigrateSchedules(operation: string, restore: bool, calls: nat, others: seq<seq<Foreign>>, drained: bool)
      returns (ok: bool)
      modifies service
      ensures var step := Step(process, if restore then Restore else Ensure, operation);
              Outcome(service.rows, ok) == Drive(Started(step), old(service.rows), 0, calls, others, drained)
    {
      var step := Step(process, if restore then Restore else Ensure, operation);
      var controlled, left;
      ok, controlled, left := CheckAll(step, calls, others, drained);
      if !ok || !controlled {
        return;
      }
      ok, left := HoldAll(step, left, others, drained);
      if !ok {
        return;
      }
      service.Interfere(At(others, 6));
      if !drained {
        return false;
      }
      ok := UpdateAll(step, true, 7, left, others, drained);
    }

    /** The durable part of an action, or nothing for a resume that is not routed. */
    method Execute(action: Action, operation: string, calls: nat, others: seq<seq<Foreign>>,
                   drained: bool, routed: bool)
      returns (ok: bool)
      modifies service
      ensures var o := Performed(process, action, operation, old(service.rows), calls, others, drained, routed);
              service.rows == o.rows && ok == o.ok
    {
      match action {
        case Pause =>
          ok := ChangePause(operation, true, calls, others);
        case Ensure =>
          ok := MigrateSchedules(operation, false, calls, others, drained);
          ok := ok && routed;
        case Restore =>
          ok := MigrateSchedules(operation, true, calls, others, drained);
          ok := ok && routed;
        case Resume =>
          ok := false;
          if routed {
            ok := ChangePause(operation, false, calls, others);
          }
      }
    }

    /**
     * One control request. Pausing and draining block this process before anything else; only a resume whose
     * three updates all succeeded unblocks it, whatever the inspection says afterwards. A drain is reported
     * only when its evidence settled and the last look finds neither a lease nor an activity.
     */
    method Control(request: Request, operation: string, calls: nat, others: seq<seq<Foreign>>, drained: bool,
                   routed: bool, inspection: Inspection)
      returns (ok: bool)
      modifies service, gate
      ensures !RequestOk(request, operation) ==>
                !ok && service.rows == old(service.rows) && gate.View() == old(gate.View())
      ensures RequestOk(request, operation) ==>
                var o := Durable(process, request, operation, old(service.rows), calls, others, drained, routed);
                && service.rows == o.rows
                && gate.View() == old(gate.View()).(blocked := BlockedAfter(request, o.ok, old(gate.blocked)))
                && (ok <==> o.ok && inspection.ok && (request.Verify? ==> inspection.verified)
                            && (request.Drain? ==> drained && inspection.leases == 0 && gate.active == 0))
      ensures gate.active == old(gate.active) && gate.legacyOperation == old(gate.legacyOperation)
      ensures RequestOk(request, operation) && (request == Drain || request == Perform(Pause)) ==>
                gate.blocked && forall paused :: Admission.Enter(gate.View(), paused) == gate.View()
      ensures RequestOk(request, operation) && request == Perform(Resume) ==>
                var through := routed && Drive(Started(Step(process, Resume, operation)), old(service.rows), 0,
                                               calls, others, true).ok;
                && gate.blocked == (old(gate.blocked) && !through)
                && (through ==> Admission.Enter(gate.View(), false) == gate.View().(active := gate.active + 1))
      ensures !RequestOk(request, operation) || request !in {Drain, Perform(Pause), Perform(Resume)} ==>
                gate.blocked == old(gate.blocked)
      ensures request.Inspect? || request.Verify? || (request == Perform(Resume) && !routed) ==>
                service.rows == old(service.rows)
      ensures ok && request.Perform? && request.action != Pause ==> routed
      ensures ok && request == Perform(Resume) ==> !gate.blocked
    {
      if !RequestOk(request, operation) {
        return false;
      }
      ok := true;
      if request.Drain? || request == Perform(Pause) {
        gate.SetBlocked(true);
        ok := Execute(Pause, operation, calls, others, drained, routed);
      } else if request.Perform? {
        ok := Execute(request.action, operation, calls, others, drained, routed);
        if request.action.Resume? && ok {
          gate.SetBlocked(false);
        }
      }
      if request.Drain? {
        ok := ok && drained;
      }
      ok := ok && inspection.ok;
      if request.Drain? && (inspection.leases != 0 || gate.active != 0) {
        ok := false;
      }
      if request.Verify? && !inspection.verified {
        ok := false;
      }
    }
  }

  function Performed(process: Process, action: Action, operation: string, rows: Rows, calls: nat,
                     others: seq<seq<Foreign>>, drained: bool, routed: bool): Outcome
  {
    if action.Resume? && !routed then Outcome(rows, false)
    else
      var settled := drained || !IsMigrationAction(action);
      var o := Drive(Started(Step(process, action, operation)), rows, 0, calls, others, settled);
      if IsMigrationAction(action) then o.(ok := o.ok && routed) else o
  }

  predicate IsMigrationAction(action: Action) {
    action.Ensure? || action.Restore?
  }

  /** The schedules after a request, and whether its durable part succeeded; inspecting changes nothing. */
  function Durable(process: Process, request: Request, operation: string, rows: Rows, calls: nat,
                   others: seq<seq<Foreign>>, drained: bool, routed: bool): Outcome
  {
    match request
    case Inspect => Outcome(rows, true)
    case Verify => Outcome(rows, true)
    case Drain => Performed(process, Pause, operation, rows, calls, others, drained, routed)
    case Perform(action) => Performed(process, action, operation, rows, calls, others, drained, routed)
  }

  /** What a request does to the schedules, and whether that succeeded, request by request. */
  lemma DurableEffects(process: Process, request: Request, op: string, rows: Rows, calls: nat,
                       others: seq<seq<Foreign>>, drained: bool, routed: bool)
    ensures var o := Durable(process, request, op, rows, calls, others, drained, routed);
      var begun := (action, settled) => Drive(Started(Step(process, action, op)), rows, 0, calls, others, settled);
      match request
      case Inspect => o == Outcome(rows, true)
      case Verify => o == Outcome(rows, true)
      case Drain => o == begun(Pause, true)
      case Perform(action) =>
        match action
        case Pause => o == begun(Pause, true)
        case Resume => o == if routed then begun(Resume, true) else Outcome(rows, false)
        case Ensure => o == Outcome(begun(Ensure, drained).rows, begun(Ensure, drained).ok && routed)
        case Restore => o == Outcome(begun(Restore, drained).rows, begun(Restore, drained).ok && routed)
  {
  }

  /** Only an inspection may come without an operation. */
  lemma RequestOkIff(request: Request, operation: string)
    ensures RequestOk(request, operation) <==>
      (operation == "" && request == Inspect) || (operation != "" && SafeOperation(operation))
  {
  }

  predicate BlockedAfter(request: Request, ok: bool, before: bool) {
    if request.Drain? || request == Perform(Pause) then true
    else if request == Perform(Resume) && ok then false
    else before
  }

  // ----- What others do in between -----

  /** The updates of one schedule among those of all. */
  function UpdatesOf(kind: TaskKind, updates: seq<Foreign>): seq<Step> {
    if updates == [] then []
    else
      var last := updates[|updates| - 1];
      UpdatesOf(kind, updates[..|updates| - 1]) + if last.kind == kind then [last.step] else []
  }

  lemma {:induction false} RunOneMore(steps: seq<Step>, step: Step, kind: TaskKind, s: Schedule)
    ensures Run(steps + [step], kind, s) == Apply(step, kind, Run(steps, kind, s))
  {
    if steps == [] {
      assert [step][1..] == [];
    } else {
      assert (steps + [step])[1..] == steps[1..] + [step];
      RunOneMore(steps[1..], step, kind, Apply(steps[0], kind, s));
    }
  }

  /** What others do in between is, on each schedule, the run of their updates of it, and creates or removes none. */
  lemma {:induction false} DisturbedIsRun(rows: Rows, updates: seq<Foreign>)
    ensures Disturbed(rows, updates).Keys == rows.Keys
    ensures forall kind :: kind in rows ==>
      Disturbed(rows, updates)[kind] == Run(UpdatesOf(kind, updates), kind, rows[kind])
  {
    if updates != [] {
      var front, last := updates[..|updates| - 1], updates[|updates| - 1];
      DisturbedIsRun(rows, front);
      if last.kind in rows { RunOneMore(UpdatesOf(last.kind, front), last.step, last.kind, rows[last.kind]); }
      forall kind | kind in rows
        ensures Disturbed(rows, updates)[kind] == Run(UpdatesOf(kind, updates), kind, rows[kind])
      {
        assert UpdatesOf(kind, front) + [] == UpdatesOf(kind, front);
      }
    }
  }

  /** What others do before an operation of a call comes before it: the call sees its result. */
  lemma ForeignFirst(p: Progress, rows: Rows, n: nat, left: nat, others: seq<seq<Foreign>>, drained: bool)
    requires n < |others| && !p.phase.Ended?
    ensures Drive(p, rows, n, left, others, drained)
         == var (q, after) := Advance(p, Disturbed(rows, others[n]), left > 0, drained);
            Drive(q, after, n + 1, left - if p.phase.Draining? || left == 0 then 0 else 1, others, drained)
  {
  }

  /** Behind the last of them nobody gets in between any more. */
  lemma {:induction false} NoMoreOthers(p: Progress, rows: Rows, n: nat, left: nat, others: seq<seq<Foreign>>,
                                        drained: bool)
    requires n >= |others|
    ensures Drive(p, rows, n, left, others, drained) == Drive(p, rows, 0, left, [], drained)
    decreases Remaining(p.phase)
  {
    if !p.phase.Ended? {
      var (q, after) := Advance(p, rows, left > 0, drained);
      var rest := if left > 0 && !p.phase.Draining? then left - 1 else left;
      assert Disturbed(rows, []) == rows;
      NoMoreOthers(q, after, n + 1, rest, others, drained);
      NoMoreOthers(q, after, 1, rest, [], drained);
    }
  }
}
