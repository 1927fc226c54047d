/**
 * Admission of activities into one background process, interleaved with its
 * control calls. Every constructor of Event is one region the process runs
 * under its mutex (or one remote read); events of different activities and of
 * the single control call in progress interleave freely.
 */
module Admission {
  /** The fields of the runtime that its mutex protects. */
  datatype Gate = Gate(blocked: bool, active: nat, legacyOperation: string)

  function Enter(g: Gate, observedPaused: bool): (g': Gate)
    ensures g'.active == g.active <==> g.blocked || observedPaused
  {
    if g.blocked || observedPaused then g else g.(active := g.active + 1)
  }

  /** The mutex-protected fields and the regions that change them. */
  class Gatekeeper {
    var blocked: bool
    var active: nat
    var legacyOperation: string

    ghost function View(): Gate
      reads this
    {
      Gate(blocked, active, legacyOperation)
    }

    constructor ()
      ensures View() == Gate(false, 0, "")
    {
      blocked, active, legacyOperation := false, 0, "";
    }

    /** The admission check of an activity; a legacy tick passes no observed pause. */
    method TryEnter(observedPaused: bool) returns (admitted: bool)
      modifies this
      ensures View() == Enter(old(View()), observedPaused)
      ensures admitted <==> !old(blocked) && !observedPaused
      ensures active == old(active) + (if admitted then 1 else 0)
      ensures blocked == old(blocked) && legacyOperation == old(legacyOperation)
    {
      if blocked || observedPaused {
        return false;
      }
      active := active + 1;
      admitted := true;
    }

    method Leave()
      requires active > 0
      modifies this
      ensures View() == old(View()).(active := old(active) - 1)
    {
      active := active - 1;
    }

    method SetBlocked(value: bool)
      modifies this
      ensures View() == old(View()).(blocked := value)
    {
      blocked := value;
    }

    /** The legacy engine's ownership check and its immediate pause or resume. */
    method ControlLegacy(pause: bool, operation: string) returns (ok: bool)
      modifies this
      ensures ok <==> old(legacyOperation) == "" || old(legacyOperation) == operation
      ensures View() == if !ok then old(View())
                        else old(View()).(blocked := pause, legacyOperation := if pause then operation else "")
    {
      if legacyOperation != "" && legacyOperation != operation {
        return false;
      }
      blocked := pause;
      legacyOperation := if pause then operation else "";
      ok := true;
    }

    /**
     * A legacy tick: admit, run and finish one piece of work at a time. Between two of them control calls may
     * block or unblock the process: `blocks(i)` is what they have set by the i-th admission. `open(i)` says that
     * budget and context are not used up by then, `work(i)` is the number processed by the i-th run, negative for
     * an error. The tick leaves no activity counted, and stops for one of five reasons.
     */
    method LegacyTick(maxItems: nat, once: bool, work: nat -> int, open: nat -> bool, blocks: nat -> bool)
      returns (runs: nat)
      modifies this
      ensures active == old(active) && legacyOperation == old(legacyOperation)
      ensures runs <= maxItems
      ensures forall i :: 0 <= i < runs ==> open(i) && !blocks(i)
      ensures forall i :: 0 <= i < runs - 1 ==> GoesOn(once, work(i))
      ensures runs == maxItems || !open(runs) || blocks(runs) || (runs > 0 && !GoesOn(once, work(runs - 1)))
    {
      runs := 0;
      while runs < maxItems && open(runs)
        invariant runs <= maxItems && active == old(active) && legacyOperation == old(legacyOperation)
        invariant forall i :: 0 <= i < runs ==> open(i) && !blocks(i) && GoesOn(once, work(i))
      {
        SetBlocked(blocks(runs));
        var admitted := TryEnter(false);
        if !admitted {
          return;
        }
        var processed := work(runs);
        Leave();
        assert forall i :: 0 <= i < runs ==> GoesOn(once, work(i));
        runs := runs + 1;
        if !GoesOn(once, processed) {
          return;
        }
      }
    }
  }

  /** A tick goes on after work was done, unless its kind runs once per tick. */
  predicate GoesOn(once: bool, processed: int) {
    !once && processed > 0
  }

  // ----- Interleaving with control calls -----

  type ActivityId = nat

  /** Where the one control call in progress is; the control mutex admits no second one. */
  datatype Control = Idle | Pausing(drain: bool) | Draining | Confirming | Resuming | Migrating

  /**
   * `described` holds the pause flag each not yet admitted activity has read; `legacy` is the engine the process
   * was started with, whose pauses and resumes carry an operation instead of touching schedules.
   */
  datatype State = State(
    legacy: bool, gate: Gate, described: map<ActivityId, bool>, running: set<ActivityId>, control: Control,
    drained: bool)

  datatype Event =
    | Describe(id: ActivityId, paused: bool)
    | Admit(id: ActivityId)
    | AdmitLegacy(id: ActivityId)
    | Finish(id: ActivityId)
    | BeginPause(drain: bool)
    | PauseDone(ok: bool)
    | DrainPoll(settled: bool, leases: nat)
    | DrainDeadline
    | Confirm(inspected: bool, leases: nat)
    | BeginResume
    | ResumeDone(ok: bool)
    | BeginMigrate
    | MigrateDone
    | LegacyPause(operation: string, drain: bool)
    | LegacyResume(operation: string)
    | Stop

  /** The operation another legacy pause belongs to keeps this one out. */
  predicate Conflict(s: State, operation: string) {
    s.gate.legacyOperation != "" && s.gate.legacyOperation != operation
  }

  function Next(s: State, e: Event): State {
    match e
    case Describe(a, paused) =>
      if a in s.described || a in s.running then s else s.(described := s.described[a := paused])
    case Admit(a) =>
      if a !in s.described || a in s.running then s
      else s.(gate := Enter(s.gate, s.described[a]), described := s.described - {a},
              running := if s.gate.blocked || s.described[a] then s.running else s.running + {a})
    case AdmitLegacy(a) =>
      if a in s.running then s
      else s.(gate := Enter(s.gate, false), running := if s.gate.blocked then s.running else s.running + {a})
    case Finish(a) =>
      if a in s.running && s.gate.active > 0
      then s.(gate := s.gate.(active := s.gate.active - 1), running := s.running - {a}) else s
    case BeginPause(d) =>
      if s.control.Idle? && !s.legacy then s.(gate := s.gate.(blocked := true), control := Pausing(d)) else s
    case PauseDone(ok) =>
      if s.control.Pausing? then s.(control := if ok && s.control.drain then Draining else Idle) else s
    case DrainPoll(settled, leases) =>
      if s.control.Draining? && (settled || s.legacy) && leases == 0 && s.gate.active == 0
      then s.(control := Confirming) else s
    case DrainDeadline => if s.control.Draining? then s.(control := Idle) else s
    case Confirm(inspected, leases) =>
      if s.control.Confirming?
      then s.(control := Idle, drained := s.drained || (inspected && leases == 0 && s.gate.active == 0)) else s
    case BeginResume => if s.control.Idle? && !s.legacy then s.(control := Resuming) else s
    case ResumeDone(ok) =>
      if !s.control.Resuming? then s
      else if ok then s.(gate := s.gate.(blocked := false), control := Idle, drained := false)
      else s.(control := Idle)
    case BeginMigrate => if s.control.Idle? && !s.legacy then s.(control := Migrating) else s
    case MigrateDone => if s.control.Migrating? then s.(control := Idle) else s
    case LegacyPause(op, drain) =>
      if s.control.Idle? && s.legacy && !Conflict(s, op)
      then s.(gate := s.gate.(blocked := true, legacyOperation := op), control := if drain then Draining else Idle)
      else s
    case LegacyResume(op) =>
      if s.control.Idle? && s.legacy && !Conflict(s, op)
      then s.(gate := s.gate.(blocked := false, legacyOperation := ""), drained := false) else s
    case Stop => s.(gate := s.gate.(blocked := true))
  }

  function Run(es: seq<Event>, s: State): State {
    if es == [] then s else Run(es[1..], Next(s, es[0]))
  }

  function Initial(legacy: bool): State {
    State(legacy, Gate(false, 0, ""), map[], {}, Idle, false)
  }

  /** Counts agree with what runs; a drain in its last phase, and a reported drain, are blocked and empty. */
  ghost predicate Inv(s: State) {
    && s.gate.active == |s.running|
    && (s.control.Pausing? || s.control.Draining? || s.control.Confirming? || s.drained ==> s.gate.blocked)
    && (s.control.Confirming? || s.drained ==> s.gate.active == 0)
    && (s.gate.legacyOperation != "" ==> s.legacy && s.gate.blocked)
    && (s.legacy ==> !s.control.Resuming?)
  }

  lemma ActivitiesKeepInv(s: State, e: Event)
    requires Inv(s) && (e.Describe? || e.Admit? || e.AdmitLegacy? || e.Finish?)
    ensures Inv(Next(s, e))
  {
    if e.Finish? && e.id in s.running { assert |s.running - {e.id}| == |s.running| - 1; }
  }

  lemma NextKeepsInv(s: State, e: Event)
    requires Inv(s)
    ensures Inv(Next(s, e))
  {
    match e {
      case Finish(_) => ActivitiesKeepInv(s, e);
      case Describe(_, _) => ActivitiesKeepInv(s, e);
      case Admit(_) => ActivitiesKeepInv(s, e);
      case AdmitLegacy(_) => ActivitiesKeepInv(s, e);
      case BeginPause(_) =>
      case PauseDone(_) =>
      case DrainPoll(_, _) =>
      case DrainDeadline =>
      case Confirm(_, _) =>
      case BeginResume =>
      case ResumeDone(_) =>
      case BeginMigrate =>
      case MigrateDone =>
      case LegacyPause(_, _) =>
      case LegacyResume(_) =>
      case Stop =>
    }
  }

  lemma {:induction false} RunKeepsInv(es: seq<Event>, s: State)
    requires Inv(s)
    ensures Inv(Run(es, s))
  {
    if es != [] {
      NextKeepsInv(s, es[0]);
      RunKeepsInv(es[1..], Next(s, es[0]));
    }
  }

  ghost predicate NoResume(es: seq<Event>) {
    forall i :: 0 <= i < |es| ==> es[i] != ResumeDone(true) && !es[i].LegacyResume?
  }

  lemma {:induction false} DrainedStays(es: seq<Event>, s: State)
    requires Inv(s) && s.drained && NoResume(es)
    ensures var t := Run(es, s); t.drained && t.gate.blocked && t.running == {}
  {
    if es == [] {
      assert |s.running| == 0;
    } else {
      NextKeepsInv(s, es[0]);
      DrainedStays(es[1..], Next(s, es[0]));
    }
  }

  /**
   * Drain is stable: whatever interleaving led to a successful drain, from then on and until this
   * process completes a resume, no activity runs in it and none is admitted, not even one that read
   * an unpaused schedule before the pause.
   */
  lemma DrainIsStable(legacy: bool, before: seq<Event>, after: seq<Event>, id: ActivityId)
    requires Run(before, Initial(legacy)).drained && NoResume(after)
    ensures var t := Run(after, Run(before, Initial(legacy)));
            && t.running == {} && t.gate.active == 0
            && Next(t, Admit(id)).running == {} && Next(t, AdmitLegacy(id)).running == {}
  {
    RunKeepsInv(before, Initial(legacy));
    var s := Run(before, Initial(legacy));
    DrainedStays(after, s);
    RunKeepsInv(after, s);
  }

  /** The final inspection of a drain never finds local work: only leases can still refuse it. */
  lemma ConfirmationOnlyFailsOnEvidence(legacy: bool, es: seq<Event>, inspected: bool, leases: nat)
    requires Run(es, Initial(legacy)).control == Confirming
    ensures var s := Run(es, Initial(legacy));
            Next(s, Confirm(inspected, leases)).drained <==> s.drained || (inspected && leases == 0)
  {
    RunKeepsInv(es, Initial(legacy));
  }

  /**
   * A legacy pause belongs to its operation: whatever else happens, also calls of other operations, the process
   * stays blocked under it until that operation itself resumes.
   */
  lemma {:induction false} ForeignNeverUnblocks(es: seq<Event>, s: State, operation: string)
    requires Inv(s) && operation != "" && s.gate.legacyOperation == operation
    requires forall i :: 0 <= i < |es| ==> es[i] != LegacyResume(operation)
    ensures var t := Run(es, s); t.gate.blocked && t.gate.legacyOperation == operation
  {
    if es != [] {
      NextKeepsInv(s, es[0]);
      ForeignNeverUnblocks(es[1..], Next(s, es[0]), operation);
    }
  }
}
