/**
 * What each locked region does to the process, and what the regions achieve together: a drain that is left alone
 * completes, and a resumed process takes work again.
 */
module AdmissionEffects {
  import opened Admission

  /** A tick goes on exactly after work was done by a kind that does not run once per tick. */
  lemma GoesOnIff(once: bool, processed: int)
    ensures GoesOn(once, processed) <==> 1 <= processed && once == false
  {
  }

  // ----- Activities -----

  /** An activity reads the pause flag once, before it asks for admission. */
  lemma DescribeEffect(s: State, a: ActivityId, paused: bool)
    ensures Next(s, Describe(a, paused)) ==
      if a in s.described.Keys + s.running then s else s.(described := s.described[a := paused])
  {
  }

  /** It runs from then on exactly if it had read an unpaused schedule and the process is not blocked by now. */
  lemma AdmitEffect(s: State, a: ActivityId)
    ensures var t, waits := Next(s, Admit(a)), a in s.described && a !in s.running;
      var admitted := waits && !s.described[a] && !s.gate.blocked;
      && t.running == (if admitted then s.running + {a} else s.running)
      && t.gate == Gate(s.gate.blocked, s.gate.active + if admitted then 1 else 0, s.gate.legacyOperation)
      && t.described == (if waits then s.described - {a} else s.described)
      && t.legacy == s.legacy && t.control == s.control && t.drained == s.drained
  {
  }

  lemma AdmitLegacyEffect(s: State, a: ActivityId)
    ensures var t, admitted := Next(s, AdmitLegacy(a)), a !in s.running && !s.gate.blocked;
      && t.running == (if admitted then s.running + {a} else s.running)
      && t.gate == Gate(s.gate.blocked, s.gate.active + if admitted then 1 else 0, s.gate.legacyOperation)
      && t.described == s.described && t.legacy == s.legacy && t.control == s.control && t.drained == s.drained
  {
  }

  lemma FinishEffect(s: State, a: ActivityId)
    requires Inv(s)
    ensures var t := Next(s, Finish(a));
      && t.running == s.running - {a} && t.gate.active == |s.running - {a}|
      && t == s.(running := t.running, gate := s.gate.(active := t.gate.active))
  {
    if a in s.running {
      assert |s.running - {a}| == |s.running| - 1;
    } else {
      assert s.running - {a} == s.running;
    }
  }

  // ----- Control calls -----

  /** One step of the control call in progress: from one place to another, and nothing but the gate beside it. */
  lemma ControlEffect(s: State, e: Event)
    requires Inv(s)
    ensures var t, idle := Next(s, e), s.control == Idle && !s.legacy;
      match e
      case BeginPause(drain) =>
        t == if idle then s.(control := Pausing(drain), gate := s.gate.(blocked := true)) else s
      case PauseDone(ok) =>
        if s.control == Pausing(true) then t == s.(control := if ok then Draining else Idle)
        else t == if s.control == Pausing(false) then s.(control := Idle) else s
      case DrainPoll(settled, leases) =>
        t == if s.control == Draining && leases == 0 && s.running == {} && (settled || s.legacy)
             then s.(control := Confirming) else s
      case DrainDeadline => t == if s.control == Draining then s.(control := Idle) else s
      case Confirm(inspected, leases) =>
        t == if s.control == Confirming
             then s.(control := Idle, drained := s.drained || (inspected && leases == 0)) else s
      case BeginResume => t == if idle then s.(control := Resuming) else s
      case ResumeDone(ok) =>
        if s.control != Resuming then t == s
        else t == if ok then s.(control := Idle, drained := false, gate := s.gate.(blocked := false))
                  else s.(control := Idle)
      case BeginMigrate => t == if idle then s.(control := Migrating) else s
      case MigrateDone => t == if s.control == Migrating then s.(control := Idle) else s
      case _ => true
  {
    assert s.gate.active == 0 <==> s.running == {};
  }

  /** The legacy engine's pause and resume take effect at once, for the operation that owns the pause. */
  lemma LegacyEffect(s: State, op: string, drain: bool)
    ensures var mine := s.legacy && s.control == Idle && (s.gate.legacyOperation == "" || s.gate.legacyOperation == op);
      && Next(s, LegacyPause(op, drain)) ==
           (if mine then s.(gate := Gate(true, s.gate.active, op), control := if drain then Draining else Idle) else s)
      && Next(s, LegacyResume(op)) ==
           (if mine then s.(gate := Gate(false, s.gate.active, ""), drained := false) else s)
  {
  }

  /** Stopping the process blocks it for good measure. */
  lemma StopEffect(s: State)
    ensures Next(s, Stop) == s.(gate := Gate(true, s.gate.active, s.gate.legacyOperation))
  {
  }

  /** A process begins open, with nothing read, running or drained. */
  lemma InitialIs(legacy: bool)
    ensures Initial(legacy) == State(legacy, Gate(false, 0, ""), map[], {}, Idle, false) && Inv(Initial(legacy))
  {
  }

  // ----- What they achieve together -----

  lemma {:induction false} RunSplit(a: seq<Event>, b: seq<Event>, s: State)
    ensures Run(a + b, s) == Run(b, Run(a, s))
  {
    if a == [] {
      assert a + b == b;
    } else {
      assert (a + b)[1..] == a[1..] + b;
      RunSplit(a[1..], b, Next(s, a[0]));
    }
  }

  function Finishes(acts: seq<ActivityId>): seq<Event> {
    if acts == [] then [] else [Finish(acts[0])] + Finishes(acts[1..])
  }

  /** The activities that run finish one after the other, in whatever order, and no other event comes between. */
  lemma {:induction false} AllFinish(acts: seq<ActivityId>, s: State)
    requires Inv(s) && forall a :: a in s.running ==> a in acts
    ensures Run(Finishes(acts), s) == s.(running := {}, gate := s.gate.(active := 0))
  {
    if acts == [] {
      assert s.running == {};
    } else {
      var t := Next(s, Finish(acts[0]));
      FinishEffect(s, acts[0]);
      NextKeepsInv(s, Finish(acts[0]));
      assert Finishes(acts)[0] == Finish(acts[0]) && Finishes(acts)[1..] == Finishes(acts[1..]);
      forall a | a in t.running ensures a in acts[1..] { assert a in acts && a != acts[0]; }
      AllFinish(acts[1..], t);
    }
  }

  lemma RunTwo(x: Event, y: Event, s: State)
    ensures Run([x, y], s) == Next(Next(s, x), y)
  {
    assert [x, y][1..] == [y] && [y][1..] == [];
    assert Run([y], Next(s, x)) == Run([], Next(Next(s, x), y));
  }

  /** A drain completes once the pause went through, everything running has finished and nothing else is left. */
  lemma DrainCompletes(s: State, acts: seq<ActivityId>)
    requires Inv(s) && s.control == Idle && !s.legacy && forall a :: a in s.running ==> a in acts
    ensures var es := [BeginPause(true), PauseDone(true)] + (Finishes(acts) + [DrainPoll(true, 0), Confirm(true, 0)]);
      var t := Run(es, s); t.drained && t.gate.blocked && t.running == {} && t.control == Idle
  {
    var pause, rest := [BeginPause(true), PauseDone(true)], Finishes(acts) + [DrainPoll(true, 0), Confirm(true, 0)];
    RunSplit(pause, rest, s);
    RunTwo(BeginPause(true), PauseDone(true), s);
    NextKeepsInv(s, BeginPause(true));
    NextKeepsInv(Next(s, BeginPause(true)), PauseDone(true));
    DrainingCompletes(Next(Next(s, BeginPause(true)), PauseDone(true)), acts);
  }

  lemma DrainingCompletes(p: State, acts: seq<ActivityId>)
    requires Inv(p) && p.control == Draining && forall a :: a in p.running ==> a in acts
    ensures var t := Run(Finishes(acts) + [DrainPoll(true, 0), Confirm(true, 0)], p);
      t.drained && t.gate.blocked && t.running == {} && t.control == Idle
  {
    RunSplit(Finishes(acts), [DrainPoll(true, 0), Confirm(true, 0)], p);
    AllFinish(acts, p);
    RunTwo(DrainPoll(true, 0), Confirm(true, 0), p.(running := {}, gate := p.gate.(active := 0)));
  }

  /** After a completed resume an activity that reads an unpaused schedule is admitted. */
  lemma ResumeReopens(s: State, a: ActivityId)
    requires Inv(s) && s.control == Idle && !s.legacy && a !in s.described && a !in s.running
    ensures var t := Run([BeginResume, ResumeDone(true)] + [Describe(a, false), Admit(a)], s);
      a in t.running && !t.gate.blocked && !t.drained
  {
    RunSplit([BeginResume, ResumeDone(true)], [Describe(a, false), Admit(a)], s);
    RunTwo(BeginResume, ResumeDone(true), s);
    RunTwo(Describe(a, false), Admit(a), Run([BeginResume, ResumeDone(true)], s));
  }
}
