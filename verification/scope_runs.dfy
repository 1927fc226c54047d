/**
 * Whole runs of the scope gate: a project is activated, drifts, is adjusted or closed, and is confirmed
 * (internal/application/service.go, split_config.go, supplement_exit.go and the repository's transactions).
 */
module ScopeRuns {
  import opened Options
  import opened ScopeGate

  const WINDOW := 500

  /** A project: its event ledger newest first, its current decomposition, and its supplement branch. */
  datatype Project = Project(ledger: seq<Event>, items: seq<Item>, required: bool)

  /** The application lists the newest events up to a fixed number; the repository reads them all. */
  function Listed(p: Project): seq<Event> {
    if |p.ledger| <= WINDOW then p.ledger else p.ledger[..WINDOW]
  }

  /** The scope check: true when the confirmation goes on, false when it opens the supplement branch. */
  predicate ScopeHolds(p: Project) {
    var baseline := Baseline(Listed(p));
    !DetectionOn(Listed(p)) || baseline == [] || p.required || Fingerprint(p.items) == baseline
  }

  predicate ExitAllowed(applied: seq<string>, items: seq<Item>) {
    applied != [] && applied == Fingerprint(items)
  }

  /** An adjustment is refused once an item has progressed past its confirmation. */
  datatype Action =
    | Activate(items: seq<Item>, detection: bool)
    | Adjust(items: seq<Item>, progressed: bool)
    | Close
    | Edit(items: seq<Item>)
    | Confirm(last: bool)
    | Note

  function Record(p: Project, kind: Kind, now: int): Project {
    p.(ledger := [Event(kind, now)] + p.ledger)
  }

  datatype Step = Step(project: Project, ok: bool)

  /** A confirmation; "last" says that it leaves no item of the project unconfirmed. */
  function Confirmed(p: Project, last: bool, now: int): Step {
    if !ScopeHolds(p) then Step(Record(p, Detected, now).(required := true), false)
    else if p.required && !ExitAllowed(Applied(Listed(p)), p.items) then Step(p, false)
    else if !last then Step(p, true)
    else if p.required && !ExitAllowed(Applied(p.ledger), p.items) then Step(p, false)
    else Step(p.(required := false), true)
  }

  function Next(p: Project, a: Action, now: int): Step {
    match a
    case Activate(items, detection) =>
      Step(Record(p.(items := items), Activated(Fingerprint(items), detection), now), true)
    case Adjust(items, progressed) =>
      if items == [] || progressed then Step(p, false)
      else Step(Record(p.(items := items, required := true), Adjusted(items), now), true)
    case Close =>
      if !p.required then Step(p, false)
      else Step(Record(p.(required := false), Closed(Fingerprint(p.items)), now), true)
    case Edit(items) => Step(p.(items := items), true)
    case Confirm(last) => Confirmed(p, last, now)
    case Note => Step(Record(p, Other, now), true)
  }

  ghost predicate After(now: int, events: seq<Event>) {
    forall i :: 0 <= i < |events| ==> events[i].at < now
  }

  // ----- The newest event of a newest-first list -----

  lemma HeadDecides(events: seq<Event>, want: Wanted)
    requires NewestFirst(events) && events != [] && Fits(want, events[0])
    ensures ScopeOfNewest(events, want) == Scope(events[0])
  {
    FirstDecides(events, want, 0);
  }

  lemma BehindHead(events: seq<Event>, want: Wanted, k: nat)
    requires events != [] && !Fits(want, events[0]) && FirstFit(events[1..], want, k)
    ensures FirstFit(events, want, k + 1) && events[k + 1] == events[1..][k]
  {
    forall j | 0 <= j < k + 1 ensures !Fits(want, events[j]) {
      if j > 0 { assert events[j] == events[1..][j - 1]; }
    }
  }

  lemma NothingWanted(events: seq<Event>, want: Wanted)
    requires forall j :: 0 <= j < |events| ==> !Fits(want, events[j])
    ensures ScopeOfNewest(events, want) == []
  {
    NewestSpec(events, want, |events|);
  }

  lemma FirstDecides(events: seq<Event>, want: Wanted, k: nat)
    requires NewestFirst(events) && FirstFit(events, want, k)
    ensures ScopeOfNewest(events, want) == Scope(events[k])
  {
    NewestIsFirst(events, want, k, |events|);
  }

  /** An unwanted newest event leaves the answer to the rest. */
  lemma HeadIsSkipped(events: seq<Event>, want: Wanted)
    requires NewestFirst(events) && events != [] && !Fits(want, events[0])
    ensures ScopeOfNewest(events, want) == ScopeOfNewest(events[1..], want)
  {
    var rest := events[1..];
    if exists j :: 0 <= j < |rest| && Fits(want, rest[j]) {
      var k := FirstFitExists(rest, want, 0);
      FirstDecides(rest, want, k);
      BehindHead(events, want, k);
      FirstDecides(events, want, k + 1);
    } else {
      forall j | 0 <= j < |events| ensures !Fits(want, events[j]) {
        if j > 0 { assert events[j] == rest[j - 1]; }
      }
      NothingWanted(rest, want);
      NothingWanted(events, want);
    }
  }

  lemma ListedIsNewestFirst(p: Project)
    requires NewestFirst(p.ledger)
    ensures NewestFirst(Listed(p)) && (p.ledger != [] ==> Listed(p) != [] && Listed(p)[0] == p.ledger[0])
  {
  }

  // ----- No deadlock -----

  /** After recording an event that carries a scope, that scope is the baseline. */
  lemma RecordedIsBaseline(p: Project, kind: Kind, now: int)
    requires NewestFirst(p.ledger) && After(now, p.ledger) && Scope(Event(kind, now)) != []
    ensures var q := Record(p, kind, now);
      NewestFirst(q.ledger) && Baseline(Listed(q)) == Baseline(q.ledger) == Scope(Event(kind, now))
  {
    var q := Record(p, kind, now);
    ListedIsNewestFirst(q);
    HeadDecides(q.ledger, AnyScope);
    HeadDecides(Listed(q), AnyScope);
  }

  lemma RowsOfItems(items: seq<Item>)
    ensures |Fingerprint(items)| == |items|
  {
  }

  lemma AdjustedFacts(p: Project, items: seq<Item>, now: int)
    requires NewestFirst(p.ledger) && After(now, p.ledger) && items != []
    ensures var q := Next(p, Adjust(items, false), now).project;
      && q.items == items && q.required && Fingerprint(items) != []
      && Baseline(Listed(q)) == Applied(Listed(q)) == Applied(q.ledger) == Fingerprint(items)
  {
    RowsOfItems(items);
    var base := p.(items := items, required := true);
    RecordedIsBaseline(base, Adjusted(items), now);
    var q := Record(base, Adjusted(items), now);
    ListedIsNewestFirst(q);
    HeadDecides(q.ledger, AnyAdjustment);
    HeadDecides(Listed(q), AnyAdjustment);
  }

  /** Where baseline and evidence both are the items' own fingerprint, confirmations succeed and leave the branch. */
  lemma ConfirmWithEvidence(p: Project, now: int)
    requires Fingerprint(p.items) != [] && Baseline(Listed(p)) == Fingerprint(p.items)
    requires p.required ==> Applied(Listed(p)) == Applied(p.ledger) == Fingerprint(p.items)
    ensures Next(p, Confirm(true), now) == Step(p.(required := false), true)
  {
  }

  /**
   * Applying the supplement's catalogue opens the way out: the next full confirmation succeeds, in whatever
   * order the items are listed by then, and so does every later one while the items stay.
   */
  lemma AdjustThenConfirm(p: Project, items: seq<Item>, listed: seq<Item>, now: int, later: int)
    requires NewestFirst(p.ledger) && After(now, p.ledger) && items != [] && multiset(listed) == multiset(items)
    ensures var adjusted := Next(p, Adjust(items, false), now);
      var confirmed := Next(adjusted.project.(items := listed), Confirm(true), later);
      && adjusted.ok && adjusted.project.required
      && confirmed == Step(adjusted.project.(items := listed, required := false), true)
      && Next(confirmed.project, Confirm(true), later) == confirmed
  {
    FingerprintIgnoresOrder(items, listed);
    AdjustedFacts(p, items, now);
    var q := Next(p, Adjust(items, false), now).project.(items := listed);
    ConfirmWithEvidence(q, later);
    ConfirmWithEvidence(q.(required := false), later);
  }

  lemma ClosedFacts(p: Project, now: int)
    requires NewestFirst(p.ledger) && After(now, p.ledger) && p.required && p.items != []
    ensures var q := Next(p, Close, now).project;
      && q.items == p.items && !q.required && Fingerprint(p.items) != []
      && Baseline(Listed(q)) == Fingerprint(p.items)
  {
    RowsOfItems(p.items);
    RecordedIsBaseline(p.(required := false), Closed(Fingerprint(p.items)), now);
  }

  /** Closing the supplement accepts the current items: confirmations of them succeed from then on. */
  lemma CloseThenConfirm(p: Project, listed: seq<Item>, now: int, later: int)
    requires NewestFirst(p.ledger) && After(now, p.ledger)
    requires p.required && p.items != [] && multiset(listed) == multiset(p.items)
    ensures var closed := Next(p, Close, now);
      && closed.ok && !closed.project.required
      && Next(closed.project.(items := listed), Confirm(true), later) == Step(closed.project.(items := listed), true)
  {
    FingerprintIgnoresOrder(p.items, listed);
    ClosedFacts(p, now);
    var q := Next(p, Close, now).project.(items := listed);
    ConfirmWithEvidence(q, later);
    assert q.(required := false) == q;
  }

  // ----- What clears and what opens the branch -----

  /** A confirmation leaves the branch exactly when the newest adjustment, on record and as listed, fits the items. */
  lemma ExitIff(p: Project, now: int)
    requires p.required
    ensures var s := Next(p, Confirm(true), now);
      && (s.ok <==> ExitAllowed(Applied(Listed(p)), p.items) && ExitAllowed(Applied(p.ledger), p.items))
      && s.project == p.(required := !s.ok)
  {
  }

  /** Outside the branch a confirmation is refused, and opens it, exactly when watched items left their baseline. */
  lemma DriftIff(p: Project, last: bool, now: int)
    requires !p.required
    ensures var s := Next(p, Confirm(last), now);
      var baseline := Baseline(Listed(p));
      && (!s.ok <==> DetectionOn(Listed(p)) && baseline != [] && Fingerprint(p.items) != baseline)
      && s.project.required == !s.ok && s.project.items == p.items
  {
  }

  function Run(p: Project, actions: seq<(Action, int)>): Project {
    if actions == [] then p
    else
      var last := actions[|actions| - 1];
      Next(Run(p, actions[..|actions| - 1]), last.0, last.1).project
  }

  ghost predicate NeverAdjusted(events: seq<Event>) {
    forall i :: 0 <= i < |events| ==> !events[i].kind.Adjusted?
  }

  /** No closure, and no adjustment that would be accepted. */
  predicate NoWayOut(a: Action) {
    !a.Close? && (a.Adjust? ==> a.progressed)
  }

  lemma NothingApplied(events: seq<Event>)
    requires NeverAdjusted(events)
    ensures Applied(events) == []
  {
    NewestSpec(events, AnyAdjustment, |events|);
  }

  lemma StaysRequired(p: Project, a: Action, now: int)
    requires p.required && NeverAdjusted(p.ledger) && NoWayOut(a)
    ensures var q := Next(p, a, now).project; q.required && NeverAdjusted(q.ledger)
  {
    NothingApplied(Listed(p));
  }

  /**
   * Once an item has progressed the catalogue can no longer be applied; then, without an adjustment on record,
   * nothing but a closure leads out, however often one edits and confirms.
   */
  lemma {:induction false} ConfirmingAgainIsNoWayOut(p: Project, actions: seq<(Action, int)>)
    requires p.required && NeverAdjusted(p.ledger)
    requires forall i :: 0 <= i < |actions| ==> NoWayOut(actions[i].0)
    ensures Run(p, actions).required && NeverAdjusted(Run(p, actions).ledger)
  {
    if actions != [] {
      var front, last := actions[..|actions| - 1], actions[|actions| - 1];
      ConfirmingAgainIsNoWayOut(p, front);
      StaysRequired(Run(p, front), last.0, last.1);
    }
  }

  // ----- Where the evidence and the baseline part ways -----

  /**
   * A full confirmation that leaves the branch meets the baseline exactly when the newest scope on record is an
   * adjustment, or is one with the scope of the newest adjustment.
   */
  lemma ExitMeetsBaselineIff(p: Project, k: nat, now: int)
    requires NewestFirst(p.ledger) && FirstFit(p.ledger, AnyScope, k)
    requires p.required && Next(p, Confirm(true), now).ok
    ensures Fingerprint(p.items) == Baseline(p.ledger)
      <==> p.ledger[k].kind.Adjusted? || Scope(p.ledger[k]) == Applied(p.ledger)
  {
    NewestIsFirst(p.ledger, AnyScope, k, |p.ledger|);
    ExitIff(p, now);
    if p.ledger[k].kind.Adjusted? { NewestScopeIsApplied(p.ledger, k); }
  }

  /** A newest scope that is an adjustment is the newest adjustment, if that one applied anything. */
  lemma NewestScopeIsApplied(events: seq<Event>, k: nat)
    requires NewestFirst(events) && FirstFit(events, AnyScope, k) && events[k].kind.Adjusted? && Applied(events) != []
    ensures Applied(events) == Scope(events[k])
  {
    NewestSpec(events, AnyAdjustment, |events|);
    var r := Newest(events, AnyAdjustment, |events|).value;
    assert Fits(AnyScope, events[r]);
  }

  /** A project adjusted to a, then closed while it held b, then changed back to a. */
  function ChangedBack(a: seq<Item>, b: seq<Item>): Project {
    var activated := Next(Project([], [], false), Activate(a, true), 1).project;
    var adjusted := Next(activated, Adjust(a, false), 2).project;
    var closed := Next(Next(adjusted, Edit(b), 2).project, Close, 3).project;
    Next(closed, Edit(a), 3).project
  }

  lemma ChangedBackFacts(a: seq<Item>, b: seq<Item>)
    requires a != [] && b != []
    ensures var p := ChangedBack(a, b);
      && p.ledger == LedgerOf(a, b) && p.items == a && !p.required
      && NewestFirst(p.ledger) && DetectionOn(p.ledger)
      && Baseline(p.ledger) == Fingerprint(b) != [] && Applied(p.ledger) == Fingerprint(a) != []
  {
    ChangedBackLedger(a, b);
    ReplacedAdjustment(a, b);
  }

  function LedgerOf(a: seq<Item>, b: seq<Item>): seq<Event> {
    [Event(Closed(Fingerprint(b)), 3), Event(Adjusted(a), 2), Event(Activated(Fingerprint(a), true), 1)]
  }

  lemma ChangedBackLedger(a: seq<Item>, b: seq<Item>)
    requires a != []
    ensures ChangedBack(a, b) == Project(LedgerOf(a, b), a, false)
  {
    var activated := [Event(Activated(Fingerprint(a), true), 1)] + [];
    assert [Event(Closed(Fingerprint(b)), 3)] + ([Event(Adjusted(a), 2)] + activated) == LedgerOf(a, b);
  }

  lemma ReplacedAdjustment(a: seq<Item>, b: seq<Item>)
    requires a != [] && b != []
    ensures var events := LedgerOf(a, b);
      && NewestFirst(events) && DetectionOn(events)
      && Baseline(events) == Fingerprint(b) != [] && Applied(events) == Fingerprint(a) != []
  {
    var events := LedgerOf(a, b);
    RowsOfItems(a);
    RowsOfItems(b);
    DetectionIsFirst(events, 2, 0);
    HeadDecides(events, AnyScope);
    HeadIsSkipped(events, AnyAdjustment);
    assert events[1..] == [Event(Adjusted(a), 2), Event(Activated(Fingerprint(a), true), 1)];
    HeadDecides(events[1..], AnyAdjustment);
  }

  /** What stands while further detections are recorded on top. */
  lemma DetectionsChangeNothing(p: Project, now: int)
    requires NewestFirst(p.ledger) && After(now, p.ledger)
    ensures var q := Record(p, Detected, now);
      && NewestFirst(q.ledger) && Baseline(q.ledger) == Baseline(p.ledger) && Applied(q.ledger) == Applied(p.ledger)
      && DetectionOn(q.ledger) == DetectionOn(p.ledger)
  {
    var q := Record(p, Detected, now);
    assert q.ledger[1..] == p.ledger;
    HeadIsSkipped(q.ledger, AnyScope);
    HeadIsSkipped(q.ledger, AnyAdjustment);
    DetectionSkips(q.ledger, 0);
  }

  /**
   * Otherwise it need not: an adjustment older than the closure that replaced it still counts as evidence, so
   * a refused confirmation succeeds when repeated, and the one after that is refused again.
   */
  lemma StaleAdjustmentReopens(a: seq<Item>, b: seq<Item>)
    requires a != [] && b != [] && Fingerprint(a) != Fingerprint(b)
    ensures var first := Next(ChangedBack(a, b), Confirm(true), 4);
      var second := Next(first.project, Confirm(true), 5);
      var third := Next(second.project, Confirm(true), 6);
      && !first.ok && second.ok && !third.ok
      && second.project.items == a && Baseline(second.project.ledger) == Fingerprint(b)
  {
    var p := ChangedBack(a, b);
    ChangedBackFacts(a, b);
    assert Listed(p) == p.ledger;
    DetectionsChangeNothing(p, 4);
    var q := Record(p, Detected, 4).(required := true);
    assert Listed(q) == q.ledger;
    assert Next(p, Confirm(true), 4) == Step(q, false);
    assert Next(q, Confirm(true), 5) == Step(q.(required := false), true);
  }

  // ----- What the window of listed events hides -----

  /** The scope check over the whole ledger. */
  predicate ScopeHoldsOnRecord(p: Project) {
    var baseline := Baseline(p.ledger);
    !DetectionOn(p.ledger) || baseline == [] || p.required || Fingerprint(p.items) == baseline
  }

  /** The first wanted event of the ledger is among those listed. */
  ghost predicate InWindow(p: Project, want: Wanted) {
    exists k: nat :: k < WINDOW && FirstFit(p.ledger, want, k)
  }

  ghost predicate AllInWindow(p: Project) {
    InWindow(p, AnyScope) && InWindow(p, AnyActivation)
  }

  lemma WindowOfScope(p: Project)
    requires NewestFirst(p.ledger)
    ensures InWindow(p, AnyScope) ==> Baseline(Listed(p)) == Baseline(p.ledger) != []
    ensures !InWindow(p, AnyScope) ==> Baseline(Listed(p)) == []
  {
    if k: nat :| k < WINDOW && FirstFit(p.ledger, AnyScope, k) {
      assert FirstFit(Listed(p), AnyScope, k);
      FirstDecides(p.ledger, AnyScope, k);
      FirstDecides(Listed(p), AnyScope, k);
    } else {
      NoneListed(p, AnyScope);
      NothingWanted(Listed(p), AnyScope);
    }
  }

  lemma NoneListed(p: Project, want: Wanted)
    requires !InWindow(p, want)
    ensures forall j :: 0 <= j < |Listed(p)| ==> !Fits(want, Listed(p)[j])
  {
    if exists j :: 0 <= j < |Listed(p)| && Fits(want, Listed(p)[j]) {
      var k := FirstFitExists(Listed(p), want, 0);
      assert FirstFit(p.ledger, want, k);
    }
  }

  lemma WindowOfSwitch(p: Project)
    ensures InWindow(p, AnyActivation) ==> DetectionOn(Listed(p)) == DetectionOn(p.ledger)
    ensures !InWindow(p, AnyActivation) ==> !DetectionOn(Listed(p))
  {
    var listed := Listed(p);
    if k: nat :| k < WINDOW && FirstFit(p.ledger, AnyActivation, k) {
      assert FirstFit(listed, AnyActivation, k);
      DetectionIsFirst(p.ledger, k, 0);
      DetectionIsFirst(listed, k, 0);
    } else {
      NoneListed(p, AnyActivation);
      DetectionWithout(listed, 0);
    }
  }

  /**
   * The check on the listed events differs from the check on record exactly when the latter refuses and the
   * window reaches back to only one of the newest scope and the newest activation, or to neither.
   */
  lemma WindowDecidesIff(p: Project)
    requires NewestFirst(p.ledger)
    ensures ScopeHolds(p) == ScopeHoldsOnRecord(p) <==> ScopeHoldsOnRecord(p) || AllInWindow(p)
  {
    WindowOfScope(p);
    WindowOfSwitch(p);
  }

  /** So for all items it is the check on record exactly when nothing is watched or both are in the window. */
  lemma WindowHarmlessIff(p: Project)
    requires NewestFirst(p.ledger)
    ensures (forall items :: SameVerdict(p, items)) <==>
      !DetectionOn(p.ledger) || Baseline(p.ledger) == [] || AllInWindow(p)
  {
    forall items
      ensures SameVerdict(p, items) <==> ScopeHoldsOnRecord(p.(items := items, required := false)) || AllInWindow(p)
    {
      var q := p.(items := items, required := false);
      WindowDecidesIff(q);
      assert InWindow(q, AnyScope) == InWindow(p, AnyScope) && InWindow(q, AnyActivation) == InWindow(p, AnyActivation);
    }
    if DetectionOn(p.ledger) && Baseline(p.ledger) != [] && !AllInWindow(p) {
      var none: seq<Item> := [];
      assert Fingerprint(none) == [];
      assert !SameVerdict(p, none);
    }
  }

  ghost predicate SameVerdict(p: Project, items: seq<Item>) {
    var q := p.(items := items, required := false);
    ScopeHolds(q) == ScopeHoldsOnRecord(q)
  }

  /** n unrelated events, the newest of them at the given moment. */
  function Notes(n: nat, at: int): (es: seq<Event>)
    ensures |es| == n && forall j :: 0 <= j < n ==> es[j] == Event(Other, at - j)
  {
    seq(n, j requires 0 <= j < n => Event(Other, at - j))
  }

  /** Five hundred events after its activation a drifted project is confirmed: the baseline is out of sight. */
  lemma OldBaselineIsForgotten(a: seq<Item>, items: seq<Item>)
    requires a != [] && Fingerprint(items) != Fingerprint(a)
    ensures var p := Project(Notes(WINDOW, WINDOW) + [Event(Activated(Fingerprint(a), true), 0)], items, false);
      NewestFirst(p.ledger) && !ScopeHoldsOnRecord(p) && ScopeHolds(p)
  {
    var p := Project(Notes(WINDOW, WINDOW) + [Event(Activated(Fingerprint(a), true), 0)], items, false);
    RowsOfItems(a);
    assert FirstFit(p.ledger, AnyScope, WINDOW) && FirstFit(p.ledger, AnyActivation, WINDOW);
    NewestIsFirst(p.ledger, AnyScope, WINDOW, WINDOW + 1);
    DetectionIsFirst(p.ledger, WINDOW, 0);
    WindowDecidesIff(p);
  }

  /** So is one whose newest baseline is in sight, when only the switch has fallen out of the window. */
  lemma OldSwitchIsForgotten(a: seq<Item>, b: seq<Item>, items: seq<Item>)
    requires a != [] && b != [] && Fingerprint(items) != Fingerprint(b)
    ensures var activation := Event(Activated(Fingerprint(a), true), 0);
      var p := Project([Event(Adjusted(b), WINDOW)] + Notes(WINDOW - 1, WINDOW - 1) + [activation], items, false);
      && NewestFirst(p.ledger) && Baseline(Listed(p)) == Baseline(p.ledger)
      && !ScopeHoldsOnRecord(p) && ScopeHolds(p)
  {
    var activation := Event(Activated(Fingerprint(a), true), 0);
    var p := Project([Event(Adjusted(b), WINDOW)] + Notes(WINDOW - 1, WINDOW - 1) + [activation], items, false);
    RowsOfItems(b);
    assert FirstFit(p.ledger, AnyScope, 0) && FirstFit(p.ledger, AnyActivation, WINDOW);
    NewestIsFirst(p.ledger, AnyScope, 0, WINDOW + 1);
    DetectionIsFirst(p.ledger, WINDOW, 0);
    WindowOfScope(p);
    WindowDecidesIff(p);
  }
}
