/**
 * What a fingerprint shows, which event of a list decides, and what every step does to a project.
 */
module ScopeEffects {
  import opened Options
  import opened Text
  import opened ScopeGate
  import opened ScopeRuns

  // ----- Fingerprints -----

  lemma JoinedTwo(a: string, b: string)
    ensures Join([a, b], '|') == a + "|" + b
  {
    assert [a, b][1..] == [b] && "|" == ['|'];
    assert Join([b], '|') == b;
  }

  lemma JoinedMore(a: string, rest: seq<string>)
    requires rest != []
    ensures Join([a] + rest, '|') == a + "|" + Join(rest, '|')
  {
    assert ([a] + rest)[1..] == rest && "|" == ['|'];
  }

  lemma JoinedFour(a: string, b: string, c: string, d: string)
    ensures Join([a, b, c, d], '|') == a + "|" + b + "|" + c + "|" + d
  {
    JoinedTwo(c, d);
    JoinedMore(b, [c, d]);
    JoinedMore(a, [b, c, d]);
    assert [b] + [c, d] == [b, c, d] && [a] + [b, c, d] == [a, b, c, d];
    var inner := b + "|" + (c + "|" + d);
    assert inner == b + "|" + c + "|" + d;
    assert a + "|" + inner == a + "|" + b + "|" + c + "|" + d;
  }

  lemma RowIs(i: Item)
    ensures Row(i) == Trim(i.sourceID) + "|" + Trim(i.batch) + "|" + Trim(i.site) + "|" + Trim(i.category)
  {
    JoinedFour(Trim(i.sourceID), Trim(i.batch), Trim(i.site), Trim(i.category));
  }

  /** The items stand for the same line of the contract: same source, batch, site and category, padding aside. */
  predicate SameLine(a: Item, b: Item) {
    && Trim(a.sourceID) == Trim(b.sourceID) && Trim(a.batch) == Trim(b.batch)
    && Trim(a.site) == Trim(b.site) && Trim(a.category) == Trim(b.category)
  }

  predicate NoBar(i: Item) {
    '|' !in Trim(i.sourceID) && '|' !in Trim(i.batch) && '|' !in Trim(i.site) && '|' !in Trim(i.category)
  }

  lemma SameRowIff(a: Item, b: Item)
    requires NoBar(a)
    ensures Row(a) == Row(b) <==> SameLine(a, b)
  {
    if Row(a) == Row(b) {
      JoinDetermines(Fields(a), Fields(b), '|');
      assert Fields(a)[0] == Fields(b)[0] && Fields(a)[1] == Fields(b)[1];
      assert Fields(a)[2] == Fields(b)[2] && Fields(a)[3] == Fields(b)[3];
    }
  }

  /** Changing one item of a decomposition shows in its fingerprint exactly if the item stands for another line then. */
  lemma ChangeShowsIff(left: seq<Item>, a: Item, b: Item, right: seq<Item>)
    requires NoBar(a)
    ensures Fingerprint(left + [a] + right) == Fingerprint(left + [b] + right) <==> SameLine(a, b)
  {
    RowsWithout(left, a, right);
    RowsWithout(left, b, right);
    FingerprintIsTheRows(left + [a] + right, left + [b] + right);
    OneRow(a);
    OneRow(b);
    SameRowIff(a, b);
    OneMoreIff(multiset(Rows(left + right)), Row(a), Row(b));
  }

  lemma OneMoreIff(others: multiset<string>, x: string, y: string)
    ensures others + multiset{x} == others + multiset{y} <==> x == y
  {
    if others + multiset{x} == others + multiset{y} {
      assert (others + multiset{x})[x] == others[x] + 1;
      assert (others + multiset{y})[x] == others[x] + if x == y then 1 else 0;
    }
  }

  lemma OneRow(i: Item)
    ensures multiset(Rows([i])) == multiset{Row(i)}
  {
    assert [i][..0] == [];
    assert Rows([i]) == [Row(i)];
  }

  // ----- Which event decides -----

  /** The event puts this scope on record. */
  predicate Carries(e: Event, scope: seq<string>) {
    match e.kind
    case Activated(snapshot, _) => scope == snapshot != []
    case Adjusted(items) => scope == Fingerprint(items) != []
    case Closed(snapshot) => scope == snapshot != []
    case Detected => false
    case Other => false
  }

  /** At k stands the newest event of its kind; of equally new ones the first. */
  ghost predicate NewestAt(events: seq<Event>, among: Event -> bool, k: nat) {
    && k < |events| && among(events[k])
    && forall j :: 0 <= j < |events| && among(events[j]) ==>
         events[j].at < events[k].at || (events[j].at == events[k].at && k <= j)
  }

  lemma NewestAtIff(events: seq<Event>, want: Wanted, among: Event -> bool, k: nat)
    requires forall e :: among(e) <==> Fits(want, e)
    ensures NewestAt(events, among, k) <==> Newest(events, want, |events|) == Some(k)
  {
    NewestSpec(events, want, |events|);
  }

  predicate HasScope(e: Event) {
    match e.kind
    case Activated(snapshot, _) => snapshot != []
    case Adjusted(items) => items != []
    case Closed(snapshot) => snapshot != []
    case Detected => false
    case Other => false
  }

  /** The baseline is what the newest event with a scope put on record; there is none iff there is no such event. */
  lemma BaselineIff(events: seq<Event>, scope: seq<string>)
    ensures scope != [] ==>
      (Baseline(events) == scope <==> exists k: nat :: NewestAt(events, HasScope, k) && Carries(events[k], scope))
    ensures Baseline(events) == [] <==> forall j :: 0 <= j < |events| ==> !HasScope(events[j])
  {
    NewestSpec(events, AnyScope, |events|);
    forall e: Event ensures HasScope(e) <==> Fits(AnyScope, e) { ScopedIff(e); }
    forall k: nat ensures NewestAt(events, HasScope, k) <==> Newest(events, AnyScope, |events|) == Some(k) {
      NewestAtIff(events, AnyScope, HasScope, k);
    }
  }

  lemma ScopedIff(e: Event)
    ensures HasScope(e) <==> Fits(AnyScope, e)
    ensures HasScope(e) ==> Carries(e, Scope(e)) && forall s :: Carries(e, s) ==> s == Scope(e)
  {
    if e.kind.Adjusted? { RowsOfItems(e.kind.items); }
  }

  predicate IsAdjustment(e: Event) {
    e.kind.Adjusted?
  }

  /** Evidence is what the newest adjustment applied, whatever became of it since. */
  lemma AppliedIff(events: seq<Event>, scope: seq<string>)
    requires scope != []
    ensures Applied(events) == scope <==>
      exists k: nat :: NewestAt(events, IsAdjustment, k) && Fingerprint(events[k].kind.items) == scope
  {
    NewestSpec(events, AnyAdjustment, |events|);
    forall k: nat ensures NewestAt(events, IsAdjustment, k) <==> Newest(events, AnyAdjustment, |events|) == Some(k) {
      NewestAtIff(events, AnyAdjustment, IsAdjustment, k);
    }
  }

  // ----- What the steps do -----

  /** The application sees the newest five hundred events. */
  lemma ListedIs(p: Project)
    ensures Listed(p) <= p.ledger && |Listed(p)| == if |p.ledger| < 500 then |p.ledger| else 500
  {
  }

  /** The newest adjustment of the list applied exactly the current items. */
  predicate Proven(events: seq<Event>, items: seq<Item>) {
    Applied(events) == Fingerprint(items) && items != []
  }

  /**
   * A confirmation is refused for a drift, which it records and which opens the branch; within the branch without
   * proof that the supplement was applied, the last one on the whole record too. Otherwise only the last one changes
   * anything: it leaves the branch.
   */
  lemma ConfirmEffect(p: Project, last: bool, now: int)
    ensures var s, baseline := Next(p, Confirm(last), now), Baseline(Listed(p));
      if !p.required && DetectionOn(Listed(p)) && baseline != [] && Fingerprint(p.items) != baseline
      then s == Step(Project([Event(Detected, now)] + p.ledger, p.items, true), false)
      else if p.required && (!Proven(Listed(p), p.items) || (last && !Proven(p.ledger, p.items)))
      then s == Step(p, false)
      else s == Step(Project(p.ledger, p.items, p.required && !last), true)
  {
    RowsOfItems(p.items);
  }

  /** The other steps: what each puts on record, which items hold from then on, and whether the branch is open. */
  lemma StepEffect(p: Project, items: seq<Item>, detection: bool, progressed: bool, now: int)
    ensures var activated := Event(Activated(Fingerprint(items), detection), now);
      Next(p, Activate(items, detection), now) == Step(Project([activated] + p.ledger, items, p.required), true)
    ensures Next(p, Adjust(items, progressed), now) ==
      if progressed || |items| == 0 then Step(p, false)
      else Step(Project([Event(Adjusted(items), now)] + p.ledger, items, true), true)
    ensures Next(p, Close, now) ==
      if p.required then Step(Project([Event(Closed(Fingerprint(p.items)), now)] + p.ledger, p.items, false), true)
      else Step(p, false)
    ensures Next(p, Edit(items), now) == Step(Project(p.ledger, items, p.required), true)
    ensures Next(p, Note, now) == Step(Project([Event(Other, now)] + p.ledger, p.items, p.required), true)
  {
  }

  lemma {:induction false} RunSplit(p: Project, a: seq<(Action, int)>, b: seq<(Action, int)>)
    ensures Run(p, a + b) == Run(Run(p, a), b)
  {
    if b == [] {
      assert a + b == a;
    } else {
      assert (a + b)[..|a + b| - 1] == a + b[..|b| - 1];
      RunSplit(p, a, b[..|b| - 1]);
    }
  }

  /** After a run of one step the project is where the step leads. */
  lemma RunOfOne(p: Project, a: Action, now: int)
    ensures Run(p, [(a, now)]) == Next(p, a, now).project
  {
    assert [(a, now)][..0] == [];
  }
}
