/**
 * The gate that keeps a decomposition in step with its contract scope (internal/application/
 * supplement_exit.go and split_config.go): fingerprints, the event that sets the baseline, and what a
 * confirmation does in and out of the supplement branch.
 */
module ScopeGate {
  import opened Options
  import opened Sorting
  import opened Text

  // ----- Fingerprints -----

  datatype Item = Item(sourceID: string, batch: string, site: string, category: string)

  function Fields(i: Item): seq<string> {
    [Trim(i.sourceID), Trim(i.batch), Trim(i.site), Trim(i.category)]
  }

  function Row(i: Item): string {
    Join(Fields(i), '|')
  }

  function Rows(items: seq<Item>): (rows: seq<string>)
    ensures |rows| == |items|
  {
    if items == [] then [] else Rows(items[..|items| - 1]) + [Row(items[|items| - 1])]
  }

  /** The sorted rows of a decomposition; technical notes and system names are not part of it. */
  function Fingerprint(items: seq<Item>): seq<string> {
    Sort(Rows(items))
  }

  method ScopeSnapshot(items: seq<Item>) returns (snapshot: seq<string>)
    ensures snapshot == Fingerprint(items)
  {
    snapshot := [];
    var i := 0;
    while i < |items|
      invariant i <= |items| && snapshot == Rows(items[..i])
    {
      assert items[..i + 1][..i] == items[..i];
      snapshot := snapshot + [Row(items[i])];
      i := i + 1;
    }
    assert items[..i] == items;
    snapshot := Sort(snapshot);
  }

  /** Two decompositions have one fingerprint exactly when they hold the same rows, each as often. */
  lemma FingerprintIsTheRows(a: seq<Item>, b: seq<Item>)
    ensures Fingerprint(a) == Fingerprint(b) <==> multiset(Rows(a)) == multiset(Rows(b))
  {
    SortSpec(Rows(a));
    SortSpec(Rows(b));
    if multiset(Rows(a)) == multiset(Rows(b)) { SortIgnoresOrder(Rows(a), Rows(b)); }
  }

  lemma {:induction false} RowsAppend(a: seq<Item>, b: seq<Item>)
    ensures Rows(a + b) == Rows(a) + Rows(b)
  {
    if b == [] {
      assert a + b == a;
    } else {
      assert (a + b)[..|a + b| - 1] == a + b[..|b| - 1];
      RowsAppend(a, b[..|b| - 1]);
    }
  }

  /** Taking out one item takes out one row. */
  lemma RowsWithout(left: seq<Item>, x: Item, right: seq<Item>)
    ensures multiset(Rows(left + [x] + right)) == multiset(Rows(left + right)) + multiset(Rows([x]))
  {
    RowsAppend(left, [x]);
    RowsAppend(left + [x], right);
    RowsAppend(left, right);
    assert multiset(Rows(left) + Rows([x]) + Rows(right))
        == multiset(Rows(left)) + multiset(Rows([x])) + multiset(Rows(right));
    assert multiset(Rows(left) + Rows(right)) == multiset(Rows(left)) + multiset(Rows(right));
  }

  lemma ItemsWithout(left: seq<Item>, x: Item, right: seq<Item>)
    ensures multiset(left + right) == multiset(left + [x] + right) - multiset{x}
  {
    assert multiset(left + [x] + right) == multiset(left) + multiset{x} + multiset(right);
    assert multiset(left + right) == multiset(left) + multiset(right);
  }

  lemma {:induction false} RowsIgnoreOrder(a: seq<Item>, b: seq<Item>)
    requires multiset(a) == multiset(b)
    ensures multiset(Rows(a)) == multiset(Rows(b))
    decreases |a|
  {
    assert |multiset(a)| == |a| && |multiset(b)| == |b|;
    if a != [] {
      var x := a[0];
      assert x in multiset(b);
      var k :| 0 <= k < |b| && b[k] == x;
      var left, right := b[..k], b[k + 1..];
      assert a == [] + [x] + a[1..] && b == left + [x] + right;
      ItemsWithout([], x, a[1..]);
      ItemsWithout(left, x, right);
      RowsWithout([], x, a[1..]);
      RowsWithout(left, x, right);
      RowsIgnoreOrder([] + a[1..], left + right);
    }
  }

  /** The order in which items are listed does not matter. */
  lemma FingerprintIgnoresOrder(a: seq<Item>, b: seq<Item>)
    requires multiset(a) == multiset(b)
    ensures Fingerprint(a) == Fingerprint(b)
  {
    RowsIgnoreOrder(a, b);
    FingerprintIsTheRows(a, b);
  }

  /** A row names one line of the decomposition exactly when none of its values holds the bar. */
  lemma RowIsUnambiguous(i: Item)
    ensures (forall p :: p in Fields(i) ==> '|' !in p)
      <==> (forall other: seq<string> :: |other| == 4 && Join(other, '|') == Row(i) ==> other == Fields(i))
  {
    JoinUnambiguous(Fields(i), '|');
  }

  // ----- Events -----

  /**
   * The events that concern the scope. An adjustment carries the items it applied (none when its payload
   * cannot be read); an activation and a closure carry the fingerprint of their time.
   */
  datatype Kind =
    | Activated(snapshot: seq<string>, detection: bool)
    | Adjusted(items: seq<Item>)
    | Closed(snapshot: seq<string>)
    | Detected
    | Other

  datatype Event = Event(kind: Kind, at: int)

  function Scope(e: Event): seq<string> {
    match e.kind
    case Activated(snapshot, _) => snapshot
    case Adjusted(items) => Fingerprint(items)
    case Closed(snapshot) => snapshot
    case _ => []
  }

  datatype Wanted = AnyScope | AnyAdjustment | AnyActivation

  predicate Fits(want: Wanted, e: Event) {
    match want
    case AnyScope => Scope(e) != []
    case AnyAdjustment => e.kind.Adjusted?
    case AnyActivation => e.kind.Activated?
  }

  /** The first of the newest wanted events among the first n. */
  function Newest(events: seq<Event>, want: Wanted, n: nat): (r: Option<nat>)
    requires n <= |events|
    ensures r.Some? ==> r.value < n
  {
    if n == 0 then None
    else
      var best := Newest(events, want, n - 1);
      if Fits(want, events[n - 1]) && (best.None? || events[n - 1].at > events[best.value].at) then Some(n - 1)
      else best
  }

  lemma {:induction false} NewestSpec(events: seq<Event>, want: Wanted, n: nat)
    requires n <= |events|
    ensures var r := Newest(events, want, n);
      && (r.None? <==> forall j :: 0 <= j < n ==> !Fits(want, events[j]))
      && (r.Some? ==> Fits(want, events[r.value]))
      && (r.Some? ==> forall j :: 0 <= j < n && Fits(want, events[j]) ==>
            events[j].at <= events[r.value].at && (events[j].at == events[r.value].at ==> r.value <= j))
  {
    if n > 0 { NewestSpec(events, want, n - 1); }
  }

  function ScopeOfNewest(events: seq<Event>, want: Wanted): seq<string> {
    var r := Newest(events, want, |events|);
    if r.None? then [] else Scope(events[r.value])
  }

  /** The authoritative scope: what the newest event that carries a fingerprint says. */
  function Baseline(events: seq<Event>): seq<string> {
    ScopeOfNewest(events, AnyScope)
  }

  /** What the newest adjustment applied; an unreadable one hides the older ones and applies nothing. */
  function Applied(events: seq<Event>): seq<string> {
    ScopeOfNewest(events, AnyAdjustment)
  }

  method ScopeChangeBaseline(events: seq<Event>) returns (baseline: seq<string>)
    ensures baseline == Baseline(events)
  {
    baseline := [];
    var latest, i := 0, 0;
    while i < |events|
      invariant i <= |events|
      invariant var r := Newest(events, AnyScope, i);
        if r.None? then baseline == []
        else baseline == Scope(events[r.value]) != [] && latest == events[r.value].at
    {
      NewestSpec(events, AnyScope, i + 1);
      var snapshot := Scope(events[i]);
      if snapshot != [] && (baseline == [] || events[i].at > latest) {
        baseline, latest := snapshot, events[i].at;
      }
      i := i + 1;
    }
  }

  method SupplementAppliedScope(events: seq<Event>) returns (applied: seq<string>)
    ensures applied == Applied(events)
  {
    var latest: Option<Event> := None;
    var i := 0;
    while i < |events|
      invariant i <= |events|
      invariant var r := Newest(events, AnyAdjustment, i); latest == if r.None? then None else Some(events[r.value])
    {
      if events[i].kind.Adjusted? && (latest.None? || events[i].at > latest.value.at) {
        latest := Some(events[i]);
      }
      i := i + 1;
    }
    applied := if latest.None? then [] else Scope(latest.value);
  }

  ghost predicate DistinctTimes(events: seq<Event>) {
    forall i, j :: 0 <= i < j < |events| ==> events[i].at != events[j].at
  }

  lemma SameTimeSameEvent(events: seq<Event>, x: Event, y: Event)
    requires DistinctTimes(events) && x in events && y in events && x.at == y.at
    ensures x == y
  {
    var i :| 0 <= i < |events| && events[i] == x;
    var j :| 0 <= j < |events| && events[j] == y;
  }

  lemma NewestExists(a: seq<Event>, b: seq<Event>, want: Wanted)
    requires multiset(a) == multiset(b) && Newest(a, want, |a|).Some?
    ensures Newest(b, want, |b|).Some?
  {
    NewestSpec(a, want, |a|);
    NewestSpec(b, want, |b|);
    var x := a[Newest(a, want, |a|).value];
    assert x in multiset(b);
    var j :| 0 <= j < |b| && b[j] == x;
    assert Fits(want, b[j]);
  }

  /** For distinct times the list order plays no part in what is newest. */
  lemma NewestIgnoresOrder(a: seq<Event>, b: seq<Event>, want: Wanted)
    requires multiset(a) == multiset(b) && DistinctTimes(a)
    ensures ScopeOfNewest(a, want) == ScopeOfNewest(b, want)
  {
    NewestSpec(a, want, |a|);
    NewestSpec(b, want, |b|);
    assert forall e :: e in a <==> e in multiset(a);
    assert forall e :: e in b <==> e in multiset(b);
    if Newest(b, want, |b|).Some? { NewestExists(b, a, want); }
    if Newest(a, want, |a|).Some? {
      NewestExists(a, b, want);
      var x, y := a[Newest(a, want, |a|).value], b[Newest(b, want, |b|).value];
      assert x in b && y in a;
      var j :| 0 <= j < |b| && b[j] == x;
      var i :| 0 <= i < |a| && a[i] == y;
      assert Fits(want, b[j]) && Fits(want, a[i]);
      SameTimeSameEvent(a, x, y);
    }
  }

  ghost predicate NewestFirst(events: seq<Event>) {
    forall i, j :: 0 <= i < j < |events| ==> events[i].at > events[j].at
  }

  /** The position of the first wanted event of the list. */
  ghost predicate FirstFit(events: seq<Event>, want: Wanted, k: nat) {
    && k < |events| && Fits(want, events[k])
    && forall j :: 0 <= j < k ==> !Fits(want, events[j])
  }

  /** On a newest-first list the newest wanted event is the first. */
  lemma NewestIsFirst(events: seq<Event>, want: Wanted, k: nat, n: nat)
    requires NewestFirst(events) && k < n <= |events| && FirstFit(events, want, k)
    ensures Newest(events, want, n) == Some(k)
  {
    NewestSpec(events, want, n);
    assert Newest(events, want, n).Some?;
  }

  // ----- The detection switch -----

  /** The switch of the newest activation; off without one. */
  function NewestSwitch(events: seq<Event>): bool {
    var r := Newest(events, AnyActivation, |events|);
    if r.None? then false
    else
      assert Fits(AnyActivation, events[r.value]) by { NewestSpec(events, AnyActivation, |events|); }
      events[r.value].kind.detection
  }

  /** The switch is that of the list's first activation, and off exactly when there is none or it is off. */
  method ScopeChangeDetectionEnabled(events: seq<Event>) returns (on: bool)
    ensures forall k: nat :: FirstFit(events, AnyActivation, k) ==> on == events[k].kind.detection
    ensures (forall j :: 0 <= j < |events| ==> !Fits(AnyActivation, events[j])) ==> !on
    ensures on == DetectionOn(events)
    ensures NewestFirst(events) ==> on == NewestSwitch(events)
  {
    if NewestFirst(events) { NewestFirstYieldsNewestSwitch(events); }
    var i := 0;
    while i < |events|
      invariant i <= |events| && DetectionFrom(events, i) == DetectionOn(events)
      invariant forall j :: 0 <= j < i ==> !Fits(AnyActivation, events[j])
    {
      if events[i].kind.Activated? {
        assert FirstFit(events, AnyActivation, i);
        return events[i].kind.detection;
      }
      i := i + 1;
    }
    on := false;
  }

  function DetectionFrom(events: seq<Event>, i: nat): bool
    requires i <= |events|
    decreases |events| - i
  {
    if i == |events| then false
    else if events[i].kind.Activated? then events[i].kind.detection
    else DetectionFrom(events, i + 1)
  }

  /** What the search over the list finds. */
  function DetectionOn(events: seq<Event>): bool {
    DetectionFrom(events, 0)
  }

  lemma {:induction false} DetectionIsFirst(events: seq<Event>, k: nat, i: nat)
    requires FirstFit(events, AnyActivation, k) && i <= k
    ensures DetectionFrom(events, i) == events[k].kind.detection
    decreases k - i
  {
    if i < k { DetectionIsFirst(events, k, i + 1); }
  }

  lemma {:induction false} DetectionWithout(events: seq<Event>, i: nat)
    requires i <= |events| && forall j :: i <= j < |events| ==> !Fits(AnyActivation, events[j])
    ensures !DetectionFrom(events, i)
    decreases |events| - i
  {
    if i < |events| { DetectionWithout(events, i + 1); }
  }

  /** An event that is no activation in front of a list does not change what the search finds. */
  lemma {:induction false} DetectionSkips(events: seq<Event>, i: nat)
    requires events != [] && i < |events|
    ensures DetectionFrom(events, i + 1) == DetectionFrom(events[1..], i)
    ensures !Fits(AnyActivation, events[0]) ==> DetectionOn(events) == DetectionFrom(events, 1)
    decreases |events| - i
  {
    if i + 1 < |events| { DetectionSkips(events, i + 1); }
  }

  lemma FirstFitExists(events: seq<Event>, want: Wanted, from: nat) returns (k: nat)
    requires from <= |events| && forall j :: 0 <= j < from ==> !Fits(want, events[j])
    requires exists j :: 0 <= j < |events| && Fits(want, events[j])
    ensures FirstFit(events, want, k)
    decreases |events| - from
  {
    assert from < |events|;
    if Fits(want, events[from]) { k := from; } else { k := FirstFitExists(events, want, from + 1); }
  }

  /** A list whose first activation is its newest yields the newest activation's switch. */
  lemma FirstIsNewest(events: seq<Event>, k: nat)
    requires FirstFit(events, AnyActivation, k)
    requires forall j :: 0 <= j < |events| && Fits(AnyActivation, events[j]) ==> events[j].at <= events[k].at
    ensures DetectionOn(events) == NewestSwitch(events) == events[k].kind.detection
  {
    NewestSpec(events, AnyActivation, |events|);
    DetectionIsFirst(events, k, 0);
    assert Newest(events, AnyActivation, |events|).value == k;
  }

  /** In particular every newest-first list does, which is how the repository lists events. */
  lemma NewestFirstYieldsNewestSwitch(events: seq<Event>)
    requires NewestFirst(events)
    ensures DetectionOn(events) == NewestSwitch(events)
  {
    if exists j :: 0 <= j < |events| && Fits(AnyActivation, events[j]) {
      var k := FirstFitExists(events, AnyActivation, 0);
      FirstIsNewest(events, k);
    } else {
      NewestSpec(events, AnyActivation, |events|);
      DetectionWithout(events, 0);
    }
  }

  /** On any list the two agree exactly when its first activation carries the switch of its newest. */
  lemma DetectionIffSameSwitch(events: seq<Event>, k: nat, n: nat)
    requires FirstFit(events, AnyActivation, k) && Newest(events, AnyActivation, |events|) == Some(n)
    requires events[n].kind.Activated?
    ensures DetectionOn(events) == NewestSwitch(events) <==> events[k].kind.detection == events[n].kind.detection
  {
    DetectionIsFirst(events, k, 0);
  }

  /** The same events under other switches. */
  function Labelled(events: seq<Event>, labels: seq<bool>, n: nat): (r: seq<Event>)
    requires n <= |events| == |labels|
    ensures |r| == n
    ensures forall j :: 0 <= j < n ==> r[j].at == events[j].at && (r[j].kind.Activated? <==> events[j].kind.Activated?)
    ensures forall j :: 0 <= j < n && r[j].kind.Activated? ==> r[j].kind.detection == labels[j]
  {
    if n == 0 then []
    else
      var e := events[n - 1];
      Labelled(events, labels, n - 1)
      + [if e.kind.Activated? then e.(kind := e.kind.(detection := labels[n - 1])) else e]
  }

  lemma {:induction false} LabelsMoveNothing(events: seq<Event>, labels: seq<bool>, n: nat)
    requires n <= |events| == |labels|
    ensures Newest(Labelled(events, labels, |events|), AnyActivation, n) == Newest(events, AnyActivation, n)
  {
    if n > 0 { LabelsMoveNothing(events, labels, n - 1); }
  }

  /** Whatever the switches say, the right one is read exactly when the first activation is the newest. */
  lemma RightSwitchIff(events: seq<Event>, k: nat)
    requires FirstFit(events, AnyActivation, k)
    ensures (forall labels: seq<bool> :: |labels| == |events| ==> RightSwitch(events, labels))
      <==> Newest(events, AnyActivation, |events|) == Some(k)
  {
    NewestSpec(events, AnyActivation, |events|);
    var n := Newest(events, AnyActivation, |events|).value;
    forall labels: seq<bool> | |labels| == |events| ensures RightSwitch(events, labels) <==> labels[k] == labels[n] {
      var l := Labelled(events, labels, |events|);
      LabelsMoveNothing(events, labels, |events|);
      assert FirstFit(l, AnyActivation, k);
      DetectionIsFirst(l, k, 0);
    }
    if n != k {
      var labels := seq(|events|, j => j == k);
      assert !RightSwitch(events, labels);
    }
  }

  ghost predicate RightSwitch(events: seq<Event>, labels: seq<bool>)
    requires |labels| == |events|
  {
    var l := Labelled(events, labels, |events|);
    DetectionOn(l) == NewestSwitch(l)
  }

  /** An input of that family: two activations listed oldest first. */
  lemma DetectionDependsOnOrder()
    ensures var on, off := Event(Activated([], true), 2), Event(Activated([], false), 1);
      DetectionOn([on, off]) && !DetectionOn([off, on]) && NewestSwitch([off, on])
  {
    var on, off := Event(Activated([], true), 2), Event(Activated([], false), 1);
    DetectionIsFirst([on, off], 0, 0);
    DetectionIsFirst([off, on], 0, 0);
    NewestSpec([off, on], AnyActivation, 2);
    assert Fits(AnyActivation, [off, on][1]);
  }
}
