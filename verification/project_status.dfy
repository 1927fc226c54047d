/**
 * The three values derived from a project's service items: status, report stage and progress.
 * Each is its own fold over the items; all of them rest on one rank table. Status and report
 * texts appear after trimming and case folding, as the constructor they name.
 */
module ProjectStatus {
  import opened Options

  datatype ItemStatus =
    | PendingConfirm | PendingReview | PendingAllocation | PendingExecution | Preparing | InProgress
    | Exception | FieldCompleted | Terminated | UnknownStatus(text: string)

  datatype Phase = NoReport | Rectifying | Compiling | Reviewed | Issued | Archived

  datatype Report = Blank | Known(phase: Phase) | UnknownReport(code: string)

  datatype Item = Item(status: ItemStatus, report: Report)

  /** The linear nodes are numbered 0 (pending decomposition) to 8 (completed). */
  datatype Status = Node(rank: nat) | AllTerminated | SupplementRequired | Stored(text: string)

  const FIELD_COMPLETED := 6
  const COMPLETED := 8

  // ----- The rank table -----

  function PhaseRank(p: Phase): (r: nat)
    ensures r <= 5
  {
    match p
    case NoReport => 0
    case Rectifying => 1
    case Compiling => 2
    case Reviewed => 3
    case Issued => 4
    case Archived => 5
  }

  function PhaseOf(r: nat): Phase
    requires r <= 5
  {
    if r == 0 then NoReport else if r == 1 then Rectifying else if r == 2 then Compiling
    else if r == 3 then Reviewed else if r == 4 then Issued else Archived
  }

  function LifecycleRank(p: Phase): nat {
    match p
    case NoReport => 6
    case Archived => 8
    case _ => 7
  }

  predicate Active(i: Item) {
    !i.status.Terminated?
  }

  /** The rank of one service item; an unknown status counts as the earliest stage. */
  function Rank(i: Item): (r: nat)
    ensures r <= COMPLETED
    ensures r >= FIELD_COMPLETED <==> i.status.FieldCompleted?
  {
    match i.status
    case FieldCompleted => if i.report.Known? && LifecycleRank(i.report.phase) > 6 then LifecycleRank(i.report.phase) else 6
    case Exception => 5
    case InProgress => 4
    case Preparing => 3
    case PendingExecution => 2
    case PendingAllocation => 1
    case _ => 0
  }

  // ----- What the folds compute -----

  function Actives(items: seq<Item>): nat {
    if items == [] then 0 else Actives(items[..|items| - 1]) + (if Active(items[|items| - 1]) then 1 else 0)
  }

  function TotalRank(items: seq<Item>): nat {
    if items == [] then 0
    else TotalRank(items[..|items| - 1]) + (if Active(items[|items| - 1]) then Rank(items[|items| - 1]) else 0)
  }

  /** `r` is the rank of the furthest-behind active item, or the highest rank when none is active. */
  ghost predicate Lowest(items: seq<Item>, r: nat) {
    && r <= COMPLETED
    && (forall i :: i in items && Active(i) ==> r <= Rank(i))
    && (r < COMPLETED ==> exists i :: i in items && Active(i) && Rank(i) == r)
  }

  /** The phase of an item in the report section; None when it has not got there or its code is unknown. */
  function PhaseRankOf(i: Item): Option<nat> {
    if Rank(i) < FIELD_COMPLETED || i.report.UnknownReport? then None
    else Some(PhaseRank(if i.report.Known? then i.report.phase else NoReport))
  }

  ghost predicate InReportSection(items: seq<Item>) {
    (exists i :: i in items && Active(i)) && forall i :: i in items && Active(i) ==> PhaseRankOf(i).Some?
  }

  ghost predicate LowestPhase(items: seq<Item>, p: Phase) {
    && (forall i :: i in items && Active(i) ==> PhaseRankOf(i).Some? && PhaseRank(p) <= PhaseRankOf(i).value)
    && exists i :: i in items && Active(i) && PhaseRankOf(i) == Some(PhaseRank(p))
  }

  ghost predicate StatusSpec(items: seq<Item>, supplement: bool, stored: Option<string>, s: Status) {
    if supplement then s == SupplementRequired
    else if items == [] then s == if stored.Some? then Stored(stored.value) else Node(0)
    else if Actives(items) == 0 then s == AllTerminated
    else s.Node? && Lowest(items, s.rank)
  }

  ghost predicate StageSpec(items: seq<Item>, stage: Option<Phase>) {
    if stage.Some? then LowestPhase(items, stage.value) else !InReportSection(items)
  }

  function Percent(total: nat, counted: nat): nat
    requires counted > 0
  {
    total * 100 / (COMPLETED * counted)
  }

  function Progress(items: seq<Item>): nat {
    if Actives(items) == 0 then 0 else Percent(TotalRank(items), Actives(items))
  }

  // ----- The folds -----

  lemma {:induction false} ActivesExist(items: seq<Item>)
    ensures Actives(items) <= |items|
    ensures Actives(items) > 0 <==> exists i :: i in items && Active(i)
  {
    if items != [] {
      var front := items[..|items| - 1];
      ActivesExist(front);
      assert items == front + [items[|items| - 1]];
      assert forall i :: i in items <==> i in front || i == items[|items| - 1];
    }
  }

  lemma TakeOneMore(items: seq<Item>, i: nat)
    requires i < |items|
    ensures items[..i + 1][..i] == items[..i] && items[..i + 1] == items[..i] + [items[i]]
    ensures forall x :: x in items[..i + 1] <==> x in items[..i] || x == items[i]
  {
    assert items[..i + 1] == items[..i] + [items[i]];
  }

  method DeriveProjectStatus(items: seq<Item>, supplement: bool, stored: Option<string>) returns (s: Status)
    ensures StatusSpec(items, supplement, stored, s)
  {
    if supplement {
      return SupplementRequired;
    }
    if |items| == 0 {
      return if stored.Some? then Stored(stored.value) else Node(0);
    }
    var lowest: nat, terminated: nat := COMPLETED, 0;
    var i := 0;
    while i < |items|
      invariant 0 <= i <= |items| && terminated == i - Actives(items[..i])
      invariant Lowest(items[..i], lowest)
    {
      TakeOneMore(items, i);
      if !Active(items[i]) {
        terminated := terminated + 1;
      } else if Rank(items[i]) < lowest {
        lowest := Rank(items[i]);
        assert items[i] in items[..i + 1];
      }
      i := i + 1;
    }
    assert items[..|items|] == items;
    if terminated == |items| {
      return AllTerminated;
    }
    s := Node(lowest);
  }

  method DeriveProjectReportStage(items: seq<Item>) returns (stage: Option<Phase>)
    ensures StageSpec(items, stage)
  {
    var lowestPhase: int, active: nat := -1, 0;
    var i := 0;
    while i < |items|
      invariant 0 <= i <= |items| && active == Actives(items[..i])
      invariant PhaseSoFar(items[..i], lowestPhase)
    {
      TakeOneMore(items, i);
      var item := items[i];
      if Active(item) {
        active := active + 1;
        var phase := PhaseRankOf(item);
        if phase.None? {
          assert item in items && Active(item);
          return None;
        }
        ExtendPhase(items[..i], item, lowestPhase);
        if lowestPhase < 0 || phase.value < lowestPhase {
          lowestPhase := phase.value;
        }
      } else {
        SkipPhase(items[..i], item, lowestPhase);
      }
      i := i + 1;
    }
    assert items[..|items|] == items;
    ActivesExist(items);
    if active == 0 {
      return None;
    }
    stage := Some(PhaseOf(lowestPhase));
  }

  /** The loop's running minimum, -1 before the first active item. */
  ghost predicate PhaseSoFar(items: seq<Item>, lowestPhase: int) {
    if Actives(items) == 0 then lowestPhase == -1
    else 0 <= lowestPhase <= 5 && LowestPhase(items, PhaseOf(lowestPhase))
  }

  lemma ExtendPhase(front: seq<Item>, item: Item, lowestPhase: int)
    requires PhaseSoFar(front, lowestPhase) && Active(item) && PhaseRankOf(item).Some?
    ensures var phase := PhaseRankOf(item).value;
            PhaseSoFar(front + [item], if lowestPhase < 0 || phase < lowestPhase then phase else lowestPhase)
  {
    ActivesExist(front);
    assert (front + [item])[..|front|] == front;
    assert forall x :: x in front + [item] <==> x in front || x == item;
  }

  lemma SkipPhase(front: seq<Item>, item: Item, lowestPhase: int)
    requires PhaseSoFar(front, lowestPhase) && !Active(item)
    ensures PhaseSoFar(front + [item], lowestPhase)
  {
    assert (front + [item])[..|front|] == front;
    assert forall x :: x in front + [item] <==> x in front || x == item;
  }

  method DeriveProjectProgress(items: seq<Item>) returns (percent: nat)
    ensures percent == Progress(items)
  {
    var total, counted := 0, 0;
    var i := 0;
    while i < |items|
      invariant 0 <= i <= |items| && total == TotalRank(items[..i]) && counted == Actives(items[..i])
    {
      TakeOneMore(items, i);
      if Active(items[i]) {
        total := total + Rank(items[i]);
        counted := counted + 1;
      }
      i := i + 1;
    }
    assert items[..|items|] == items;
    if counted == 0 {
      return 0;
    }
    percent := Percent(total, counted);
  }

  // ----- The three agree -----

  /** A phase earlier in the report chain never has a later lifecycle rank. */
  lemma PhasesFollowTheLifecycle(p: Phase, q: Phase)
    requires PhaseRank(p) <= PhaseRank(q)
    ensures LifecycleRank(p) <= LifecycleRank(q)
  {
  }

  lemma RankOfPhase(i: Item)
    requires PhaseRankOf(i).Some?
    ensures Rank(i) == LifecycleRank(PhaseOf(PhaseRankOf(i).value))
  {
  }

  /** A project with a report stage has exactly the status that stage stands for. */
  lemma StageFixesStatus(items: seq<Item>, stored: Option<string>, s: Status, stage: Phase)
    requires StatusSpec(items, false, stored, s) && StageSpec(items, Some(stage))
    ensures s == Node(LifecycleRank(stage))
  {
    ActivesExist(items);
    var w :| w in items && Active(w) && PhaseRankOf(w) == Some(PhaseRank(stage));
    RankOfPhase(w);
    assert s.rank <= Rank(w);
    if s.rank < COMPLETED {
      var v :| v in items && Active(v) && Rank(v) == s.rank;
      RankOfPhase(v);
      PhasesFollowTheLifecycle(stage, PhaseOf(PhaseRankOf(v).value));
    }
  }

  lemma {:induction false} RankBounds(items: seq<Item>, r: nat)
    requires forall i :: i in items && Active(i) ==> r <= Rank(i)
    ensures r * Actives(items) <= TotalRank(items) <= COMPLETED * Actives(items)
    ensures TotalRank(items) == COMPLETED * Actives(items) <==> forall i :: i in items && Active(i) ==> Rank(i) == COMPLETED
  {
    if items != [] {
      var front, last := items[..|items| - 1], items[|items| - 1];
      assert forall i :: i in items <==> i in front || i == last;
      RankBounds(front, r);
      assert r * (Actives(front) + 1) == r * Actives(front) + r;
    }
  }

  lemma MulCancel(x: int, y: int, b: int)
    requires b > 0 && x * b < y * b
    ensures x < y
  {
  }

  /** Percent is the largest q with q * 8 * counted <= total * 100. */
  lemma PercentSpec(total: nat, counted: nat, q: nat)
    requires counted > 0
    ensures q <= Percent(total, counted) <==> q * (COMPLETED * counted) <= total * 100
  {
    var a, b, r := total * 100, COMPLETED * counted, Percent(total, counted);
    assert a == r * b + a % b;
    assert (r + 1) * b == r * b + b;
    if q * b <= a {
      MulCancel(q, r + 1, b);
    } else {
      MulCancel(r, q, b);
    }
  }

  lemma ScaledShare(total: nat, counted: nat, r: nat)
    requires counted > 0 && r * counted <= total <= COMPLETED * counted
    ensures r * 100 / COMPLETED <= Percent(total, counted) <= 100
    ensures Percent(total, counted) == 100 <==> total == COMPLETED * counted
  {
    var q := r * 100 / COMPLETED;
    assert q * COMPLETED <= r * 100;
    assert (q * COMPLETED) * counted <= (r * 100) * counted;
    assert q * (COMPLETED * counted) == (q * COMPLETED) * counted;
    assert (r * 100) * counted == 100 * (r * counted);
    PercentSpec(total, counted, q);
    PercentSpec(total, counted, 100);
    PercentSpec(total, counted, 101);
  }

  /** Progress lies between the furthest-behind item's share and 100; it is 100 iff every active item is done. */
  lemma ProgressBounds(items: seq<Item>, r: nat)
    requires Actives(items) > 0 && Lowest(items, r)
    ensures r * 100 / COMPLETED <= Progress(items) <= 100
    ensures Progress(items) == 100 <==> r == COMPLETED
  {
    RankBounds(items, r);
    ScaledShare(TotalRank(items), Actives(items), r);
  }

  /** Completed status, archived stage and progress 100 are one and the same condition. */
  lemma CompletionAgrees(items: seq<Item>, stored: Option<string>, s: Status, stage: Option<Phase>)
    requires items != [] && StatusSpec(items, false, stored, s) && StageSpec(items, stage)
    ensures Progress(items) == 100 <==> s == Node(COMPLETED)
    ensures s == Node(COMPLETED) <==> stage == Some(Archived)
  {
    ActivesExist(items);
    if Actives(items) > 0 {
      ProgressBounds(items, s.rank);
      if stage.Some? {
        StageFixesStatus(items, stored, s, stage.value);
      } else {
        var w :| w in items && Active(w) && PhaseRankOf(w).None?;
        assert Rank(w) < COMPLETED;
      }
    }
  }

  // ----- Order does not matter -----

  lemma SameElements(a: seq<Item>, b: seq<Item>)
    requires multiset(a) == multiset(b)
    ensures forall i :: i in a <==> i in b
  {
    assert forall i :: i in a <==> i in multiset(a);
    assert forall i :: i in b <==> i in multiset(b);
  }

  lemma {:induction false} SumsRemoveAt(items: seq<Item>, k: nat)
    requires k < |items|
    ensures var rest := items[..k] + items[k + 1..];
            && Actives(items) == Actives(rest) + (if Active(items[k]) then 1 else 0)
            && TotalRank(items) == TotalRank(rest) + (if Active(items[k]) then Rank(items[k]) else 0)
  {
    var n := |items| - 1;
    var rest := items[..k] + items[k + 1..];
    if k == n {
      assert rest == items[..n];
    } else {
      assert items[..n][..k] + items[..n][k + 1..] == rest[..|rest| - 1];
      SumsRemoveAt(items[..n], k);
    }
  }

  lemma RemoveFromBoth(a: seq<Item>, b: seq<Item>, k: nat)
    requires a != [] && k < |b| && b[k] == a[|a| - 1] && multiset(a) == multiset(b)
    ensures multiset(a[..|a| - 1]) == multiset(b[..k] + b[k + 1..])
  {
    var front, rest := a[..|a| - 1], b[..k] + b[k + 1..];
    assert a == front + [b[k]];
    assert multiset(a) == multiset(front) + multiset{b[k]};
    assert b == b[..k] + [b[k]] + b[k + 1..];
    assert multiset(b) == multiset(b[..k]) + multiset{b[k]} + multiset(b[k + 1..]);
    assert multiset(rest) == multiset(b[..k]) + multiset(b[k + 1..]);
    assert multiset(front) == multiset(a) - multiset{b[k]};
    assert multiset(rest) == multiset(b) - multiset{b[k]};
  }

  lemma {:induction false} SumsPermute(a: seq<Item>, b: seq<Item>)
    requires multiset(a) == multiset(b)
    ensures Actives(a) == Actives(b) && TotalRank(a) == TotalRank(b)
    decreases |a|
  {
    assert |multiset(a)| == |a| && |multiset(b)| == |b|;
    if a != [] {
      var n := |a| - 1;
      assert a[n] in multiset(a);
      var k :| 0 <= k < |b| && b[k] == a[n];
      RemoveFromBoth(a, b, k);
      SumsRemoveAt(b, k);
      SumsPermute(a[..n], b[..k] + b[k + 1..]);
    }
  }

  /** All three derived values depend only on which items there are, not on their order. */
  lemma OrderIrrelevant(a: seq<Item>, b: seq<Item>, supplement: bool, stored: Option<string>, s: Status, stage: Option<Phase>)
    requires multiset(a) == multiset(b)
    ensures StatusSpec(a, supplement, stored, s) <==> StatusSpec(b, supplement, stored, s)
    ensures StageSpec(a, stage) <==> StageSpec(b, stage)
    ensures Progress(a) == Progress(b)
  {
    SameElements(a, b);
    SumsPermute(a, b);
    assert |multiset(a)| == |a| && |multiset(b)| == |b|;
  }

  /** The specifications leave no choice. */
  lemma DerivedValuesUnique(items: seq<Item>, supplement: bool, stored: Option<string>,
                            s: Status, s': Status, stage: Option<Phase>, stage': Option<Phase>)
    requires StatusSpec(items, supplement, stored, s) && StatusSpec(items, supplement, stored, s')
    requires StageSpec(items, stage) && StageSpec(items, stage')
    ensures s == s' && stage == stage'
  {
    if stage.Some? {
      LowestIsInSection(items, stage.value);
    }
    if stage'.Some? {
      LowestIsInSection(items, stage'.value);
    }
  }

  lemma LowestIsInSection(items: seq<Item>, p: Phase)
    requires LowestPhase(items, p)
    ensures InReportSection(items)
    ensures forall q :: LowestPhase(items, q) ==> q == p
  {
  }

  // ----- Progress is monotone -----

  /** Advancing one active item never moves the project back. */
  lemma AdvancingNeverLowers(items: seq<Item>, k: nat, next: Item, stored: Option<string>, s: Status, s': Status)
    requires k < |items| && Active(items[k]) && Active(next) && Rank(items[k]) <= Rank(next)
    requires StatusSpec(items, false, stored, s) && StatusSpec(items[k := next], false, stored, s')
    ensures s.Node? && s'.Node? && s.rank <= s'.rank
    ensures Progress(items) <= Progress(items[k := next])
  {
    var items' := items[k := next];
    assert items[..k] + items[k + 1..] == items'[..k] + items'[k + 1..];
    SumsRemoveAt(items, k);
    SumsRemoveAt(items', k);
    ActivesExist(items);
    ActivesExist(items');
    assert items[k] in items && items'[k] in items';
    if s'.rank < COMPLETED {
      var w :| w in items' && Active(w) && Rank(w) == s'.rank;
      if w != next {
        assert w in items;
      }
    }
    PercentSpec(TotalRank(items), Actives(items), Progress(items));
    PercentSpec(TotalRank(items'), Actives(items), Progress(items));
  }
}
