/**
 * The derived values of a project in terms of what its items say: status, report stage, progress, and what a
 * snapshot shows of it.
 */
module StatusEffects {
  import opened Options
  import opened ProjectStatus
  import opened Projections

  // ----- One item -----

  /** A completed item that has got as far as this phase; one without a report has not begun any. */
  predicate InPhase(i: Item, p: Phase) {
    i.status == FieldCompleted && (i.report == Known(p) || (p == NoReport && i.report == Report.Blank))
  }

  /** The nodes an item can stand at, and what puts it there; anything else counts as not yet taken apart. */
  lemma RankIs(i: Item)
    ensures Rank(i) == 1 <==> i.status == PendingAllocation
    ensures Rank(i) == 2 <==> i.status == PendingExecution
    ensures Rank(i) == 3 <==> i.status == Preparing
    ensures Rank(i) == 4 <==> i.status == InProgress
    ensures Rank(i) == 5 <==> i.status == Exception
    ensures Rank(i) == 7
      <==> InPhase(i, Rectifying) || InPhase(i, Compiling) || InPhase(i, Reviewed) || InPhase(i, Issued)
    ensures Rank(i) == 8 <==> InPhase(i, Archived)
    ensures Rank(i) == 6 <==> i.status == FieldCompleted && Rank(i) != 7 && Rank(i) != 8
  {
  }

  // ----- The project -----

  /** No item is left to work on. */
  ghost predicate NoneActive(items: seq<Item>) {
    forall i :: i in items ==> i.status == Terminated
  }

  /** Some active item stands at the node, and none behind it. */
  ghost predicate FurthestBehind(items: seq<Item>, node: nat) {
    && (exists i :: i in items && i.status != Terminated && Rank(i) == node)
    && forall i :: i in items && i.status != Terminated ==> Rank(i) >= node
  }

  /** A project's status: the supplement, what is stored, the end of all work, or its furthest-behind node. */
  lemma StatusIff(items: seq<Item>, supplement: bool, stored: Option<string>, s: Status)
    ensures StatusSpec(items, supplement, stored, s) <==>
      if supplement then s == SupplementRequired
      else if items == [] then s == (match stored case None => Node(0) case Some(text) => Stored(text))
      else if NoneActive(items) then s == AllTerminated
      else s.Node? && FurthestBehind(items, s.rank)
  {
    ActivesExist(items);
  }

  const CHAIN: seq<Phase> := [NoReport, Rectifying, Compiling, Reviewed, Issued, Archived]

  /** All active items have completed their field work, and say how far their reports are. */
  ghost predicate AllInReport(items: seq<Item>) {
    !NoneActive(items) && forall i :: i in items && i.status != Terminated ==> exists p :: InPhase(i, p)
  }

  /** A project has a report stage exactly if all active items have, and then it is the earliest of theirs. */
  lemma StageIff(items: seq<Item>, stage: Option<Phase>)
    ensures StageSpec(items, stage) <==>
      if !AllInReport(items) then stage == None
      else && stage.Some? && (exists i :: i in items && InPhase(i, stage.value))
           && forall i, p :: i in items && InPhase(i, p) ==> !Precedes(p, stage.value)
  {
    forall i ensures PhaseRankOf(i).Some? <==> exists p :: InPhase(i, p) {
      if PhaseRankOf(i).Some? {
        assert InPhase(i, if i.report.Known? then i.report.phase else NoReport);
      }
    }
    forall p, q ensures Precedes(p, q) <==> PhaseRank(p) < PhaseRank(q) { PrecedesIff(p, q); }
    forall i, p ensures InPhase(i, p) <==> PhaseRankOf(i) == Some(PhaseRank(p)) { }
    assert AllInReport(items) <==> InReportSection(items);
    if AllInReport(items) && stage.Some? {
      forall i | i in items && Active(i)
        ensures exists p :: InPhase(i, p) && PhaseRankOf(i) == Some(PhaseRank(p))
      {
        var p :| InPhase(i, p);
      }
    }
  }

  /** The phases follow each other in this order. */
  ghost predicate Precedes(p: Phase, q: Phase) {
    exists j, k :: 0 <= j < k < 6 && CHAIN[j] == p && CHAIN[k] == q
  }

  lemma PrecedesIff(p: Phase, q: Phase)
    ensures Precedes(p, q) <==> PhaseRank(p) < PhaseRank(q)
  {
    assert CHAIN[PhaseRank(p)] == p && CHAIN[PhaseRank(q)] == q;
  }

  // ----- Progress -----

  /** Progress is the share of all steps that the active items have taken: of eight each. */
  lemma ProgressIs(items: seq<Item>)
    ensures Progress(items) == if Actives(items) == 0 then 0 else TotalRank(items) * 100 / (8 * Actives(items))
    ensures Actives(items) == |set k | 0 <= k < |items| && items[k].status != Terminated|
  {
    CountActives(items);
  }

  lemma {:induction false} CountActives(items: seq<Item>)
    ensures Actives(items) == |set k | 0 <= k < |items| && items[k].status != Terminated|
  {
    if items != [] {
      var front, n := items[..|items| - 1], |items| - 1;
      CountActives(front);
      var before := set k | 0 <= k < |front| && front[k].status != Terminated;
      var after := set k | 0 <= k < |items| && items[k].status != Terminated;
      assert after == before + if items[n].status != Terminated then {n} else {};
    }
  }

  /** Each item counts for itself; a terminated one counts for nothing. */
  lemma {:induction false} TotalIsTheSum(a: seq<Item>, b: seq<Item>, i: Item)
    ensures TotalRank(a + b) == TotalRank(a) + TotalRank(b)
    ensures TotalRank([i]) == if i.status == Terminated then 0 else Rank(i)
  {
    assert [i][..0] == [];
    if b == [] {
      assert a + b == a;
    } else {
      assert (a + b)[..|a + b| - 1] == a + b[..|b| - 1];
      TotalIsTheSum(a, b[..|b| - 1], i);
    }
  }

  const SHARES: seq<nat> := [0, 12, 25, 37, 50, 62, 75, 87, 100]

  lemma OneItemProgress(i: Item)
    ensures Progress([i]) == if i.status == Terminated then 0 else SHARES[Rank(i)]
  {
    TotalIsTheSum([], [], i);
    assert [i][..0] == [];
    assert Actives([i]) == if Active(i) then 1 else 0;
    SharesAre(Rank(i));
  }

  lemma SharesAre(r: nat)
    requires r <= 8
    ensures SHARES[r] == r * 100 / 8
  {
  }

  // ----- The snapshot -----

  /** The items a snapshot shows: the ones not archived, in their order. */
  lemma {:induction false} CurrentIs(a: seq<SnapshotItem>, b: seq<SnapshotItem>, i: SnapshotItem)
    ensures Current(a + b) == Current(a) + Current(b)
    ensures Current([i]) == if i.archivedAt == None then [i.item] else []
  {
    assert [i][..0] == [];
    if b == [] {
      assert a + b == a;
    } else {
      assert (a + b)[..|a + b| - 1] == a + b[..|b| - 1];
      CurrentIs(a, b[..|b| - 1], i);
    }
  }

  /** A project is a risk if it is in exception or given up, or if any of its items was given up. */
  lemma AtRiskIff(s: Status, items: seq<Item>)
    ensures AtRisk(s, items) <==>
      || s == Node(5) || s == AllTerminated || s == Stored("异常处理中") || s == Stored("已终止")
      || exists i :: i in items && i.status == Terminated
  {
  }

  /** It is in flight until its items, or its stored status, say that it is completed. */
  lemma DoneIff(s: Status)
    ensures DoneStatus(s) <==> s == Node(8) || s == Stored("已完成")
  {
  }

  /** The stamp is the latest moment of the project, its source and all its items, their archiving included. */
  lemma LatestIff(p: Project, source: int, items: seq<SnapshotItem>, t: int)
    ensures Latest(p, source, items, t) <==>
      && p.createdAt <= t && p.updatedAt <= t && source <= t
      && (forall i :: i in items ==> i.updatedAt <= t && (i.archivedAt.Some? ==> i.archivedAt.value <= t))
      && (t in {p.createdAt, p.updatedAt, source}
          || exists i :: i in items && (i.updatedAt == t || i.archivedAt == Some(t)))
  {
    if Latest(p, source, items, t) {
      assert Touched(p, source, items, p.createdAt) && Touched(p, source, items, p.updatedAt);
      assert Touched(p, source, items, source);
      forall i | i in items ensures i.updatedAt <= t && (i.archivedAt.Some? ==> i.archivedAt.value <= t) {
        assert Touched(p, source, items, i.updatedAt);
        if i.archivedAt.Some? { assert Touched(p, source, items, i.archivedAt.value); }
      }
    }
  }
}
