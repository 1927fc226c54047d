/**
 * One project of a snapshot (internal/domain/project_snapshot.go): its derived values come from the items
 * that are not archived, its time stamp from everything.
 */
module Projections {
  import opened Options
  import opened ProjectStatus

  datatype SnapshotItem = SnapshotItem(item: Item, updatedAt: int, archivedAt: Option<int>)

  /** The fields a projection copies as they are. */
  datatype Details = Details(
    tenant: string, id: string, name: string, customer: string, customerID: string, contract: string,
    contractID: string, category: string, team: string, manager: string, managerIdentityID: string,
    ownerOrgID: string, ownerIdentityID: string)

  datatype Project = Project(
    details: Details, createdAt: int, updatedAt: int, supplement: bool, stored: Option<string>)

  datatype Projection = Projection(
    snapshot: string, details: Details, status: Status, stage: Option<Phase>, progress: nat, risk: bool,
    inFlight: bool, serviceItems: nat, createdAt: int, updatedAt: int, sourceUpdatedAt: int)

  /** The status texts that count as risk: a project in exception, or with every item terminated. */
  const EXCEPTION_RANK := 5
  const EXCEPTION_TEXT := "异常处理中"
  const TERMINATED_TEXT := "已终止"

  predicate RiskStatus(s: Status) {
    match s
    case Node(rank) => rank == EXCEPTION_RANK
    case AllTerminated => true
    case SupplementRequired => false
    case Stored(text) => text == EXCEPTION_TEXT || text == TERMINATED_TEXT
  }

  const COMPLETED_TEXT := "已完成"

  /** The project is reported as done, by its items or, without any, by its stored status. */
  predicate DoneStatus(s: Status) {
    s == Node(COMPLETED) || s == Stored(COMPLETED_TEXT)
  }

  /** A terminated item is a risk even where the others completed. */
  predicate AtRisk(s: Status, items: seq<Item>) {
    RiskStatus(s) || exists i :: i in items && !Active(i)
  }

  method IsRiskProject(s: Status, items: seq<Item>) returns (risk: bool)
    ensures risk <==> AtRisk(s, items)
  {
    if RiskStatus(s) {
      return true;
    }
    var i := 0;
    while i < |items|
      invariant i <= |items| && forall j :: 0 <= j < i ==> Active(items[j])
    {
      if !Active(items[i]) {
        return true;
      }
      i := i + 1;
    }
    risk := false;
  }

  /** The items that are not archived, in their order. */
  function Current(items: seq<SnapshotItem>): seq<Item> {
    if items == [] then []
    else
      var last := items[|items| - 1];
      Current(items[..|items| - 1]) + if last.archivedAt.None? then [last.item] else []
  }

  /** Every moment the project or one of its items, archived ones included, was touched. */
  predicate Touched(p: Project, source: int, items: seq<SnapshotItem>, t: int) {
    || t == p.updatedAt || t == p.createdAt || t == source
    || exists i :: i in items && (t == i.updatedAt || i.archivedAt == Some(t))
  }

  /** The last of those moments. */
  ghost predicate Latest(p: Project, source: int, items: seq<SnapshotItem>, t: int) {
    Touched(p, source, items, t) && forall u :: Touched(p, source, items, u) ==> u <= t
  }

  function Later(t: int, u: int): int {
    if u > t then u else t
  }

  lemma LatestGrows(p: Project, source: int, items: seq<SnapshotItem>, next: SnapshotItem, t: int)
    requires Latest(p, source, items, t)
    ensures var u := Later(t, next.updatedAt);
      Latest(p, source, items + [next], if next.archivedAt.Some? then Later(u, next.archivedAt.value) else u)
  {
    var more := items + [next];
    assert next in more;
    assert forall i :: i in more <==> i in items || i == next;
    var u := Later(t, next.updatedAt);
    var v := if next.archivedAt.Some? then Later(u, next.archivedAt.value) else u;
    forall w | Touched(p, source, more, w) ensures w <= v {
      assert Touched(p, source, items, w) || w == next.updatedAt || next.archivedAt == Some(w);
    }
    assert v == next.updatedAt || next.archivedAt == Some(v) || Touched(p, source, items, v);
  }

  method NewProjectProjection(p: Project, snapshot: string, source: int, items: seq<SnapshotItem>) returns (r: Projection)
    ensures StatusSpec(Current(items), p.supplement, p.stored, r.status)
    ensures StageSpec(Current(items), r.stage)
    ensures r.progress == Progress(Current(items)) && r.serviceItems == |Current(items)|
    ensures r.risk <==> AtRisk(r.status, Current(items))
    ensures r.inFlight <==> !DoneStatus(r.status)
    ensures Latest(p, source, items, r.sourceUpdatedAt)
    ensures r.snapshot == snapshot && r.details == p.details && r.createdAt == p.createdAt && r.updatedAt == p.updatedAt
  {
    var active: seq<Item> := [];
    var latest := Later(Later(p.updatedAt, p.createdAt), source);
    var i := 0;
    while i < |items|
      invariant i <= |items| && active == Current(items[..i])
      invariant Latest(p, source, items[..i], latest)
    {
      var item := items[i];
      assert items[..i + 1] == items[..i] + [item] && items[..i + 1][..i] == items[..i];
      LatestGrows(p, source, items[..i], item, latest);
      latest := Later(latest, item.updatedAt);
      if item.archivedAt.Some? {
        latest := Later(latest, item.archivedAt.value);
      } else {
        active := active + [item.item];
      }
      i := i + 1;
    }
    assert items[..i] == items;
    var status := DeriveProjectStatus(active, p.supplement, p.stored);
    var stage := DeriveProjectReportStage(active);
    var progress := DeriveProjectProgress(active);
    var risk := IsRiskProject(status, active);
    r := Projection(snapshot, p.details, status, stage, progress, risk, !DoneStatus(status), |active|,
                    p.createdAt, p.updatedAt, latest);
  }

  /**
   * What a snapshot reader may rely on: progress is a percentage, it is 100 exactly when the report stage is
   * archived, and outside the supplement branch those are the projects no longer in flight. A completed project
   * is a risk exactly when one of its items was terminated.
   */
  lemma ProjectionIsConsistent(p: Project, items: seq<SnapshotItem>, r: Projection)
    requires StatusSpec(Current(items), p.supplement, p.stored, r.status) && StageSpec(Current(items), r.stage)
    requires r.progress == Progress(Current(items)) && (r.inFlight <==> !DoneStatus(r.status))
    requires (r.risk <==> AtRisk(r.status, Current(items))) && Current(items) != []
    ensures r.progress <= 100
    ensures r.progress == 100 <==> r.stage == Some(Archived)
    ensures !p.supplement ==> (r.inFlight <==> r.progress < 100)
    ensures p.supplement ==> r.inFlight
    ensures !r.inFlight ==> (r.risk <==> exists i :: i in Current(items) && !Active(i))
  {
    var active := Current(items);
    ActivesExist(active);
    var least := LeastRank(active, |active|);
    LeastRankIsLowest(active, |active|);
    assert active[..|active|] == active;
    if Actives(active) > 0 { ProgressBounds(active, least); }
    var status := if Actives(active) == 0 then AllTerminated else Node(least);
    CompletionAgrees(active, p.stored, status, r.stage);
    if !p.supplement { CompletionAgrees(active, p.stored, r.status, r.stage); }
  }

  function LeastRank(items: seq<Item>, n: nat): (r: nat)
    requires n <= |items|
    ensures r <= COMPLETED
  {
    if n == 0 then COMPLETED
    else
      var r := LeastRank(items, n - 1);
      if Active(items[n - 1]) && Rank(items[n - 1]) < r then Rank(items[n - 1]) else r
  }

  lemma {:induction false} LeastRankIsLowest(items: seq<Item>, n: nat)
    requires n <= |items|
    ensures Lowest(items[..n], LeastRank(items, n))
  {
    if n > 0 {
      LeastRankIsLowest(items, n - 1);
      assert items[..n] == items[..n - 1] + [items[n - 1]];
      assert items[n - 1] in items[..n];
    }
  }
}
