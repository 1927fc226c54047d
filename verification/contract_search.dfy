/**
 * Cursor pagination over an upstream directory whose pages are filtered only after they are
 * read. Contract ids are represented by their rank in the upstream's id order; rank 0 is the
 * empty id, which as a cursor means "from the start" on the way in and "no more" on the way out.
 */
module ContractSearch {
  type Id = nat

  const MAX_PAGES := 20
  const DEFAULT_LIMIT := 50

  /** `approved` and `normal` come with the reference, `linked` from the project repository. */
  datatype Contract = Contract(id: Id, approved: bool, normal: bool, linked: bool)

  datatype Page = Page(references: seq<Contract>, next: Id)

  ghost predicate Ordered(cs: seq<Contract>) {
    forall i, j :: 0 <= i < j < |cs| ==> cs[i].id < cs[j].id
  }

  /** The search looks for eligible contracts, the dashboard counts pending ones. */
  datatype Filter = Eligible | Pending

  predicate Keeps(f: Filter, c: Contract) {
    match f
    case Eligible => c.id != 0 && c.approved && c.normal && !c.linked
    case Pending => c.normal && !c.linked
  }

  /** The kept contracts at positions a to b, in order. */
  function Select(f: Filter, cs: seq<Contract>, a: nat, b: nat): seq<Contract>
    requires a <= b <= |cs|
    decreases b
  {
    if a == b then [] else Select(f, cs, a, b - 1) + (if Keeps(f, cs[b - 1]) then [cs[b - 1]] else [])
  }

  /** Every eligible contract of a directory, in order. */
  function Eligibles(cs: seq<Contract>): seq<Contract> {
    Select(Eligible, cs, 0, |cs|)
  }

  /** The position behind a cursor, counted from position i on. */
  function Skip(cs: seq<Contract>, cursor: Id, i: nat): (k: nat)
    requires i <= |cs|
    ensures i <= k <= |cs|
    decreases |cs| - i
  {
    if i == |cs| || cs[i].id > cursor then i else Skip(cs, cursor, i + 1)
  }

  function Behind(cs: seq<Contract>, cursor: Id): (k: nat)
    ensures k <= |cs|
  {
    Skip(cs, cursor, 0)
  }

  lemma {:induction false} SkipSpec(cs: seq<Contract>, cursor: Id, i: nat)
    requires i <= |cs|
    ensures var k := Skip(cs, cursor, i);
            (forall j :: i <= j < k ==> cs[j].id <= cursor) && (k < |cs| ==> cs[k].id > cursor)
    decreases |cs| - i
  {
    if i < |cs| && cs[i].id <= cursor {
      SkipSpec(cs, cursor, i + 1);
    }
  }

  /** The eligible contracts behind a cursor. */
  function Rest(cs: seq<Contract>, cursor: Id): seq<Contract> {
    Select(Eligible, cs, Behind(cs, cursor), |cs|)
  }

  /**
   * What the upstream promises for a fixed directory: a page holds the contracts right behind the
   * cursor, an empty next cursor means nothing is left, and any other is the page's last id.
   */
  ghost predicate PageOk(p: Page, cs: seq<Contract>, k: nat) {
    && k + |p.references| <= |cs| && p.references == cs[k..k + |p.references|]
    && (if p.next == 0 then k + |p.references| == |cs|
        else p.references != [] && p.next == p.references[|p.references| - 1].id)
  }

  ghost predicate Serves(list: Id -> Page, cs: seq<Contract>) {
    forall cursor {:trigger Behind(cs, cursor)} :: PageOk(list(cursor), cs, Behind(cs, cursor))
  }

  lemma {:induction false} SelectSplit(f: Filter, cs: seq<Contract>, a: nat, m: nat, b: nat)
    requires a <= m <= b <= |cs|
    ensures Select(f, cs, a, b) == Select(f, cs, a, m) + Select(f, cs, m, b)
    decreases b
  {
    if m < b {
      SelectSplit(f, cs, a, m, b - 1);
    }
  }

  /** Selecting on a page is selecting on the directory at the page's position. */
  lemma {:induction false} SelectShift(f: Filter, cs: seq<Contract>, k: nat, page: seq<Contract>, i: nat)
    requires k + |page| <= |cs| && page == cs[k..k + |page|] && i <= |page|
    ensures Select(f, page, 0, i) == Select(f, cs, k, k + i)
  {
    if i > 0 {
      SelectShift(f, cs, k, page, i - 1);
      assert page[i - 1] == cs[k + (i - 1)];
    }
  }

  /** Reading behind the id at a position resumes right after that position. */
  lemma BehindPosition(cs: seq<Contract>, j: nat)
    requires Ordered(cs) && j < |cs|
    ensures Behind(cs, cs[j].id) == j + 1
  {
    var k := Behind(cs, cs[j].id);
    if j + 1 < |cs| {
      assert cs[j].id < cs[j + 1].id;
    }
    if k < j {
      assert cs[k].id < cs[j].id;
    }
    SkipSpec(cs, cs[j].id, 0);
  }

  ghost predicate Advanced(cs: seq<Contract>, from: Id, to: Id) {
    to > from && Behind(cs, to) > Behind(cs, from)
  }

  /** Moving a cursor to the id at a later position splits what is left at that position. */
  lemma Advance(f: Filter, cs: seq<Contract>, cursor: Id, j: nat)
    requires Ordered(cs) && Behind(cs, cursor) <= j < |cs|
    ensures Advanced(cs, cursor, cs[j].id) && Behind(cs, cs[j].id) == j + 1
    ensures Select(f, cs, Behind(cs, cursor), |cs|)
         == Select(f, cs, Behind(cs, cursor), j + 1) + Select(f, cs, j + 1, |cs|)
  {
    BehindPosition(cs, j);
    SkipSpec(cs, cursor, 0);
    var k := Behind(cs, cursor);
    assert cs[k].id <= cs[j].id;
    SelectSplit(f, cs, k, j + 1, |cs|);
  }

  function EffectiveLimit(limit: int): (n: nat)
    ensures 1 <= n <= 100
  {
    if limit <= 0 || limit > 100 then DEFAULT_LIMIT else limit
  }

  /** Appends the eligible contracts of a page one by one and stops right at the bound. */
  method TakePage(references: seq<Contract>, before: seq<Contract>, bound: nat)
    returns (items: seq<Contract>, i: nat, full: bool)
    requires |before| < bound
    ensures i <= |references| && items == before + Select(Eligible, references, 0, i)
    ensures if full then 0 < i && |items| == bound && items[|items| - 1] == references[i - 1]
            else i == |references| && |items| < bound
  {
    items, i, full := before, 0, false;
    while i < |references|
      invariant i <= |references| && |items| < bound && !full
      invariant items == before + Select(Eligible, references, 0, i)
    {
      var item := references[i];
      i := i + 1;
      if Keeps(Eligible, item) {
        items := items + [item];
        if |items| >= bound {
          full := true;
          return;
        }
      }
    }
  }

  /** The cursors of one page after the other. */
  ghost predicate Walks(list: Id -> Page, path: seq<Id>) {
    path != [] && forall i :: 0 <= i < |path| - 1 ==> path[i + 1] == list(path[i]).next
  }

  lemma WalkOn(list: Id -> Page, path: seq<Id>)
    requires Walks(list, path)
    ensures Walks(list, path + [list(path[|path| - 1]).next])
  {
  }

  /**
   * One search. Its items and whatever lies behind the returned cursor make up exactly the eligible
   * contracts behind the given cursor; an empty cursor is returned only when nothing eligible is left. It stops
   * short of that only when it is full, right behind its last item, or after twenty pages.
   */
  method Search(list: Id -> Page, ghost cs: seq<Contract>, afterID: Id, limit: int)
    returns (items: seq<Contract>, next: Id, ghost path: seq<Id>)
    requires Ordered(cs) && Serves(list, cs)
    ensures Rest(cs, afterID) == items + (if next == 0 then [] else Rest(cs, next))
    ensures |items| <= EffectiveLimit(limit)
    ensures next != 0 ==> Advanced(cs, afterID, next)
    ensures next != 0 ==> if |items| == EffectiveLimit(limit) then next == items[|items| - 1].id
                          else |path| == 21 && path[0] == afterID && path[20] == next && Walks(list, path)
  {
    var bound := EffectiveLimit(limit);
    var cursor: Id := afterID;
    items := [];
    var page := 0;
    path := [afterID];
    while page < MAX_PAGES
      invariant 0 <= page <= MAX_PAGES && |items| < bound
      invariant |path| == page + 1 && path[0] == afterID && path[page] == cursor && Walks(list, path)
      invariant Rest(cs, afterID) == items + Rest(cs, cursor)
      invariant if page == 0 then cursor == afterID else Advanced(cs, afterID, cursor)
    {
      var p := list(cursor);
      assert PageOk(p, cs, Behind(cs, cursor));
      ghost var before := items;
      var i, full;
      items, i, full := TakePage(p.references, items, bound);
      PageStep(cs, cursor, p, i, before, Rest(cs, afterID));
      if full {
        return items, p.references[i - 1].id, path;
      }
      if p.next == 0 || p.next == cursor {
        return items, 0, path;
      }
      WalkOn(list, path);
      cursor := p.next;
      page := page + 1;
      path := path + [cursor];
    }
    next := cursor;
  }

  /** Where the search stands after the first i references of a page, `total` being all it must still account for. */
  lemma PageStep(cs: seq<Contract>, cursor: Id, p: Page, i: nat, before: seq<Contract>, total: seq<Contract>)
    requires Ordered(cs) && PageOk(p, cs, Behind(cs, cursor)) && i <= |p.references|
    requires total == before + Rest(cs, cursor)
    ensures var items := before + Select(Eligible, p.references, 0, i);
            && (i > 0 ==> var id := p.references[i - 1].id; total == items + Rest(cs, id) && Advanced(cs, cursor, id))
            && (i == |p.references| && p.next == 0 ==> total == items)
  {
    var k := Behind(cs, cursor);
    SelectShift(Eligible, cs, k, p.references, i);
    if i > 0 {
      assert p.references[i - 1] == cs[k + (i - 1)];
      Advance(Eligible, cs, cursor, k + i - 1);
    }
  }

  /**
   * Following the returned cursor until it is empty, with any limits, yields every eligible contract
   * of the directory exactly once and in order.
   */
  method SearchAll(list: Id -> Page, ghost cs: seq<Contract>, limits: nat -> int)
    returns (found: seq<Contract>, ghost calls: nat)
    requires Ordered(cs) && Serves(list, cs)
    ensures found == Eligibles(cs)
    ensures calls <= |cs| + 1
  {
    var cursor: Id := 0;
    found, calls := [], 0;
    SkippedAreIneligible(cs);
    var round := 0;
    while true
      invariant Eligibles(cs) == found + Rest(cs, cursor)
      invariant calls <= Behind(cs, cursor)
      decreases |cs| - Behind(cs, cursor)
    {
      var items, next, _ := Search(list, cs, cursor, limits(round));
      found := found + items;
      round := round + 1;
      calls := calls + 1;
      if next == 0 {
        return;
      }
      cursor := next;
    }
  }

  /** A contract without an id is never eligible, so starting behind the empty cursor loses nothing. */
  lemma SkippedAreIneligible(cs: seq<Contract>)
    ensures Eligibles(cs) == Rest(cs, 0)
  {
    var k := Behind(cs, 0);
    SkipSpec(cs, 0, 0);
    NoneEligible(cs, k);
    SelectSplit(Eligible, cs, 0, k, |cs|);
  }

  lemma {:induction false} NoneEligible(cs: seq<Contract>, k: nat)
    requires k <= |cs| && forall j :: 0 <= j < k ==> cs[j].id == 0
    ensures Select(Eligible, cs, 0, k) == []
  {
    if k > 0 {
      NoneEligible(cs, k - 1);
    }
  }

  lemma {:induction false} SelectMember(f: Filter, cs: seq<Contract>, b: nat, c: Contract)
    requires b <= |cs|
    ensures c in Select(f, cs, 0, b) <==> Keeps(f, c) && exists j :: 0 <= j < b && cs[j] == c
  {
    if b > 0 { SelectMember(f, cs, b - 1, c); }
  }

  lemma {:induction false} SelectOrdered(f: Filter, cs: seq<Contract>, b: nat)
    requires Ordered(cs) && b <= |cs|
    ensures Ordered(Select(f, cs, 0, b))
  {
    if b > 0 {
      var before := Select(f, cs, 0, b - 1);
      SelectOrdered(f, cs, b - 1);
      forall i | 0 <= i < |before| ensures before[i].id < cs[b - 1].id {
        SelectMember(f, cs, b - 1, before[i]);
      }
    }
  }

  /** The eligible contracts found are those of the directory, each once, in id order. */
  lemma EligiblesExact(cs: seq<Contract>, b: nat)
    requires Ordered(cs) && b <= |cs|
    ensures var r := Select(Eligible, cs, 0, b);
            && Ordered(r) && (forall j :: 0 <= j < b && Keeps(Eligible, cs[j]) ==> cs[j] in r)
            && forall i :: 0 <= i < |r| ==> Keeps(Eligible, r[i]) && exists j :: 0 <= j < b && cs[j] == r[i]
  {
    SelectOrdered(Eligible, cs, b);
    forall c ensures c in Select(Eligible, cs, 0, b) <==> Keeps(Eligible, c) && exists j :: 0 <= j < b && cs[j] == c {
      SelectMember(Eligible, cs, b, c);
    }
  }

  // ----- The dashboard's pending count -----

  /** A page that names a next cursor moves it forward. */
  lemma NextAdvances(list: Id -> Page, cs: seq<Contract>, cursor: Id)
    requires Ordered(cs) && Serves(list, cs) && list(cursor).next != 0
    ensures Advanced(cs, cursor, list(cursor).next)
  {
    assert PageOk(list(cursor), cs, Behind(cs, cursor));
    var k := Behind(cs, cursor);
    Advance(Pending, cs, cursor, k + |list(cursor).references| - 1);
  }

  /** What lies behind a cursor is its page and what lies behind the next. */
  lemma PendingPage(list: Id -> Page, cs: seq<Contract>, cursor: Id)
    requires Ordered(cs) && Serves(list, cs)
    ensures |Select(Pending, cs, Behind(cs, cursor), |cs|)|
         == |Select(Pending, list(cursor).references, 0, |list(cursor).references|)|
            + if list(cursor).next == 0 then 0 else |Select(Pending, cs, Behind(cs, list(cursor).next), |cs|)|
  {
    var p, k := list(cursor), Behind(cs, cursor);
    assert PageOk(p, cs, k);
    SelectShift(Pending, cs, k, p.references, |p.references|);
    if p.next != 0 { Advance(Pending, cs, cursor, k + |p.references| - 1); }
  }

  /** The cursors a walk over all pages asks for, from this one on. */
  ghost function Visited(list: Id -> Page, cs: seq<Contract>, cursor: Id): set<Id>
    requires Ordered(cs) && Serves(list, cs)
    decreases |cs| - Behind(cs, cursor)
  {
    if list(cursor).next == 0 then {cursor}
    else
      NextAdvances(list, cs, cursor);
      {cursor} + Visited(list, cs, list(cursor).next)
  }

  /** Counts the normal contracts without a project over all pages; available iff no page asked for fails. */
  method PendingProjectCreation(list: Id -> Page, ghost cs: seq<Contract>, pageFails: Id -> bool)
    returns (pending: nat, available: bool)
    requires Ordered(cs) && Serves(list, cs)
    ensures available ==> pending == |Select(Pending, cs, Behind(cs, 0), |cs|)|
    ensures available <==> forall cursor :: cursor in Visited(list, cs, 0) ==> !pageFails(cursor)
  {
    var cursor: Id := 0;
    pending, available := 0, false;
    while true
      invariant |Select(Pending, cs, Behind(cs, 0), |cs|)| == pending + |Select(Pending, cs, Behind(cs, cursor), |cs|)|
      invariant !available
      invariant (forall c :: c in Visited(list, cs, 0) ==> !pageFails(c))
           <==> (forall c :: c in Visited(list, cs, cursor) ==> !pageFails(c))
      decreases |cs| - Behind(cs, cursor)
    {
      assert cursor in Visited(list, cs, cursor);
      if pageFails(cursor) {
        return;
      }
      var p := list(cursor);
      PendingPage(list, cs, cursor);
      pending := pending + |Select(Pending, p.references, 0, |p.references|)|;
      if p.next == 0 {
        return pending, true;
      }
      NextAdvances(list, cs, cursor);
      if p.next == cursor {
        return;
      }
      cursor := p.next;
    }
  }

  // ----- In terms of the directory -----

  /** A limit from one to a hundred counts as given. */
  lemma EffectiveLimitIs(limit: int)
    ensures EffectiveLimit(limit) == if 1 <= limit <= 100 then limit else 50
  {
  }

  /** A search offers the approved and normal contracts that have an id and no project yet. */
  lemma EligibleIff(cs: seq<Contract>, c: Contract)
    requires Ordered(cs)
    ensures c in Eligibles(cs) <==> c in cs && c.id != 0 && c.approved && c.normal && !c.linked
  {
    EligiblesExact(cs, |cs|);
    if c in Eligibles(cs) {
      var i :| 0 <= i < |Eligibles(cs)| && Eligibles(cs)[i] == c;
    }
  }

  /** The dashboard counts the normal contracts without a project, approved or not. */
  lemma {:induction false} PendingIs(cs: seq<Contract>, a: nat, b: nat)
    requires a <= b <= |cs|
    ensures |Select(Pending, cs, a, b)| == |set j | a <= j < b && cs[j].normal && !cs[j].linked|
    decreases b
  {
    if a < b {
      PendingIs(cs, a, b - 1);
      var before, after := set j | a <= j < b - 1 && cs[j].normal && !cs[j].linked,
                           set j | a <= j < b && cs[j].normal && !cs[j].linked;
      assert after == before + if cs[b - 1].normal && !cs[b - 1].linked then {b - 1} else {};
    }
  }

  /** What lies behind a cursor are exactly the contracts with a later id. */
  lemma BehindIff(cs: seq<Contract>, cursor: Id, j: nat)
    requires Ordered(cs) && j < |cs|
    ensures Behind(cs, cursor) <= j <==> cs[j].id > cursor
  {
    SkipSpec(cs, cursor, 0);
    var k := Behind(cs, cursor);
    if k < j { assert cs[k].id < cs[j].id; }
  }

  /** A walk asks for a cursor exactly if following the pages leads there before one of them ends it. */
  lemma {:induction false} VisitedIff(list: Id -> Page, cs: seq<Contract>, cursor: Id, c: Id)
    requires Ordered(cs) && Serves(list, cs)
    ensures c in Visited(list, cs, cursor) <==> exists path :: LeadsTo(list, cursor, path, c)
    decreases |cs| - Behind(cs, cursor)
  {
    var next := list(cursor).next;
    if c == cursor { assert LeadsTo(list, cursor, [cursor], c); }
    if next != 0 {
      NextAdvances(list, cs, cursor);
      VisitedIff(list, cs, next, c);
      if path :| LeadsTo(list, next, path, c) { assert LeadsTo(list, cursor, [cursor] + path, c); }
    }
    if path :| LeadsTo(list, cursor, path, c) {
      if |path| > 1 {
        assert path[1] == list(path[0]).next;
        assert LeadsTo(list, next, path[1..], c);
      }
    }
  }

  /** The pages lead from the cursor to c, none of them being the last. */
  ghost predicate LeadsTo(list: Id -> Page, cursor: Id, path: seq<Id>, c: Id) {
    && Walks(list, path) && path[0] == cursor && path[|path| - 1] == c
    && forall i :: 1 <= i < |path| ==> path[i] != 0
  }
}
