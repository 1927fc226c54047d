/**
 * Who a delivery message goes to: every person of every role, read page by page from a directory that may
 * fail or contradict itself (internal/application/delivery_effects.go). A message is never partial.
 */
module Recipients {
  import opened Options
  import opened Sorting
  import opened Text

  const PAGE_SIZE := 50
  const LAST_PAGE := 10000
  const ID_LIMIT := 26

  // ----- The directory -----

  /** One answer of the directory: the page it claims to be, and the user identifiers on it as sent. */
  datatype Reply = Failed | Replied(number: int, size: int, total: int, items: seq<string>)

  /** What the directory answers for each role, page 1 first; a page it has no answer for is a failure. */
  type Directory = map<string, seq<Reply>>

  function ListPage(dir: Directory, role: string, n: nat): Reply
    requires n >= 1
  {
    if role in dir && n <= |dir[role]| then dir[role][n - 1] else Failed
  }

  // ----- What a complete role is -----

  predicate PageFits(reply: Reply, n: nat, total: int) {
    && reply.Replied? && reply.number == n && reply.size == PAGE_SIZE
    && reply.total == total >= 0 && |reply.items| <= PAGE_SIZE
  }

  function TrimAll(items: seq<string>): (ids: seq<string>)
    ensures |ids| == |items|
  {
    if items == [] then [] else TrimAll(items[..|items| - 1]) + [Trim(items[|items| - 1])]
  }

  function ItemsOf(reply: Reply): seq<string> {
    if reply.Replied? then reply.items else []
  }

  /** The trimmed identifiers of the first n pages, in order. */
  function Listing(dir: Directory, role: string, n: nat): seq<string> {
    if n == 0 then [] else Listing(dir, role, n - 1) + TrimAll(ItemsOf(ListPage(dir, role, n)))
  }

  /** The page on which a listing of this total ends; an empty listing still takes one page. */
  function PagesFor(total: int): (k: nat)
    ensures k >= 1 && k * PAGE_SIZE >= total && (k > 1 ==> (k - 1) * PAGE_SIZE < total)
  {
    if total <= PAGE_SIZE then 1 else 1 + PagesFor(total - PAGE_SIZE)
  }

  predicate ValidId(id: string) {
    id != "" && |id| <= ID_LIMIT
  }

  ghost predicate GoodIds(ids: seq<string>) {
    (forall i :: 0 <= i < |ids| ==> ValidId(ids[i])) && Distinct(ids)
  }

  function Total(dir: Directory, role: string): int {
    var first := ListPage(dir, role, 1);
    if first.Replied? then first.total else -1
  }

  function FullListing(dir: Directory, role: string): seq<string> {
    Listing(dir, role, PagesFor(Total(dir, role)))
  }

  ghost predicate PagesFit(dir: Directory, role: string, k: nat, total: int) {
    forall n :: 1 <= n <= k ==> PageFits(ListPage(dir, role, n), n, total)
  }

  /** Every page up to the last agrees on one total, and holds exactly that many valid, distinct people. */
  ghost predicate RoleComplete(dir: Directory, role: string) {
    var total := Total(dir, role);
    var k := PagesFor(total);
    && k <= LAST_PAGE
    && PagesFit(dir, role, k, total)
    && GoodIds(FullListing(dir, role))
    && |FullListing(dir, role)| == total > 0
  }

  // ----- Merging without repeats -----

  /** Appends, in order, what is not there yet. */
  function Merge(base: seq<string>, more: seq<string>): seq<string> {
    if more == [] then base
    else
      var r := Merge(base, more[..|more| - 1]);
      var last := more[|more| - 1];
      if last in r then r else r + [last]
  }

  lemma {:induction false} MergeSpec(base: seq<string>, more: seq<string>)
    ensures base <= Merge(base, more)
    ensures forall x :: x in Merge(base, more) <==> x in base || x in more
    ensures Distinct(base) ==> Distinct(Merge(base, more))
  {
    if more != [] {
      var front := more[..|more| - 1];
      MergeSpec(base, front);
      assert more == front + [more[|more| - 1]];
    }
  }

  lemma {:induction false} MergeAppend(base: seq<string>, a: seq<string>, b: seq<string>)
    ensures Merge(base, a + b) == Merge(Merge(base, a), b)
  {
    if b == [] {
      assert a + b == a;
    } else {
      var front := b[..|b| - 1];
      assert (a + b)[..|a + b| - 1] == a + front;
      MergeAppend(base, a, front);
    }
  }

  function Unique(values: seq<string>): seq<string> {
    Merge([], values)
  }

  /** The listings of the first n roles, one after the other. */
  function Listings(dir: Directory, roles: seq<string>, n: nat): seq<string>
    requires n <= |roles|
  {
    if n == 0 then [] else Listings(dir, roles, n - 1) + FullListing(dir, roles[n - 1])
  }

  // ----- Reading one page -----

  ghost predicate SameMembers(s: set<string>, q: seq<string>) {
    forall x :: x in s <==> x in q
  }

  /** One more item: what it adds to the ids read and to the recipients merged. */
  lemma NextItem(ids: seq<string>, base: seq<string>, items: seq<string>, i: nat)
    requires i < |items|
    ensures var before, after, id := TrimAll(items[..i]), TrimAll(items[..i + 1]), Trim(items[i]);
      && ids + after == (ids + before) + [id]
      && Merge(base, after) == (if id in Merge(base, before) then Merge(base, before) else Merge(base, before) + [id])
      && ids + after <= ids + TrimAll(items)
  {
    assert items[..i + 1][..i] == items[..i];
    var after := TrimAll(items[..i + 1]);
    assert after == TrimAll(items[..i]) + [Trim(items[i])];
    assert after[..|after| - 1] == TrimAll(items[..i]);
    TrimAllPrefix(items, i + 1);
  }

  lemma GoodIdsGrow(ids: seq<string>, id: string)
    requires GoodIds(ids) && ValidId(id) && id !in ids
    ensures GoodIds(ids + [id])
  {
  }

  /** The accumulators after part of a page, read behind ids and merged onto base. */
  ghost predicate Part(ids: seq<string>, base: seq<string>, part: seq<string>, roleSeen: set<string>,
                       recipients: seq<string>, seen: set<string>)
  {
    && GoodIds(ids + part) && SameMembers(roleSeen, ids + part)
    && recipients == Merge(base, part) && SameMembers(seen, recipients)
  }

  method CollectItem(items: seq<string>, i: nat, ghost ids: seq<string>, ghost base: seq<string>,
                     roleSeen: set<string>, recipients: seq<string>, seen: set<string>)
    returns (ok: bool, roleSeen': set<string>, recipients': seq<string>, seen': set<string>)
    requires i < |items| && Part(ids, base, TrimAll(items[..i]), roleSeen, recipients, seen)
    ensures !ok ==> !GoodIds(ids + TrimAll(items))
    ensures ok ==> Part(ids, base, TrimAll(items[..i + 1]), roleSeen', recipients', seen')
  {
    roleSeen', recipients', seen' := roleSeen, recipients, seen;
    var id := Trim(items[i]);
    ghost var here := ids + TrimAll(items[..i]);
    NextItem(ids, base, items, i);
    ok := ValidId(id) && id !in roleSeen;
    if !ok {
      BadIdStays(here, id, ids + TrimAll(items));
      return;
    }
    GoodIdsGrow(here, id);
    roleSeen' := roleSeen + {id};
    if id !in seen {
      recipients' := recipients + [id];
      seen' := seen + {id};
    }
  }

  /** One page of a role: stops at the first invalid or repeated identifier. */
  method CollectPage(items: seq<string>, ghost ids: seq<string>, roleSeen: set<string>,
                     recipients: seq<string>, seen: set<string>)
    returns (ok: bool, roleSeen': set<string>, recipients': seq<string>, seen': set<string>)
    requires GoodIds(ids) && SameMembers(roleSeen, ids) && SameMembers(seen, recipients)
    ensures ok <==> GoodIds(ids + TrimAll(items))
    ensures ok ==> SameMembers(roleSeen', ids + TrimAll(items))
    ensures ok ==> recipients' == Merge(recipients, TrimAll(items)) && SameMembers(seen', recipients')
  {
    roleSeen', recipients', seen' := roleSeen, recipients, seen;
    var i := 0;
    assert items[..0] == [] && ids + [] == ids;
    while i < |items|
      invariant i <= |items| && Part(ids, recipients, TrimAll(items[..i]), roleSeen', recipients', seen')
    {
      ok, roleSeen', recipients', seen' := CollectItem(items, i, ids, recipients, roleSeen', recipients', seen');
      i := i + 1;
      if !ok {
        return;
      }
    }
    assert items[..i] == items;
    ok := true;
  }

  lemma {:induction false} TrimAllPrefix(items: seq<string>, n: nat)
    requires n <= |items|
    ensures TrimAll(items[..n]) <= TrimAll(items)
  {
    if n < |items| {
      assert items[..|items| - 1][..n] == items[..n];
      TrimAllPrefix(items[..|items| - 1], n);
    } else {
      assert items[..n] == items;
    }
  }

  /** Once a prefix is spoilt no continuation is good. */
  lemma BadIdStays(here: seq<string>, id: string, all: seq<string>)
    requires !ValidId(id) || id in here
    ensures here + [id] <= all ==> !GoodIds(all)
  {
    if here + [id] <= all {
      assert all[|here|] == id;
      if id in here {
        var k :| 0 <= k < |here| && here[k] == id;
        assert all[k] == id;
      }
    }
  }

  // ----- Reading one role -----

  lemma {:induction false} ListingPrefix(dir: Directory, role: string, n: nat, k: nat)
    requires n <= k
    ensures Listing(dir, role, n) <= Listing(dir, role, k)
  {
    if n < k { ListingPrefix(dir, role, n, k - 1); }
  }

  /** What is wrong with the pages read so far is wrong with the whole listing. */
  lemma SpoiltListing(dir: Directory, role: string, n: nat)
    requires n <= PagesFor(Total(dir, role)) && !GoodIds(Listing(dir, role, n))
    ensures !RoleComplete(dir, role)
  {
    ListingPrefix(dir, role, n, PagesFor(Total(dir, role)));
    var part, all := Listing(dir, role, n), FullListing(dir, role);
    if GoodIds(all) {
      forall i | 0 <= i < |part| ensures ValidId(part[i]) { assert part[i] == all[i]; }
      forall i, j | 0 <= i < j < |part| ensures part[i] != part[j] { assert part[i] == all[i] && part[j] == all[j]; }
    }
  }

  /** No page among the first k replied with more than its size. */
  ghost predicate SmallPages(dir: Directory, role: string, k: nat) {
    k == 0 || (SmallPages(dir, role, k - 1) && |ItemsOf(ListPage(dir, role, k))| <= PAGE_SIZE)
  }

  lemma {:induction false} FittingPagesAreSmall(dir: Directory, role: string, total: int, k: nat)
    requires PagesFit(dir, role, k, total)
    ensures SmallPages(dir, role, k)
  {
    if k > 0 {
      FittingPagesAreSmall(dir, role, total, k - 1);
      assert PageFits(ListPage(dir, role, k), k, total);
    }
  }

  lemma {:induction false} ListingBound(dir: Directory, role: string, k: nat)
    requires SmallPages(dir, role, k)
    ensures |Listing(dir, role, k)| <= PAGE_SIZE * k
  {
    if k > 0 { ListingBound(dir, role, k - 1); }
  }

  lemma {:induction false} ListingBoundWithGap(dir: Directory, role: string, n: nat, k: nat)
    requires SmallPages(dir, role, k) && 1 <= n <= k && ItemsOf(ListPage(dir, role, n)) == []
    ensures |Listing(dir, role, k)| <= PAGE_SIZE * (k - 1)
  {
    if n < k {
      ListingBoundWithGap(dir, role, n, k - 1);
    } else {
      ListingBound(dir, role, k - 1);
    }
  }

  /** An empty page before the last leaves the listing short of its total. */
  lemma EmptyPageSpoils(dir: Directory, role: string, n: nat)
    requires 1 <= n < PagesFor(Total(dir, role))
    requires ListPage(dir, role, n).Replied? && ListPage(dir, role, n).items == []
    ensures !RoleComplete(dir, role)
  {
    if RoleComplete(dir, role) {
      FittingPagesAreSmall(dir, role, Total(dir, role), PagesFor(Total(dir, role)));
      ListingBoundWithGap(dir, role, n, PagesFor(Total(dir, role)));
    }
  }

  /** What the page loop knows after its first n pages, none of them the last. */
  ghost predicate ReadSoFar(dir: Directory, role: string, n: nat, expected: int) {
    && GoodIds(Listing(dir, role, n))
    && PagesFit(dir, role, n, expected)
    && (if n == 0 then expected == -1 else expected == Total(dir, role) && n < PagesFor(expected))
  }

  /** A page that does not fit refuses the role; one that fits extends what is known. */
  lemma PageStep(dir: Directory, role: string, n: nat, expected: int)
    requires n >= 1 && ReadSoFar(dir, role, n - 1, expected)
    ensures n <= PagesFor(Total(dir, role))
    ensures n > LAST_PAGE ==> !RoleComplete(dir, role)
    ensures !PageFits(ListPage(dir, role, n), n, Total(dir, role)) ==> !RoleComplete(dir, role)
    ensures !GoodIds(Listing(dir, role, n)) ==> !RoleComplete(dir, role)
  {
    if !GoodIds(Listing(dir, role, n)) { SpoiltListing(dir, role, n); }
  }

  /** The last page: the listing is complete, and the count alone decides. */
  lemma LastPage(dir: Directory, role: string, n: nat, expected: int)
    requires 1 <= n <= LAST_PAGE && ReadSoFar(dir, role, n - 1, expected)
    requires PageFits(ListPage(dir, role, n), n, Total(dir, role)) && GoodIds(Listing(dir, role, n))
    requires n * PAGE_SIZE >= Total(dir, role)
    ensures Listing(dir, role, n) == FullListing(dir, role)
    ensures RoleComplete(dir, role) <==> |Listing(dir, role, n)| == Total(dir, role) > 0
  {
    LastPageNumber(n, Total(dir, role));
    PagesFitUpTo(dir, role, n, expected);
  }

  lemma LastPageNumber(n: nat, total: int)
    requires n >= 1 && n * PAGE_SIZE >= total && (n > 1 ==> n - 1 < PagesFor(total))
    ensures n == PagesFor(total)
  {
  }

  lemma PagesFitUpTo(dir: Directory, role: string, n: nat, expected: int)
    requires n >= 1 && PagesFit(dir, role, n - 1, expected) && (n > 1 ==> expected == Total(dir, role))
    requires PageFits(ListPage(dir, role, n), n, Total(dir, role))
    ensures PagesFit(dir, role, n, Total(dir, role))
  {
  }

  lemma EarlierPage(dir: Directory, role: string, n: nat, expected: int)
    requires n >= 1 && ReadSoFar(dir, role, n - 1, expected)
    requires PageFits(ListPage(dir, role, n), n, Total(dir, role)) && GoodIds(Listing(dir, role, n))
    requires n * PAGE_SIZE < Total(dir, role)
    ensures ReadSoFar(dir, role, n, Total(dir, role))
  {
    PagesFitUpTo(dir, role, n, expected);
  }

  /** The accumulators after n pages of a role whose recipients were merged onto a base. */
  ghost predicate Accumulated(ids: seq<string>, base: seq<string>, roleSeen: set<string>,
                              recipients: seq<string>, seen: set<string>)
  {
    SameMembers(roleSeen, ids) && recipients == Merge(base, ids) && SameMembers(seen, recipients)
  }

  /** Asks for page n, checks what it claims, and collects it. */
  method ReadPage(dir: Directory, role: string, n: nat, expected: int, ghost base: seq<string>,
                  roleSeen: set<string>, recipients: seq<string>, seen: set<string>)
    returns (ok: bool, count: nat, roleSeen': set<string>, recipients': seq<string>, seen': set<string>)
    requires n >= 1 && ReadSoFar(dir, role, n - 1, expected)
    requires Accumulated(Listing(dir, role, n - 1), base, roleSeen, recipients, seen)
    ensures !ok ==> !RoleComplete(dir, role)
    ensures ok ==> n <= LAST_PAGE && PageFits(ListPage(dir, role, n), n, Total(dir, role))
    ensures ok ==> GoodIds(Listing(dir, role, n)) && count == |ListPage(dir, role, n).items|
    ensures ok ==> Accumulated(Listing(dir, role, n), base, roleSeen', recipients', seen')
  {
    ok, count, roleSeen', recipients', seen' := false, 0, roleSeen, recipients, seen;
    PageStep(dir, role, n, expected);
    if n > LAST_PAGE {
      return;
    }
    var reply := ListPage(dir, role, n);
    if reply.Failed? || reply.number != n || reply.size != PAGE_SIZE || reply.total < 0 || |reply.items| > reply.size {
      return;
    }
    if expected >= 0 && reply.total != expected {
      return;
    }
    count := |reply.items|;
    MergeAppend(base, Listing(dir, role, n - 1), TrimAll(reply.items));
    ok, roleSeen', recipients', seen' :=
      CollectPage(reply.items, Listing(dir, role, n - 1), roleSeen, recipients, seen);
  }

  method CollectRole(dir: Directory, role: string, recipients: seq<string>, seen: set<string>)
    returns (ok: bool, recipients': seq<string>, seen': set<string>)
    requires SameMembers(seen, recipients)
    ensures ok <==> RoleComplete(dir, role)
    ensures ok ==> recipients' == Merge(recipients, FullListing(dir, role)) && SameMembers(seen', recipients')
  {
    recipients', seen' := recipients, seen;
    var expected, roleSeen, resolved, done := -1, {}, 0, 0;
    while true
      invariant 0 <= done <= LAST_PAGE && ReadSoFar(dir, role, done, expected)
      invariant resolved == |Listing(dir, role, done)|
      invariant Accumulated(Listing(dir, role, done), recipients, roleSeen, recipients', seen')
      decreases LAST_PAGE + 1 - done
    {
      var n := done + 1;
      var count;
      ok, count, roleSeen, recipients', seen' :=
        ReadPage(dir, role, n, expected, recipients, roleSeen, recipients', seen');
      if !ok {
        return;
      }
      var total := Total(dir, role);
      resolved := resolved + count;
      if n * PAGE_SIZE >= total {
        LastPage(dir, role, n, expected);
        ok := resolved == total && resolved > 0;
        return;
      }
      if count == 0 {
        EmptyPageSpoils(dir, role, n);
        ok := false;
        return;
      }
      EarlierPage(dir, role, n, expected);
      expected, done := total, n;
    }
  }

  // ----- All roles -----

  method UniqueStrings(values: seq<string>) returns (result: seq<string>)
    ensures result == Unique(values)
  {
    var seen: set<string> := {};
    result := [];
    var i := 0;
    assert values[..0] == [];
    while i < |values|
      invariant i <= |values| && result == Unique(values[..i]) && SameMembers(seen, result)
    {
      assert values[..i + 1][..i] == values[..i];
      if values[i] !in seen {
        seen := seen + {values[i]};
        result := result + [values[i]];
      }
      i := i + 1;
    }
    assert values[..i] == values;
  }

  /** Who the roles stand for: every listing's people, each once, in order of first appearance. */
  function Expected(dir: Directory, roles: seq<string>): seq<string> {
    Unique(Listings(dir, Unique(roles), |Unique(roles)|))
  }

  ghost predicate AllComplete(dir: Directory, roles: seq<string>, n: nat)
    requires n <= |roles|
  {
    n == 0 || (AllComplete(dir, roles, n - 1) && RoleComplete(dir, roles[n - 1]))
  }

  lemma {:induction false} AllCompleteSpec(dir: Directory, roles: seq<string>, n: nat)
    requires n <= |roles|
    ensures AllComplete(dir, roles, n) <==> forall role :: role in roles[..n] ==> RoleComplete(dir, role)
  {
    if n > 0 {
      AllCompleteSpec(dir, roles, n - 1);
      assert roles[..n] == roles[..n - 1] + [roles[n - 1]];
    }
  }

  lemma {:induction false} IncompleteStays(dir: Directory, roles: seq<string>, n: nat, k: nat)
    requires n <= k <= |roles| && !AllComplete(dir, roles, n)
    ensures !AllComplete(dir, roles, k)
  {
    if n < k { IncompleteStays(dir, roles, n, k - 1); }
  }

  /** What the loop holds after n complete roles. */
  ghost predicate Collected(dir: Directory, roles: seq<string>, n: nat, recipients: seq<string>, seen: set<string>)
    requires n <= |roles|
  {
    recipients == Unique(Listings(dir, roles, n)) && SameMembers(seen, recipients)
  }

  method CollectNext(dir: Directory, roles: seq<string>, i: nat, recipients: seq<string>, seen: set<string>)
    returns (ok: bool, recipients': seq<string>, seen': set<string>)
    requires i < |roles| && AllComplete(dir, roles, i) && Collected(dir, roles, i, recipients, seen)
    ensures ok <==> AllComplete(dir, roles, i + 1)
    ensures ok ==> Collected(dir, roles, i + 1, recipients', seen')
  {
    MergeAppend([], Listings(dir, roles, i), FullListing(dir, roles[i]));
    ok, recipients', seen' := CollectRole(dir, roles[i], recipients, seen);
  }

  method CollectRoles(dir: Directory, roles: seq<string>) returns (ok: bool, recipients: seq<string>)
    ensures ok <==> AllComplete(dir, roles, |roles|)
    ensures ok ==> recipients == Unique(Listings(dir, roles, |roles|))
  {
    recipients := [];
    var seen: set<string> := {};
    var i := 0;
    while i < |roles|
      invariant i <= |roles| && AllComplete(dir, roles, i) && Collected(dir, roles, i, recipients, seen)
    {
      ok, recipients, seen := CollectNext(dir, roles, i, recipients, seen);
      i := i + 1;
      if !ok {
        IncompleteStays(dir, roles, i, |roles|);
        return;
      }
    }
    ok := true;
  }

  method RoleRecipients(personnel: Option<Directory>, roles: seq<string>) returns (r: Option<seq<string>>)
    ensures r.Some? <==> personnel.Some? && forall role :: role in roles ==> RoleComplete(personnel.value, role)
    ensures r.Some? ==> r.value == Expected(personnel.value, roles)
  {
    if personnel.None? {
      return None;
    }
    var distinct := UniqueStrings(roles);
    MergeSpec([], roles);
    AllCompleteSpec(personnel.value, distinct, |distinct|);
    assert distinct[..|distinct|] == distinct;
    var ok, recipients := CollectRoles(personnel.value, distinct);
    r := if ok then Some(recipients) else None;
  }

  lemma {:induction false} ListingsMembers(dir: Directory, roles: seq<string>, n: nat)
    requires n <= |roles|
    ensures forall id ::
      id in Listings(dir, roles, n) <==> exists role :: role in roles[..n] && id in FullListing(dir, role)
  {
    if n > 0 {
      ListingsMembers(dir, roles, n - 1);
      assert roles[..n] == roles[..n - 1] + [roles[n - 1]];
    }
  }

  /** Nobody is listed twice, nobody of a named role is missing, and nobody else is listed. */
  lemma ExpectedIsTheUnion(dir: Directory, roles: seq<string>)
    ensures Distinct(Expected(dir, roles))
    ensures forall id :: id in Expected(dir, roles) <==> exists role :: role in roles && id in FullListing(dir, role)
  {
    MergeSpec([], roles);
    var distinct := Unique(roles);
    MergeSpec([], Listings(dir, distinct, |distinct|));
    ListingsMembers(dir, distinct, |distinct|);
    assert distinct[..|distinct|] == distinct;
  }

  /** A complete role's listing holds as many different people as every one of its pages announced. */
  lemma CompleteRoleCount(dir: Directory, role: string)
    requires RoleComplete(dir, role)
    ensures |set id | id in FullListing(dir, role)| == Total(dir, role)
  {
    DistinctCount(FullListing(dir, role));
  }

  lemma {:induction false} DistinctCount(s: seq<string>)
    requires Distinct(s)
    ensures |set x | x in s| == |s|
  {
    if s != [] {
      var front, last := s[..|s| - 1], s[|s| - 1];
      DistinctCount(front);
      assert s == front + [last];
      assert (set x | x in s) == (set x | x in front) + {last};
    }
  }

  // ----- In terms of the pages -----

  /** The directory answers page n as asked: fifty to a page, and the same total on every one. */
  predicate Answers(dir: Directory, role: string, n: nat, total: int)
    requires n >= 1
  {
    && role in dir && n <= |dir[role]| && dir[role][n - 1].Replied?
    && dir[role][n - 1].number == n && dir[role][n - 1].size == 50 && dir[role][n - 1].total == total
    && |dir[role][n - 1].items| <= 50
  }

  /** The total announced is more than none, and k pages of fifty is what it takes. */
  predicate Takes(total: int, k: nat) {
    total > 0 && 1 <= k <= 10000 && (k - 1) * 50 < total <= k * 50
  }

  /** The pages list as many identifiers as they announce, all different, of one to 26 characters. */
  ghost predicate Consistent(ids: seq<string>, total: int) {
    && |ids| == total
    && (forall i :: 0 <= i < |ids| ==> 1 <= |ids[i]| <= 26)
    && (forall i, j :: 0 <= i < j < |ids| ==> ids[i] != ids[j])
  }

  /** A role is complete exactly if its pages answer for one total, as many as that takes, and list it. */
  lemma RoleCompleteIff(dir: Directory, role: string)
    ensures RoleComplete(dir, role) <==>
      exists total, k :: Takes(total, k) && Consistent(Listing(dir, role, k), total)
                         && forall n :: 1 <= n <= k ==> Answers(dir, role, n, total)
  {
    if RoleComplete(dir, role) {
      var total := Total(dir, role);
      var k := PagesFor(total);
      forall n | 1 <= n <= k ensures Answers(dir, role, n, total) { assert PageFits(ListPage(dir, role, n), n, total); }
      assert Takes(total, k) && Consistent(Listing(dir, role, k), total);
    }
    if total, k :| Takes(total, k) && Consistent(Listing(dir, role, k), total)
                   && forall n :: 1 <= n <= k ==> Answers(dir, role, n, total) {
      assert Answers(dir, role, 1, total);
      assert PagesFor(total) == k;
      forall n | 1 <= n <= k ensures PageFits(ListPage(dir, role, n), n, total) { assert Answers(dir, role, n, total); }
    }
  }

  /** One of the items is the identifier, padding aside. */
  ghost predicate Lists(items: seq<string>, id: string) {
    exists item :: item in items && Trim(item) == id
  }

  /** Page n names the identifier. */
  ghost predicate Names(dir: Directory, role: string, n: nat, id: string)
    requires n >= 1
  {
    role in dir && n <= |dir[role]| && dir[role][n - 1].Replied? && Lists(dir[role][n - 1].items, id)
  }

  lemma {:induction false} TrimAllIs(items: seq<string>, id: string)
    ensures id in TrimAll(items) <==> Lists(items, id)
  {
    if items != [] {
      var front, last := items[..|items| - 1], items[|items| - 1];
      TrimAllIs(front, id);
      assert items == front + [last];
      assert forall item :: item in items <==> item in front || item == last;
    }
  }

  lemma PageLists(dir: Directory, role: string, n: nat, id: string)
    requires n >= 1
    ensures id in TrimAll(ItemsOf(ListPage(dir, role, n))) <==> Names(dir, role, n, id)
  {
    TrimAllIs(ItemsOf(ListPage(dir, role, n)), id);
  }

  /** Somebody is listed on the first k pages exactly if one of them names them. */
  lemma {:induction false} ListedIff(dir: Directory, role: string, k: nat, id: string)
    ensures id in Listing(dir, role, k) <==> exists n :: 1 <= n <= k && Names(dir, role, n, id)
  {
    if k > 0 {
      ListedIff(dir, role, k - 1, id);
      PageLists(dir, role, k, id);
    }
  }
}
