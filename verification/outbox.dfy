/**
 * The audit outbox: a lease-based work queue over stored rows. Every store method is one
 * atomic step; a worker that crashes simply never marks the rows it claimed. Marks carry no
 * worker identity, so any step may follow any other.
 */
module Outbox {
  import opened Options
  import opened Text

  const SECOND: int := 1_000_000_000
  const DEFAULT_LEASE: int := 120 * SECOND

  datatype Status = Pending | Retry | Processing | Delivered | Failed

  datatype Row = Row(tenant: string, status: Status, attempts: nat, nextAttempt: int, lockedAt: Option<int>)

  /** `maxTries` zero means no limit. */
  datatype Policy = Policy(configuredLease: int, maxTries: nat)

  function Lease(p: Policy): (l: int)
    ensures l > 0
  {
    if p.configuredLease <= 0 then DEFAULT_LEASE else p.configuredLease
  }

  predicate LeaseExpired(p: Policy, row: Row, now: int) {
    row.lockedAt.Some? && row.lockedAt.value < now - Lease(p)
  }

  /** The claim query's conditions on one row. */
  predicate Claimable(p: Policy, row: Row, now: int) {
    && row.nextAttempt <= now
    && (row.lockedAt.None? || LeaseExpired(p, row, now))
    && (row.status.Pending? || row.status.Retry? || row.status.Processing?)
    && (p.maxTries > 0 ==> row.attempts < p.maxTries || (row.status.Processing? && LeaseExpired(p, row, now)))
  }

  function Claimed(row: Row, now: int): Row {
    row.(status := Processing, lockedAt := Some(now), attempts := row.attempts + 1)
  }

  function DeliveredRow(row: Row): Row {
    row.(status := Delivered, lockedAt := None)
  }

  function FailedRow(p: Policy, row: Row, retryAt: int): Row {
    row.(status := if p.maxTries > 0 && row.attempts >= p.maxTries then Failed else Retry,
         nextAttempt := retryAt, lockedAt := None)
  }

  function ResetRow(row: Row, now: int): Row {
    row.(status := Retry, attempts := 0, nextAttempt := now, lockedAt := None)
  }

  // ----- One row over all runs -----

  datatype Event =
    | Claim(now: int)
    | MarkDelivered
    | MarkFailed(retryAt: int)
    | RetryFailed(tenant: string, now: int)

  predicate Takes(p: Policy, row: Row, e: Event) {
    match e
    case Claim(now) => Claimable(p, row, now)
    case MarkDelivered => true
    case MarkFailed(_) => true
    case RetryFailed(tenant, _) => row.tenant == tenant && row.status.Failed?
  }

  function Next(p: Policy, row: Row, e: Event): Row {
    if !Takes(p, row, e) then row
    else
      match e
      case Claim(now) => Claimed(row, now)
      case MarkDelivered => DeliveredRow(row)
      case MarkFailed(retryAt) => FailedRow(p, row, retryAt)
      case RetryFailed(_, now) => ResetRow(row, now)
  }

  function Run(p: Policy, es: seq<Event>, row: Row): Row {
    if es == [] then row else Next(p, Run(p, es[..|es| - 1], row), es[|es| - 1])
  }

  function Inserted(tenant: string, due: int): Row {
    Row(tenant, Pending, 0, due, None)
  }

  /** A lock is held exactly while a row is processed, and the attempt budget bounds every waiting row. */
  predicate RowInv(p: Policy, row: Row) {
    && (row.lockedAt.Some? <==> row.status.Processing?)
    && (row.status.Pending? ==> row.attempts == 0)
    && (row.status.Retry? && p.maxTries > 0 ==> row.attempts < p.maxTries)
    && (row.status.Failed? ==> 0 < p.maxTries <= row.attempts)
  }

  lemma {:induction false} RunKeepsInv(p: Policy, es: seq<Event>, tenant: string, due: int)
    ensures RowInv(p, Run(p, es, Inserted(tenant, due)))
  {
    if es != [] {
      RunKeepsInv(p, es[..|es| - 1], tenant, due);
    }
  }

  /** The claims taken since the row was created or an operator last reset it. */
  function ClaimsSinceReset(p: Policy, es: seq<Event>, row: Row): nat {
    if es == [] then 0
    else
      var before, e := es[..|es| - 1], es[|es| - 1];
      if !Takes(p, Run(p, before, row), e) then ClaimsSinceReset(p, before, row)
      else if e.Claim? then ClaimsSinceReset(p, before, row) + 1
      else if e.RetryFailed? then 0
      else ClaimsSinceReset(p, before, row)
  }

  lemma {:induction false} AttemptsCountClaims(p: Policy, es: seq<Event>, tenant: string, due: int)
    ensures var row := Inserted(tenant, due); Run(p, es, row).attempts == ClaimsSinceReset(p, es, row)
  {
    if es != [] {
      AttemptsCountClaims(p, es[..|es| - 1], tenant, due);
    }
  }

  ghost predicate OnlyClaims(es: seq<Event>) {
    forall i :: 0 <= i < |es| ==> es[i].Claim?
  }

  lemma {:induction false} RunAppend(p: Policy, a: seq<Event>, b: seq<Event>, row: Row)
    ensures Run(p, a + b, row) == Run(p, b, Run(p, a, row))
  {
    if b == [] {
      assert a + b == a;
    } else {
      assert (a + b)[..|a + b| - 1] == a + b[..|b| - 1];
      RunAppend(p, a, b[..|b| - 1], row);
    }
  }

  /** As long as nobody marks a processed row, its lock can only move to a later claim. */
  lemma {:induction false} LockOnlyMovesForward(p: Policy, es: seq<Event>, row: Row)
    requires OnlyClaims(es) && row.status.Processing? && row.lockedAt.Some?
    ensures var t := Run(p, es, row); t.status.Processing? && t.lockedAt.Some? && row.lockedAt.value <= t.lockedAt.value
  {
    if es != [] {
      LockOnlyMovesForward(p, es[..|es| - 1], row);
    }
  }

  /** Two claims of one row with no mark between them, whatever claims failed meanwhile, are more than a lease apart. */
  lemma ClaimsAreALeaseApart(p: Policy, row: Row, first: int, between: seq<Event>, second: int)
    requires Claimable(p, row, first) && OnlyClaims(between)
    requires Claimable(p, Run(p, between, Claimed(row, first)), second)
    ensures second - first > Lease(p)
  {
    LockOnlyMovesForward(p, between, Claimed(row, first));
  }

  /** No event may hand a leased row to a second worker: within the lease only a mark changes it. */
  lemma {:induction false} LeaseExcludes(p: Policy, es: seq<Event>, row: Row)
    requires row.status.Processing? && row.lockedAt.Some? && OnlyClaims(es)
    requires forall i :: 0 <= i < |es| ==> es[i].now <= row.lockedAt.value + Lease(p)
    ensures Run(p, es, row) == row
  {
    if es != [] {
      LeaseExcludes(p, es[..|es| - 1], row);
    }
  }

  /** The moment from which a row stays claimable until somebody claims or marks it. */
  function ClaimableFrom(p: Policy, row: Row): int {
    if row.lockedAt.None? then row.nextAttempt
    else if row.nextAttempt > row.lockedAt.value + Lease(p) then row.nextAttempt
    else row.lockedAt.value + Lease(p) + 1
  }

  /** No reachable row is stuck: it is claimable exactly from a known moment on, unless delivered or failed. */
  lemma {:induction false} NoRowIsStuck(p: Policy, es: seq<Event>, tenant: string, due: int, now: int)
    ensures var row := Run(p, es, Inserted(tenant, due));
            Claimable(p, row, now) <==>
              !row.status.Delivered? && !row.status.Failed? && ClaimableFrom(p, row) <= now
  {
    RunKeepsInv(p, es, tenant, due);
  }

  /** A row fails only by a failed attempt with the budget spent, and only an operator reset reopens it to claims. */
  lemma FailedOnlyWhenSpent(p: Policy, es: seq<Event>, e: Event, tenant: string, due: int)
    requires var row := Run(p, es, Inserted(tenant, due)); !row.status.Failed? && Next(p, row, e).status.Failed?
    ensures e.MarkFailed? && p.maxTries > 0 && ClaimsSinceReset(p, es, Inserted(tenant, due)) >= p.maxTries
  {
    AttemptsCountClaims(p, es, tenant, due);
  }

  // ----- The store -----

  type Rows = map<string, Row>

  /** The claim order: due time first, then id. */
  predicate Before(rows: Rows, a: string, b: string)
    requires a in rows && b in rows
  {
    rows[a].nextAttempt < rows[b].nextAttempt || (rows[a].nextAttempt == rows[b].nextAttempt && Less(a, b))
  }

  lemma BeforeTransitive(rows: Rows, a: string, b: string, c: string)
    requires a in rows && b in rows && c in rows && Before(rows, a, b) && Before(rows, b, c)
    ensures Before(rows, a, c)
  {
    if rows[a].nextAttempt == rows[b].nextAttempt == rows[c].nextAttempt {
      LessTransitive(a, b, c);
    }
  }

  predicate FirstOf(rows: Rows, ids: set<string>, id: string)
    requires ids <= rows.Keys
  {
    id in ids && forall other :: other in ids && other != id ==> Before(rows, id, other)
  }

  lemma {:induction false} FirstExists(rows: Rows, ids: set<string>)
    requires ids != {} && ids <= rows.Keys
    ensures exists id :: FirstOf(rows, ids, id)
    decreases |ids|
  {
    var x :| x in ids;
    var rest := ids - {x};
    if rest == {} {
      assert forall other :: other in ids && other != x ==> other in rest;
      assert FirstOf(rows, ids, x);
    } else {
      FirstExists(rows, rest);
      var y :| FirstOf(rows, rest, y);
      LessTotal(x, y);
      if Before(rows, x, y) {
        forall other | other in ids && other != x
          ensures Before(rows, x, other)
        {
          if other != y {
            BeforeTransitive(rows, x, y, other);
          }
        }
        assert FirstOf(rows, ids, x);
      } else {
        assert FirstOf(rows, ids, y);
      }
    }
  }

  class Store {
    var rows: Rows
    const policy: Policy

    constructor (policy: Policy)
      ensures rows == map[] && this.policy == policy
    {
      rows := map[];
      this.policy := policy;
    }

    /** The rows the query may select: claimable, and not skipped as locked by a concurrent transaction. */
    function Candidates(now: int, skipped: set<string>): set<string>
      reads this
    {
      set id | id in rows && id !in skipped && Claimable(policy, rows[id], now)
    }

    /** Claims the first candidates in due order and leases exactly those. */
    method Claim(limit: int, now: int, skipped: set<string>) returns (claimed: seq<string>)
      modifies this
      ensures forall i :: 0 <= i < |claimed| ==> claimed[i] in old(Candidates(now, skipped))
      ensures forall i, j :: 0 <= i < j < |claimed| ==>
                old(claimed[i] in rows && claimed[j] in rows && Before(rows, claimed[i], claimed[j]))
      ensures forall id, i :: id in old(Candidates(now, skipped)) && id !in claimed && 0 <= i < |claimed| ==>
                old(claimed[i] in rows && Before(rows, claimed[i], id))
      ensures |claimed| <= (if limit < 0 then 0 else limit)
      ensures |claimed| < limit ==> forall id :: id in old(Candidates(now, skipped)) ==> id in claimed
      ensures rows.Keys == old(rows.Keys)
      ensures forall id :: id in rows ==>
                rows[id] == if id in claimed then Next(policy, old(rows[id]), Event.Claim(now)) else old(rows[id])
    {
      claimed := [];
      var left := Candidates(now, skipped);
      ghost var all := left;
      while |claimed| < limit && left != {}
        invariant left <= all && rows == old(rows)
        invariant forall id :: id in all <==> id in left || id in claimed
        invariant forall i :: 0 <= i < |claimed| ==> claimed[i] in all && claimed[i] !in left
        invariant forall i, j :: 0 <= i < j < |claimed| ==> Before(rows, claimed[i], claimed[j])
        invariant forall id, i :: id in left && 0 <= i < |claimed| ==> Before(rows, claimed[i], id)
        invariant |claimed| <= if limit < 0 then 0 else limit
        decreases |left|
      {
        FirstExists(rows, left);
        var id :| FirstOf(rows, left, id);
        claimed := claimed + [id];
        left := left - {id};
      }
      rows := map id | id in rows :: if id in claimed then Claimed(rows[id], now) else rows[id];
    }

    method MarkDelivered(id: string)
      modifies this
      ensures rows == if id in old(rows) then old(rows)[id := Next(policy, old(rows)[id], Event.MarkDelivered)] else old(rows)
    {
      if id in rows {
        rows := rows[id := DeliveredRow(rows[id])];
      }
    }

    /** Fails without a change when the row is gone and there is a budget to look up. */
    method MarkFailed(id: string, retryAt: int) returns (ok: bool)
      modifies this
      ensures ok <==> policy.maxTries == 0 || id in old(rows)
      ensures rows == if id in old(rows) then old(rows)[id := Next(policy, old(rows)[id], Event.MarkFailed(retryAt))]
                      else old(rows)
    {
      var status := Retry;
      if policy.maxTries > 0 {
        if id !in rows {
          return false;
        }
        if rows[id].attempts >= policy.maxTries {
          status := Failed;
        }
      }
      if id in rows {
        rows := rows[id := rows[id].(status := status, nextAttempt := retryAt, lockedAt := None)];
      }
      ok := true;
    }

    method RetryFailed(tenant: string, id: string, now: int) returns (changed: bool)
      modifies this
      ensures changed <==> id in old(rows) && Takes(policy, old(rows)[id], Event.RetryFailed(tenant, now))
      ensures rows == if id in old(rows)
                      then old(rows)[id := Next(policy, old(rows)[id], Event.RetryFailed(tenant, now))] else old(rows)
    {
      changed := id in rows && rows[id].tenant == tenant && rows[id].status.Failed?;
      if changed {
        rows := rows[id := ResetRow(rows[id], now)];
      }
    }
  }

  // ----- The dispatcher -----

  function Pow2(n: nat): (p: nat)
    ensures p > 0
  {
    if n == 0 then 1 else 2 * Pow2(n - 1)
  }

  /** Doubling from one second, at most seven times, capped by a configured maximum. */
  function BackoffOf(attempts: nat, maxBackoff: int): (b: int)
    ensures b > 0 && (maxBackoff > 0 ==> b <= maxBackoff)
  {
    var doublings := if attempts == 0 then 0 else if attempts > 8 then 7 else attempts - 1;
    var base := Pow2(doublings) * SECOND;
    if 0 < maxBackoff < base then maxBackoff else base
  }

  method Backoff(attempts: nat, maxBackoff: int) returns (b: int)
    ensures b == BackoffOf(attempts, maxBackoff)
  {
    var base := SECOND;
    var i := 1;
    while i < attempts && i < 8
      invariant 1 <= i <= 8 && (i <= attempts || i == 1)
      invariant base == Pow2(i - 1) * SECOND
    {
      base := base * 2;
      i := i + 1;
    }
    if 0 < maxBackoff < base {
      return maxBackoff;
    }
    b := base;
  }

  /** Later attempts never wait less. */
  lemma {:induction false} Pow2Monotone(m: nat, n: nat)
    requires m <= n
    ensures Pow2(m) <= Pow2(n)
  {
    if m < n {
      Pow2Monotone(m, n - 1);
    }
  }

  lemma BackoffMonotone(m: nat, n: nat, maxBackoff: int)
    requires m <= n
    ensures BackoffOf(m, maxBackoff) <= BackoffOf(n, maxBackoff)
  {
    var dm := if m == 0 then 0 else if m > 8 then 7 else m - 1;
    var dn := if n == 0 then 0 else if n > 8 then 7 else n - 1;
    Pow2Monotone(dm, dn);
  }

  function BatchSize(configured: int): (n: int)
    ensures 1 <= n <= 200
  {
    if configured <= 0 || configured > 200 then 50 else configured
  }

  /** How delivering one entry went, and whether the store then took the mark. */
  datatype Report = Report(delivered: bool, marked: bool)

  /** The outcome of one delivery attempt of a row claimed at `now`; without its mark the row stays leased. */
  function Attempted(p: Policy, row: Row, report: Report, now: int, maxBackoff: int): Row {
    var claimed := Claimed(row, now);
    if !report.marked then claimed
    else if report.delivered then DeliveredRow(claimed)
    else FailedRow(p, claimed, now + BackoffOf(claimed.attempts + 1, maxBackoff))
  }

  method DeliverEntry(store: Store, id: string, ghost row: Row, now: int, report: Report, maxBackoff: int)
    requires id in store.rows && store.rows[id] == Claimed(row, now)
    modifies store
    ensures store.rows == old(store.rows)[id := Attempted(store.policy, row, report, now, maxBackoff)]
  {
    if !report.marked {
      return;
    }
    if report.delivered {
      store.MarkDelivered(id);
    } else {
      var wait := Backoff(store.rows[id].attempts + 1, maxBackoff);
      var _ := store.MarkFailed(id, now + wait);
    }
  }

  /** One pass: claim a batch and mark every entry; neither a failed report nor a failed mark stops the others. */
  method DeliverOnce(store: Store, configured: int, now: int, skipped: set<string>,
                     report: string -> Report, maxBackoff: int)
    returns (claimed: seq<string>)
    modifies store
    ensures forall id :: id in claimed ==> id in old(store.Candidates(now, skipped))
    ensures |claimed| <= BatchSize(configured)
    ensures forall i, j :: 0 <= i < j < |claimed| ==>
              old(claimed[i] in store.rows && claimed[j] in store.rows && Before(store.rows, claimed[i], claimed[j]))
    ensures forall id, i :: id in old(store.Candidates(now, skipped)) && id !in claimed && 0 <= i < |claimed| ==>
              old(claimed[i] in store.rows && Before(store.rows, claimed[i], id))
    ensures |claimed| < BatchSize(configured) ==>
              forall id :: id in old(store.Candidates(now, skipped)) ==> id in claimed
    ensures store.rows.Keys == old(store.rows.Keys)
    ensures forall id :: id in store.rows ==>
              store.rows[id] == if id !in claimed then old(store.rows[id])
                                else Attempted(store.policy, old(store.rows[id]), report(id), now, maxBackoff)
  {
    claimed := store.Claim(BatchSize(configured), now, skipped);
    ghost var leased := store.rows;
    DistinctWhenOrdered(old(store.rows), claimed);
    var i := 0;
    while i < |claimed|
      invariant 0 <= i <= |claimed| && store.rows.Keys == leased.Keys
      invariant forall id :: id in store.rows ==>
                  store.rows[id] == if id !in claimed[..i] then leased[id]
                                    else Attempted(store.policy, old(store.rows[id]), report(id), now, maxBackoff)
    {
      var id := claimed[i];
      assert id !in claimed[..i];
      assert claimed[..i + 1] == claimed[..i] + [id];
      DeliverEntry(store, id, old(store.rows[id]), now, report(id), maxBackoff);
      i := i + 1;
    }
    assert claimed[..|claimed|] == claimed;
  }

  lemma DistinctWhenOrdered(rows: Rows, ids: seq<string>)
    requires forall i :: 0 <= i < |ids| ==> ids[i] in rows
    requires forall i, j :: 0 <= i < j < |ids| ==> Before(rows, ids[i], ids[j])
    ensures forall i, j :: 0 <= i < j < |ids| ==> ids[i] != ids[j]
  {
    forall i, j | 0 <= i < j < |ids|
      ensures ids[i] != ids[j]
    {
      LessIrreflexive(ids[i]);
    }
  }

  /**
   * After its own pass a row is never immediately due again: marked, it is unlocked and waits, or is done or
   * failed; unmarked, it stays leased and nobody can claim it within the lease.
   */
  lemma PassNeverHotLoops(p: Policy, row: Row, report: Report, now: int, maxBackoff: int)
    requires RowInv(p, row) && Claimable(p, row, now)
    ensures var t := Attempted(p, row, report, now, maxBackoff);
            && RowInv(p, t) && !Claimable(p, t, now)
            && t.lockedAt == (if report.marked then None else Some(now))
            && (t.status.Delivered? <==> report.marked && report.delivered)
            && (t.status.Failed? <==> report.marked && !report.delivered && p.maxTries > 0 && row.attempts + 1 >= p.maxTries)
            && (!report.marked ==> forall later :: later <= now + Lease(p) ==> !Claimable(p, t, later))
  {
  }
}
