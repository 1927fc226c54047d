/**
 * What the store's steps do to a row, and from when on a row can be claimed again after each of them.
 */
module OutboxEffects {
  import opened Options
  import opened Outbox
  import opened Text

  /** A lease lasts as configured, or two minutes. */
  lemma LeaseIs(p: Policy)
    ensures Lease(p) == (if p.configuredLease > 0 then p.configuredLease else 120_000_000_000)
  {
  }

  /** The lease of the row's last claim has run out. */
  predicate RunOut(p: Policy, row: Row, now: int) {
    && row.lockedAt.Some?
    && now - row.lockedAt.value > if p.configuredLease > 0 then p.configuredLease else 120_000_000_000
  }

  /** A claim takes exactly the due rows nobody holds whose budget is not spent; a lost row it takes regardless. */
  lemma ClaimTakesIff(p: Policy, row: Row, now: int)
    ensures var t, unheld := Next(p, row, Event.Claim(now)), row.lockedAt == None || RunOut(p, row, now);
      var lost := row.status == Processing && RunOut(p, row, now);
      if row.nextAttempt <= now && unheld && row.status in {Pending, Retry, Processing}
         && (p.maxTries == 0 || row.attempts < p.maxTries || lost)
      then t == Row(row.tenant, Processing, row.attempts + 1, row.nextAttempt, Some(now))
      else t == row
  {
    LeaseIs(p);
  }

  /** A new row is due at its time, with no attempt made. */
  lemma NewRowIsClaimable(p: Policy, tenant: string, due: int, now: int)
    ensures Claimable(p, Inserted(tenant, due), now) <==> due <= now
    ensures Inserted(tenant, due).tenant == tenant && Inserted(tenant, due).attempts == 0
  {
  }

  /** A delivered row keeps everything else and is never claimed again, whatever happens short of a failed mark. */
  lemma DeliveredIsFinal(p: Policy, row: Row, es: seq<Event>)
    requires forall e :: e in es ==> !e.MarkFailed?
    ensures Run(p, [MarkDelivered] + es, row) == Row(row.tenant, Delivered, row.attempts, row.nextAttempt, None)
  {
    RunAppend(p, [MarkDelivered], es, row);
    assert [MarkDelivered][..0] == [];
    var t := Run(p, [MarkDelivered], row);
    assert t == Row(row.tenant, Delivered, row.attempts, row.nextAttempt, None) by {
      assert Run(p, [], row) == row;
    }
    DeliveredStays(p, t, es);
  }

  lemma {:induction false} DeliveredStays(p: Policy, row: Row, es: seq<Event>)
    requires row.status == Delivered && row.lockedAt == None && forall e :: e in es ==> !e.MarkFailed?
    ensures Run(p, es, row) == row
  {
    if es != [] {
      DeliveredStays(p, row, es[..|es| - 1]);
      assert es[|es| - 1] in es;
    }
  }

  /** A failed attempt gives the row back, to wait until `retryAt`, or for good once the budget is spent. */
  lemma FailedMarkEffect(p: Policy, row: Row, retryAt: int, now: int)
    ensures var t, spent := Next(p, row, MarkFailed(retryAt)), p.maxTries > 0 && row.attempts >= p.maxTries;
      && t == Row(row.tenant, if spent then Failed else Retry, row.attempts, retryAt, None)
      && (Claimable(p, t, now) <==> !spent && retryAt <= now)
  {
  }

  /** An operator reopens a failed row of their own tenant, and only that: claimable at once, with the whole budget. */
  lemma ResetEffect(p: Policy, row: Row, tenant: string, at: int, now: int)
    ensures var t := Next(p, row, RetryFailed(tenant, at));
      if row.status == Failed && row.tenant == tenant
      then t == Row(row.tenant, Retry, 0, at, None) && (Claimable(p, t, now) <==> at <= now)
      else t == row
  {
  }

  /** Rows are claimed by their due time, equal ones by their identifier. */
  lemma DueFirst(rows: Rows, a: string, b: string)
    requires a in rows && b in rows
    ensures rows[a].nextAttempt < rows[b].nextAttempt ==> Before(rows, a, b) && !Before(rows, b, a)
    ensures rows[a].nextAttempt == rows[b].nextAttempt ==> (Before(rows, a, b) <==> Less(a, b))
  {
  }

  // ----- One pass -----

  const WAITS: seq<int> := [1, 2, 4, 8, 16, 32, 64, 128]

  /** The waits double from one second to 128, none longer than the configured maximum. */
  lemma BackoffIs(attempts: nat, maxBackoff: int)
    ensures var wait := WAITS[if attempts == 0 then 0 else if attempts > 8 then 7 else attempts - 1] * 1_000_000_000;
      BackoffOf(attempts, maxBackoff) == if maxBackoff > 0 && maxBackoff < wait then maxBackoff else wait
  {
    assert Pow2(0) == 1 && Pow2(1) == 2 && Pow2(2) == 4;
    assert Pow2(3) == 8 && Pow2(4) == 16;
    assert Pow2(5) == 32 && Pow2(6) == 64;
    assert Pow2(7) == 128;
  }

  lemma BatchSizeIs(configured: int)
    ensures BatchSize(configured) == if 1 <= configured <= 200 then configured else 50
  {
  }

  /**
   * After its pass a row waits for good, for the rest of its lease, or for its wait: the first failure waits two
   * seconds, since the claim has counted the attempt already.
   */
  lemma PassEffect(p: Policy, row: Row, report: Report, now: int, maxBackoff: int)
    ensures var t := Attempted(p, row, report, now, maxBackoff);
      var wait := WAITS[if row.attempts >= 6 then 7 else row.attempts + 1] * 1_000_000_000;
      var spent := p.maxTries > 0 && row.attempts + 1 >= p.maxTries;
      && t.tenant == row.tenant && t.attempts == row.attempts + 1
      && t.lockedAt == (if report.marked then None else Some(now))
      && t.status == (if !report.marked then Processing else if report.delivered then Delivered
                      else if spent then Failed else Retry)
      && t.nextAttempt == (if !report.marked || report.delivered then row.nextAttempt
                           else now + if maxBackoff > 0 && maxBackoff < wait then maxBackoff else wait)
  {
    BackoffIs(row.attempts + 2, maxBackoff);
  }

  /** A run goes from row to row, one step after the other. */
  lemma {:induction false} RunIs(p: Policy, es: seq<Event>, rows: seq<Row>)
    requires |rows| == |es| + 1 && forall i :: 0 <= i < |es| ==> rows[i + 1] == Next(p, rows[i], es[i])
    ensures Run(p, es, rows[0]) == rows[|es|]
  {
    if es != [] {
      RunIs(p, es[..|es| - 1], rows[..|es|]);
    }
  }

  /** The store offers a worker the claimable rows that no concurrent claim holds locked. */
  lemma CandidateIff(store: Store, now: int, skipped: set<string>, id: string)
    ensures id in store.Candidates(now, skipped) <==>
      id in store.rows && id !in skipped && Claimable(store.policy, store.rows[id], now)
  {
  }

  /** Whatever happened to a row: it is locked exactly while processed, and has tried as often as its status says. */
  lemma ReachableRow(p: Policy, es: seq<Event>, tenant: string, due: int)
    ensures var row := Run(p, es, Inserted(tenant, due));
      && row.tenant == tenant
      && (row.lockedAt != None <==> row.status == Processing)
      && (row.status == Pending ==> row.attempts == 0)
      && (row.status == Retry ==> p.maxTries == 0 || row.attempts < p.maxTries)
      && (row.status == Failed ==> p.maxTries > 0 && row.attempts >= p.maxTries)
  {
    RunKeepsInv(p, es, tenant, due);
    TenantStays(p, es, Inserted(tenant, due));
  }

  lemma {:induction false} TenantStays(p: Policy, es: seq<Event>, row: Row)
    ensures Run(p, es, row).tenant == row.tenant
  {
    if es != [] { TenantStays(p, es[..|es| - 1], row); }
  }
}
