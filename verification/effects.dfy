/**
 * The dispatcher of delivery effects (internal/application/delivery_effects.go): it claims one job at a
 * time and settles it by one completion or one retry before it claims the next.
 */
module Effects {
  import Outbox

  // ----- What the dispatcher sees and does -----

  datatype Job = Job(id: string, ours: bool, retries: nat, invalid: bool)

  datatype Claim = ClaimFailed | NoJob | Claimed(job: Job)

  datatype Built = BuildOk | DirectoryUnavailable | BuildFailed

  /** The answers one turn meets, in the order it asks: budget, context and licence, claim, build, writes. */
  datatype Turn = Turn(
    inTime: bool, mayClaim: bool, claim: Claim, licensedAfterClaim: bool, built: Built, licensedAfterBuild: bool,
    completeStored: bool, licensedBeforeRetry: bool, retryStored: bool)

  datatype Code = ProcessingFailed | InvalidPayload | RecipientDirectoryUnavailable

  /** A write to the job table, and whether the table took it. */
  datatype Write =
    | Complete(id: string, stored: bool)
    | Retry(id: string, code: Code, delayMinutes: nat, stored: bool)

  const BATCH_LIMIT := 50

  function Stored(writes: seq<Write>): nat {
    if writes == [] then 0
    else Stored(writes[..|writes| - 1]) + if writes[|writes| - 1].stored then 1 else 0
  }

  /** The job's last write is a stored completion. */
  predicate Completed(writes: seq<Write>) {
    writes != [] && writes[|writes| - 1].Complete? && writes[|writes| - 1].stored
  }

  function Completions(log: seq<seq<Write>>): nat {
    if log == [] then 0
    else Completions(log[..|log| - 1]) + if Completed(log[|log| - 1]) then 1 else 0
  }

  // ----- Settling one job -----

  /** A retry names what went wrong; it waits one to 256 minutes by its count, an hour for an unreadable payload. */
  ghost predicate RetryFits(job: Job, t: Turn, w: Write) {
    w.Retry? ==>
      && w.code == (if job.invalid then InvalidPayload
                    else if t.built.DirectoryUnavailable? then RecipientDirectoryUnavailable
                    else ProcessingFailed)
      && w.delayMinutes == (if job.invalid then 60 else if job.retries <= 8 then Outbox.Pow2(job.retries) else 256)
  }

  lemma Pow2Of8()
    ensures Outbox.Pow2(8) == 256
  {
    assert Outbox.Pow2(4) == 16;
  }

  lemma StoredDisplays(x: Write, y: Write)
    ensures Stored([x]) == if x.stored then 1 else 0
    ensures Stored([x, y]) == Stored([x]) + Stored([y])
  {
    assert [x][..0] == [] && [y][..0] == [];
    assert [x, y][..1] == [x];
  }

  method RetryOf(job: Job, t: Turn) returns (w: Write)
    ensures w.Retry? && w.id == job.id && w.stored == t.retryStored && RetryFits(job, t, w)
  {
    var code := if job.invalid then InvalidPayload
                else if t.built.DirectoryUnavailable? then RecipientDirectoryUnavailable
                else ProcessingFailed;
    var step := if job.retries < 8 then job.retries else 8;
    Pow2Of8();
    w := Retry(job.id, code, if job.invalid then 60 else Outbox.Pow2(step), t.retryStored);
  }

  /** The job may be worked on to the end: it is this tenant's, and the licence outlives the build. */
  predicate Licensed(job: Job, t: Turn) {
    job.ours && t.licensedAfterClaim && t.licensedAfterBuild
  }

  /** A completion is attempted. */
  predicate Attempts(job: Job, t: Turn) {
    Licensed(job, t) && !job.invalid && t.built.BuildOk?
  }

  predicate Completes(job: Job, t: Turn) {
    Attempts(job, t) && t.completeStored
  }

  /** The dispatch breaks off and leaves the job to its lease. */
  predicate Fails(job: Job, t: Turn) {
    !Licensed(job, t) || (!Completes(job, t) && (!t.licensedBeforeRetry || !t.retryStored))
  }

  /** One write of this job, as its turn allows it. */
  ghost predicate WriteFits(job: Job, t: Turn, w: Write) {
    && w.id == job.id && RetryFits(job, t, w)
    && (w.Complete? ==> Attempts(job, t) && w.stored == t.completeStored)
    && (w.Retry? ==> w.stored == t.retryStored)
  }

  /**
   * How a turn ends for its job: completed by its last write exactly when all went well; otherwise by one stored
   * retry, unless the dispatch fails, and then nothing at all is stored. Never are two writes stored.
   */
  ghost predicate SettledAs(job: Job, t: Turn, writes: seq<Write>) {
    && (forall i :: 0 <= i < |writes| ==> WriteFits(job, t, writes[i]))
    && Stored(writes) == (if Fails(job, t) then 0 else 1)
    && (Completed(writes) <==> Completes(job, t))
    && ((exists i :: 0 <= i < |writes| && writes[i].Complete?) <==> Attempts(job, t))
    && (!Fails(job, t) && !Completes(job, t) ==>
          writes != [] && writes[|writes| - 1].Retry? && writes[|writes| - 1].stored)
  }

  lemma Unwritten(job: Job, t: Turn)
    requires Fails(job, t) && !Attempts(job, t)
    ensures SettledAs(job, t, [])
  {
  }

  lemma OneWrite(job: Job, t: Turn, w: Write)
    requires WriteFits(job, t, w) && (w.Complete? <==> Attempts(job, t)) && (Fails(job, t) <==> !w.stored)
    ensures SettledAs(job, t, [w])
  {
    StoredDisplays(w, w);
    assert [w][0] == w;
  }

  lemma CompletionThenRetry(job: Job, t: Turn, complete: Write, retry: Write)
    requires WriteFits(job, t, complete) && WriteFits(job, t, retry) && complete.Complete? && retry.Retry?
    requires !Completes(job, t) && (Fails(job, t) <==> !retry.stored)
    ensures SettledAs(job, t, [complete, retry])
  {
    StoredDisplays(complete, retry);
    StoredDisplays(retry, retry);
    assert [complete, retry][0] == complete && [complete, retry][1] == retry;
  }

  /** Completes the job or, failing that, schedules its retry; an error leaves it to its lease. */
  method Settle(job: Job, t: Turn) returns (writes: seq<Write>, failed: bool)
    ensures SettledAs(job, t, writes) && (failed <==> Fails(job, t))
  {
    if !job.ours || !t.licensedAfterClaim || !t.licensedAfterBuild {
      Unwritten(job, t);
      return [], true;
    }
    var complete := Complete(job.id, t.completeStored);
    var attempted := !job.invalid && t.built.BuildOk?;
    if attempted && t.completeStored {
      OneWrite(job, t, complete);
      return [complete], false;
    }
    if !t.licensedBeforeRetry {
      if attempted {
        OneWrite(job, t, complete);
        return [complete], true;
      }
      Unwritten(job, t);
      return [], true;
    }
    var retry := RetryOf(job, t);
    failed := !t.retryStored;
    if attempted {
      CompletionThenRetry(job, t, complete, retry);
      writes := [complete, retry];
    } else {
      OneWrite(job, t, retry);
      writes := [retry];
    }
  }

  // ----- One dispatch -----

  /** Why a dispatch ended. */
  datatype Stop = Bound | OutOfTime | NothingLeft | Broken

  function Limit(limit: int): (bound: nat)
    ensures 1 <= bound <= BATCH_LIMIT
  {
    if limit <= 0 || limit > BATCH_LIMIT then BATCH_LIMIT else limit
  }

  predicate Claims(t: Turn) {
    t.inTime && t.mayClaim && t.claim.Claimed?
  }

  /** The turn claimed a job and broke off on it. */
  predicate FailedTurn(t: Turn) {
    Claims(t) && Fails(t.claim.job, t)
  }

  ghost predicate SettledTurn(t: Turn, writes: seq<Write>) {
    Claims(t) && SettledAs(t.claim.job, t, writes)
  }

  /** The reason is the first thing that stood in the way of turn n, or what turn n - 1 broke off with. */
  ghost predicate StopsFor(turns: seq<Turn>, bound: nat, n: nat, stop: Stop)
    requires n <= bound <= |turns|
  {
    match stop
    case Bound => n == bound
    case OutOfTime => n < bound && !turns[n].inTime
    case NothingLeft => n < bound && turns[n].inTime && turns[n].mayClaim && turns[n].claim.NoJob?
    case Broken =>
      || (n < bound && turns[n].inTime && (!turns[n].mayClaim || turns[n].claim.ClaimFailed?))
      || (n > 0 && FailedTurn(turns[n - 1]))
  }

  /**
   * The dispatch claims and settles job after job up to the first obstacle, and says which one it was. Every job
   * is settled as its turn demands; only the last can be left unsettled, and then the dispatch reports an error.
   * The number returned counts the stored completions.
   */
  method Dispatch(limit: int, turns: seq<Turn>) returns (completed: nat, stop: Stop, log: seq<seq<Write>>)
    requires |turns| >= BATCH_LIMIT
    ensures |log| <= Limit(limit) && forall i :: 0 <= i < |log| ==> SettledTurn(turns[i], log[i])
    ensures forall i :: 0 <= i < |log| && (i < |log| - 1 || stop != Broken) ==> !FailedTurn(turns[i])
    ensures StopsFor(turns, Limit(limit), |log|, stop)
    ensures completed == Completions(log)
  {
    var bound := Limit(limit);
    completed, stop, log := 0, Bound, [];
    while |log| < bound
      invariant |log| <= bound && stop == Bound
      invariant forall i :: 0 <= i < |log| ==> SettledTurn(turns[i], log[i]) && !FailedTurn(turns[i])
      invariant completed == Completions(log)
      decreases bound - |log|
    {
      var t := turns[|log|];
      if !t.inTime {
        return completed, OutOfTime, log;
      }
      if !t.mayClaim || t.claim.ClaimFailed? {
        return completed, Broken, log;
      }
      if t.claim.NoJob? {
        return completed, NothingLeft, log;
      }
      var writes, failed := Settle(t.claim.job, t);
      assert (log + [writes])[..|log|] == log;
      log := log + [writes];
      if failed {
        return completed, Broken, log;
      }
      if Completed(writes) {
        completed := completed + 1;
      }
    }
  }

  // ----- In terms of the answers -----

  const MINUTES: seq<nat> := [1, 2, 4, 8, 16, 32, 64, 128, 256]

  /**
   * A job is completed if it is ours and readable, the licence held to the end, its effects were built and the
   * completion was stored. Otherwise it is retried, unless it is not ours, a licence ran out or the table refused.
   */
  lemma SettledMeans(job: Job, t: Turn, writes: seq<Write>)
    requires SettledAs(job, t, writes)
    ensures var licensed := job.ours && t.licensedAfterClaim && t.licensedAfterBuild;
      var done := licensed && !job.invalid && t.built == BuildOk && t.completeStored;
      var retried := licensed && !done && t.licensedBeforeRetry && t.retryStored;
      && (Completed(writes) <==> done)
      && (Fails(job, t) <==> !done && !retried)
      && Stored(writes) == (if done || retried then 1 else 0)
      && (retried ==> writes != [] && writes[|writes| - 1] == Write.Retry(
            job.id,
            if job.invalid then InvalidPayload
            else if t.built == DirectoryUnavailable then RecipientDirectoryUnavailable else ProcessingFailed,
            if job.invalid then 60 else MINUTES[if job.retries > 8 then 8 else job.retries],
            true))
  {
    assert Outbox.Pow2(0) == 1 && Outbox.Pow2(1) == 2 && Outbox.Pow2(2) == 4 && Outbox.Pow2(3) == 8;
    assert Outbox.Pow2(4) == 16 && Outbox.Pow2(5) == 32 && Outbox.Pow2(6) == 64;
    assert Outbox.Pow2(7) == 128;
    Pow2Of8();
  }

  /** A completion is tried for every readable job whose effects were built under a licence, and for no other. */
  lemma TriedMeans(job: Job, t: Turn, writes: seq<Write>)
    requires SettledAs(job, t, writes)
    ensures (exists i :: 0 <= i < |writes| && writes[i].Complete?)
      <==> job.ours && t.licensedAfterClaim && t.licensedAfterBuild && !job.invalid && t.built == BuildOk
    ensures forall i :: 0 <= i < |writes| ==> writes[i].id == job.id
  {
  }

  lemma {:induction false} StoredIs(writes: seq<Write>)
    ensures Stored(writes) == |set i | 0 <= i < |writes| && writes[i].stored|
  {
    if writes != [] {
      var front, n := writes[..|writes| - 1], |writes| - 1;
      StoredIs(front);
      var before, after := set i | 0 <= i < |front| && front[i].stored, set i | 0 <= i < |writes| && writes[i].stored;
      assert after == before + if writes[n].stored then {n} else {};
    }
  }

  /** The dispatch counts the jobs it completed. */
  lemma {:induction false} CompletionsIs(log: seq<seq<Write>>)
    ensures Completions(log) == |set i | 0 <= i < |log| && Completed(log[i])|
  {
    if log != [] {
      var front, n := log[..|log| - 1], |log| - 1;
      CompletionsIs(front);
      var before, after := set i | 0 <= i < |front| && Completed(front[i]), set i | 0 <= i < |log| && Completed(log[i]);
      assert after == before + if Completed(log[n]) then {n} else {};
    }
  }

  lemma LimitIs(limit: int)
    ensures Limit(limit) == if 1 <= limit <= 50 then limit else 50
  {
  }

  /** A turn settles a job only in time, while claiming is allowed, and the job it claimed. */
  lemma TurnMeans(t: Turn, writes: seq<Write>)
    requires SettledTurn(t, writes)
    ensures t.inTime && t.mayClaim && t.claim.Claimed? && SettledAs(t.claim.job, t, writes)
    ensures var job := t.claim.job;
      var licensed := job.ours && t.licensedAfterClaim && t.licensedAfterBuild;
      FailedTurn(t) <==> !licensed || (!Completed(writes) && !(t.licensedBeforeRetry && t.retryStored))
  {
    SettledMeans(t.claim.job, t, writes);
  }
}
