/** Ingestion jobs: leases, bounded retries with exponential backoff, cancel and requeue (repositories/jobs.py). */
module JobQueue {
  import opened Prelude

  type Id = nat
  type Time = int
  type WorkerId = nat

  datatype Status = Queued | Running | Succeeded | Retrying | Failed | Cancelled

  /** The caller's idempotency key, or the collision-free hash of source and path. */
  datatype IdempotencyKey = Given(key: string) | Derived(sourceId: string, path: string)

  datatype Config = Config(maxAttempts: int, lease: Time, backoff: Time)

  datatype Job = Job(
    sourceId: string,
    path: string,
    key: IdempotencyKey,
    status: Status,
    attempts: nat,
    maxAttempts: int,
    availableAt: Time,
    leaseOwner: Option<WorkerId>,
    leaseExpiresAt: Option<Time>,
    cancelRequested: bool,
    lastError: Option<string>,
    result: Option<string>,
    startedAt: Option<Time>,
    finishedAt: Option<Time>)
  {
    predicate Claimable() {
      status.Queued? || status.Retrying?
    }

    predicate Finished() {
      status.Failed? || status.Cancelled? || status.Succeeded?
    }

    predicate Due(now: Time) {
      Claimable() && availableAt <= now && !cancelRequested
    }

    predicate Expired(now: Time) {
      status.Running? && leaseExpiresAt.Some? && leaseExpiresAt.value < now
    }

    predicate OwnedBy(worker: WorkerId) {
      status.Running? && leaseOwner == Some(worker)
    }
  }

  type Jobs = map<Id, Job>

  const MAX_ERROR_LENGTH := 500
  const MAX_PATH_LENGTH := 220
  const EXPIRED_FINAL := "Lease expired after final attempt"
  const EXPIRED_RETRY := "Lease expired; worker presumed stopped"

  function Clip(message: string): (clipped: string)
    ensures clipped <= message && |clipped| <= MAX_ERROR_LENGTH
    ensures |message| <= MAX_ERROR_LENGTH ==> clipped == message
  {
    if |message| <= MAX_ERROR_LENGTH then message else message[..MAX_ERROR_LENGTH]
  }

  function Backoff(config: Config, attempts: nat): Time {
    config.backoff * Pow2(if attempts == 0 then 0 else attempts - 1)
  }

  // ---- the intended effect of each operation on one job ------------------------------------------

  function NewJob(
    config: Config, sourceId: string, path: string, key: IdempotencyKey, maxAttempts: int, now: Time): Job
  {
    Job(sourceId, path, key, Queued, 0, maxAttempts, now, None, None, false, None, None, None, None)
  }

  function Requeued(job: Job, now: Time): Job {
    job.(status := Queued, attempts := 0, availableAt := now, leaseOwner := None, leaseExpiresAt := None,
         cancelRequested := false, lastError := None, finishedAt := None)
  }

  function Claimed(config: Config, job: Job, worker: WorkerId, now: Time): Job {
    job.(status := Running, leaseOwner := Some(worker), leaseExpiresAt := Some(now + config.lease),
         startedAt := Some(now), attempts := job.attempts + 1)
  }

  function Released(job: Job): Job {
    job.(leaseOwner := None, leaseExpiresAt := None)
  }

  function CancelledAt(job: Job, now: Time): Job {
    Released(job).(status := Status.Cancelled, finishedAt := Some(now))
  }

  function Completed(job: Job, result: string, now: Time): Job {
    if job.cancelRequested then CancelledAt(job, now)
    else Released(job).(status := Succeeded, result := Some(result), lastError := None, finishedAt := Some(now))
  }

  function FailedWith(config: Config, job: Job, error: string, retryable: bool, now: Time): Job {
    if job.cancelRequested then CancelledAt(job, now)
    else if retryable && job.attempts < job.maxAttempts then
      Released(job).(status := Retrying, availableAt := now + Backoff(config, job.attempts),
                     lastError := Some(Clip(error)))
    else
      Released(job).(status := Status.Failed, finishedAt := Some(now), lastError := Some(Clip(error)))
  }

  function Recovered(config: Config, job: Job, now: Time): Job {
    if job.cancelRequested then CancelledAt(job, now)
    else if job.attempts >= job.maxAttempts then
      Released(job).(status := Status.Failed, finishedAt := Some(now), lastError := Some(EXPIRED_FINAL))
    else
      Released(job).(status := Retrying, availableAt := now + Backoff(config, job.attempts),
                     lastError := Some(EXPIRED_RETRY))
  }

  function CancelAsked(job: Job, now: Time): Job {
    if job.Claimable() then job.(status := Status.Cancelled, cancelRequested := true, finishedAt := Some(now))
    else job.(cancelRequested := true)
  }

  /** Recovery of the expired leases among the given rows; rows locked by another transaction are skipped. */
  function RecoveredAmong(config: Config, jobs: Jobs, rows: set<Id>, now: Time): Jobs {
    map id | id in jobs :: if id in rows && jobs[id].Expired(now) then Recovered(config, jobs[id], now) else jobs[id]
  }

  lemma RecoverOne(config: Config, jobs: Jobs, rows: set<Id>, id: Id, now: Time)
    requires id in jobs && jobs[id].Expired(now)
    ensures RecoveredAmong(config, jobs, rows + {id}, now)
        == RecoveredAmong(config, jobs, rows, now)[id := Recovered(config, jobs[id], now)]
  {
  }

  /** Rows whose lease has not expired are not touched, so the expired ones are all that matter. */
  lemma RecoverTheExpired(config: Config, jobs: Jobs, rows: set<Id>, now: Time)
    requires forall id | id in jobs && jobs[id].Expired(now) :: id in rows
    ensures RecoveredAmong(config, jobs, rows, now) == RecoveredAmong(config, jobs, jobs.Keys, now)
    ensures var after := RecoveredAmong(config, jobs, rows, now); forall id | id in after :: !after[id].Expired(now)
  {
  }

  // ---- the table, updated in place ---------------------------------------------------------------

  /** Earlier in the claim order: by availability, then by id. */
  predicate Before(jobs: Jobs, a: Id, b: Id)
    requires a in jobs && b in jobs
  {
    jobs[a].availableAt < jobs[b].availableAt || (jobs[a].availableAt == jobs[b].availableAt && a <= b)
  }

  predicate Selected(only: Option<set<Id>>, id: Id) {
    only.None? || id in only.value
  }

  class JobTable {
    const config: Config
    var jobs: Jobs

    constructor (config: Config)
      ensures this.config == config && jobs == map[]
    {
      this.config := config;
      jobs := map[];
    }

    /** Insert, or return the job that already has this key. An allowance of zero means the default; the table's
        check constraints refuse a negative one and a path outside 1 to 220 characters. */
    method CreateJob(sourceId: string, path: string, idempotencyKey: string, maxAttempts: int, now: Time, newId: Id)
      returns (id: Option<Id>, created: bool)
      requires newId !in jobs
      modifies this
      ensures var key := if idempotencyKey != "" then Given(idempotencyKey) else Derived(sourceId, path);
              var allowed := if maxAttempts != 0 then maxAttempts else config.maxAttempts;
              && (id.None? <==> allowed < 1 || |path| < 1 || |path| > MAX_PATH_LENGTH)
              && (created <==> id.Some? && forall i | i in old(jobs) :: old(jobs)[i].key != key)
              && (created ==>
                    && id == Some(newId)
                    && jobs == old(jobs)[newId := NewJob(config, sourceId, path, key, allowed, now)])
              && (!created ==> jobs == old(jobs))
              && (id.Some? ==> id.value in jobs && jobs[id.value].key == key)
    {
      var key := if idempotencyKey != "" then Given(idempotencyKey) else Derived(sourceId, path);
      var allowed := if maxAttempts != 0 then maxAttempts else config.maxAttempts;
      if allowed < 1 || |path| < 1 || |path| > MAX_PATH_LENGTH {
        return None, false;
      }
      var found := set i | i in jobs && jobs[i].key == key;
      if found != {} {
        var i :| i in found;
        id, created := Some(i), false;
      } else {
        assert forall i | i in jobs :: jobs[i].key == key ==> i in found;
        jobs := jobs[newId := NewJob(config, sourceId, path, key, allowed, now)];
        id, created := Some(newId), true;
      }
    }

    method RequeueJob(id: Id, now: Time) returns (found: bool)
      modifies this
      ensures found <==> id in old(jobs) && old(jobs)[id].Finished()
      ensures jobs == if found then old(jobs)[id := Requeued(old(jobs)[id], now)] else old(jobs)
    {
      found := id in jobs && jobs[id].Finished();
      if found {
        jobs := jobs[id := Requeued(jobs[id], now)];
      }
    }

    /** Claim the due job that has waited longest, among the given ones if a batch is named. */
    method ClaimNext(worker: WorkerId, now: Time, only: Option<set<Id>>) returns (claimed: Option<Id>)
      modifies this
      ensures claimed.None? ==>
        && jobs == old(jobs)
        && forall id | id in jobs && (only.Some? ==> id in only.value) :: !jobs[id].Due(now)
      ensures claimed.Some? ==>
        && claimed.value in old(jobs) && old(jobs)[claimed.value].Due(now)
        && (only.Some? ==> claimed.value in only.value)
        && (forall id | id in old(jobs) && (only.Some? ==> id in only.value) && old(jobs)[id].Due(now) ::
              || old(jobs)[claimed.value].availableAt < old(jobs)[id].availableAt
              || (old(jobs)[claimed.value].availableAt == old(jobs)[id].availableAt && claimed.value <= id))
        && jobs == old(jobs)[claimed.value := Claimed(config, old(jobs)[claimed.value], worker, now)]
    {
      var due := set id | id in jobs && Selected(only, id) && jobs[id].Due(now);
      if due == {} {
        assert forall id | id in jobs && Selected(only, id) && jobs[id].Due(now) :: id in due;
        return None;
      }
      var best :| best in due;
      var rest := due - {best};
      while rest != {}
        invariant best in due && rest <= due
        invariant forall id | id in due && id !in rest :: Before(jobs, best, id)
      {
        var next :| next in rest;
        if !Before(jobs, best, next) {
          best := next;
        }
        rest := rest - {next};
      }
      assert forall id | id in jobs && Selected(only, id) && jobs[id].Due(now) :: id in due && id !in rest;
      jobs := jobs[best := Claimed(config, jobs[best], worker, now)];
      claimed := Some(best);
    }

    method Heartbeat(id: Id, worker: WorkerId, now: Time) returns (owned: bool)
      modifies this
      ensures owned <==> id in old(jobs) && old(jobs)[id].OwnedBy(worker)
      ensures jobs ==
        if owned then old(jobs)[id := old(jobs)[id].(leaseExpiresAt := Some(now + config.lease))] else old(jobs)
    {
      owned := id in jobs && jobs[id].OwnedBy(worker);
      if owned {
        jobs := jobs[id := jobs[id].(leaseExpiresAt := Some(now + config.lease))];
      }
    }

    method CompleteJob(id: Id, worker: WorkerId, result: string, now: Time) returns (owned: bool)
      modifies this
      ensures owned <==> id in old(jobs) && old(jobs)[id].OwnedBy(worker)
      ensures jobs == if owned then old(jobs)[id := Completed(old(jobs)[id], result, now)] else old(jobs)
    {
      owned := id in jobs && jobs[id].OwnedBy(worker);
      if !owned {
        return;  // lease lost: someone else owns the outcome now
      }
      var job := jobs[id];
      if job.cancelRequested {
        job := CancelledAt(job, now);
      } else {
        job := job.(status := Succeeded, result := Some(result), lastError := None);
        job := job.(leaseOwner := None, leaseExpiresAt := None);
        job := job.(finishedAt := Some(now));
      }
      jobs := jobs[id := job];
    }

    method FailJob(id: Id, worker: WorkerId, error: string, retryable: bool, now: Time) returns (owned: bool)
      modifies this
      ensures owned <==> id in old(jobs) && old(jobs)[id].OwnedBy(worker)
      ensures jobs ==
        if owned then old(jobs)[id := FailedWith(config, old(jobs)[id], error, retryable, now)] else old(jobs)
    {
      owned := id in jobs && jobs[id].OwnedBy(worker);
      if !owned {
        return;
      }
      var job := jobs[id];
      if job.cancelRequested {
        job := CancelledAt(job, now);
      } else {
        job := job.(leaseOwner := None, leaseExpiresAt := None);
        job := job.(lastError := Some(Clip(error)));
        if retryable && job.attempts < job.maxAttempts {
          job := job.(status := Retrying, availableAt := now + Backoff(config, job.attempts));
        } else {
          job := job.(status := Status.Failed, finishedAt := Some(now));
        }
      }
      jobs := jobs[id := job];
    }

    /** Every expired lease is returned to the queue, failed or cancelled; nothing expired is left. */
    method RecoverExpiredLeases(now: Time) returns (count: nat)
      modifies this
      ensures jobs == RecoveredAmong(config, old(jobs), old(jobs).Keys, now)
      ensures count == |set id | id in old(jobs) && old(jobs)[id].Expired(now)|
      ensures forall id | id in jobs :: !jobs[id].Expired(now)
    {
      var expired := set id | id in jobs && jobs[id].Expired(now);
      count := |expired|;
      assert expired == set id | id in old(jobs) && old(jobs)[id].Expired(now);
      ghost var all := expired;
      while expired != {}
        invariant expired <= all
        invariant jobs == RecoveredAmong(config, old(jobs), all - expired, now)
      {
        var id :| id in expired;
        var job := jobs[id];
        if job.cancelRequested {
          job := job.(status := Status.Cancelled, finishedAt := Some(now));
        } else if job.attempts >= job.maxAttempts {
          job := job.(status := Status.Failed, finishedAt := Some(now), lastError := Some(EXPIRED_FINAL));
        } else {
          job := job.(status := Retrying, availableAt := now + Backoff(config, job.attempts));
          job := job.(lastError := Some(EXPIRED_RETRY));
        }
        job := job.(leaseOwner := None, leaseExpiresAt := None);
        assert job == Recovered(config, old(jobs)[id], now);
        RecoverOne(config, old(jobs), all - expired, id, now);
        assert all - (expired - {id}) == (all - expired) + {id};
        jobs := jobs[id := job];
        expired := expired - {id};
      }
      assert all - {} == all;
      RecoverTheExpired(config, old(jobs), all, now);
    }

    method CancelJob(id: Id, now: Time) returns (accepted: bool)
      modifies this
      ensures accepted <==> id in old(jobs) && !old(jobs)[id].Finished()
      ensures jobs == if accepted then old(jobs)[id := CancelAsked(old(jobs)[id], now)] else old(jobs)
    {
      accepted := false;
      if id in jobs {
        if jobs[id].Claimable() {
          jobs := jobs[id := jobs[id].(status := Status.Cancelled, cancelRequested := true, finishedAt := Some(now))];
          accepted := true;
        } else if jobs[id].status.Running? {
          jobs := jobs[id := jobs[id].(cancelRequested := true)];
          accepted := true;
        }
      }
    }
  }
}
