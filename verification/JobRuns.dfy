/**
 Runs of the job queue: sequential workers (ingestion/worker.py), administrators and the clock, one step per
 transaction. A worker recovers expired leases, claims, runs one job and settles it; it may crash anywhere, and its id
 is never used again.
 */
module JobRuns {
  import opened Prelude
  import opened JobQueue

  /** Where a worker process stands between its transactions. */
  datatype Phase = Idle | Scanning | Working(job: Id, attempt: nat) | Dead

  datatype System = System(
    config: Config,
    jobs: Jobs,
    workers: map<WorkerId, Phase>,
    claims: map<Id, seq<Time>>,   // when each job was claimed since it was created or last requeued
    now: Time)

  datatype Action =
    | Tick(seconds: nat)
    | Create(id: Id, sourceId: string, path: string, key: IdempotencyKey, maxAttempts: int)
    | Requeue(id: Id)
    | Cancel(id: Id)
    | Spawn(worker: WorkerId)
    | Recover(worker: WorkerId, rows: set<Id>)     // skipping rows another transaction has locked
    | Claim(worker: WorkerId, id: Id)              // any due job: the first not locked by another claim
    | ClaimNothing(worker: WorkerId)
    | Beat(worker: WorkerId)
    | Succeed(worker: WorkerId, result: string)
    | Fail(worker: WorkerId, error: string, retryable: bool)
    | Crash(worker: WorkerId)

  function Initial(config: Config): System {
    System(config, map[], map[], map[], 0)
  }

  predicate Is(s: System, w: WorkerId, phase: Phase) {
    w in s.workers && s.workers[w] == phase
  }

  predicate Owns(s: System, w: WorkerId, id: Id) {
    id in s.jobs && s.jobs[id].OwnedBy(w)
  }

  function ClaimsOf(s: System, id: Id): seq<Time> {
    if id in s.claims then s.claims[id] else []
  }

  function Apply(s: System, a: Action): System {
    match a
    case Tick(seconds) => s.(now := s.now + seconds)
    case Create(id, sourceId, path, key, maxAttempts) =>
      if id in s.jobs || maxAttempts < 1 || |path| < 1 || |path| > MAX_PATH_LENGTH
         || (exists i :: i in s.jobs && s.jobs[i].key == key) then s
      else s.(jobs := s.jobs[id := NewJob(s.config, sourceId, path, key, maxAttempts, s.now)],
                   claims := s.claims[id := []])
    case Requeue(id) =>
      if id in s.jobs && s.jobs[id].Finished()
      then s.(jobs := s.jobs[id := Requeued(s.jobs[id], s.now)], claims := s.claims[id := []]) else s
    case Cancel(id) =>
      if id in s.jobs && !s.jobs[id].Finished() then s.(jobs := s.jobs[id := CancelAsked(s.jobs[id], s.now)]) else s
    case Spawn(w) => if w in s.workers then s else s.(workers := s.workers[w := Idle])
    case Recover(w, rows) =>
      if Is(s, w, Idle)
      then s.(jobs := RecoveredAmong(s.config, s.jobs, rows, s.now), workers := s.workers[w := Scanning]) else s
    case Claim(w, id) =>
      if Is(s, w, Scanning) && id in s.jobs && s.jobs[id].Due(s.now) then
        s.(jobs := s.jobs[id := Claimed(s.config, s.jobs[id], w, s.now)],
           workers := s.workers[w := Working(id, s.jobs[id].attempts + 1)],
           claims := s.claims[id := ClaimsOf(s, id) + [s.now]])
      else s
    case ClaimNothing(w) => if Is(s, w, Scanning) then s.(workers := s.workers[w := Idle]) else s
    case Beat(w) =>
      if w in s.workers && s.workers[w].Working? && Owns(s, w, s.workers[w].job) then
        var id := s.workers[w].job;
        s.(jobs := s.jobs[id := s.jobs[id].(leaseExpiresAt := Some(s.now + s.config.lease))])
      else s
    case Succeed(w, result) =>
      if w in s.workers && s.workers[w].Working? then
        var id := s.workers[w].job;
        var idle := s.(workers := s.workers[w := Idle]);
        if Owns(s, w, id) then idle.(jobs := s.jobs[id := Completed(s.jobs[id], result, s.now)]) else idle
      else s
    case Fail(w, error, retryable) =>
      if w in s.workers && s.workers[w].Working? then
        var id := s.workers[w].job;
        var idle := s.(workers := s.workers[w := Idle]);
        if Owns(s, w, id)
        then idle.(jobs := s.jobs[id := FailedWith(s.config, s.jobs[id], error, retryable, s.now)]) else idle
      else s
    case Crash(w) => if w in s.workers then s.(workers := s.workers[w := Dead]) else s
  }

  function Run(s: System, actions: seq<Action>): System
    decreases |actions|
  {
    if actions == [] then s else Run(Apply(s, actions[0]), actions[1..])
  }

  // ---- the invariant -----------------------------------------------------------------------------

  predicate JobOk(job: Job) {
    && 1 <= job.maxAttempts
    && job.attempts <= job.maxAttempts
    && (job.Claimable() ==> job.attempts < job.maxAttempts)
    && (job.status.Running? ==> job.attempts >= 1)
    && (job.status.Running? <==> job.leaseOwner.Some?)
    && (job.status.Running? <==> job.leaseExpiresAt.Some?)
    && (job.Finished() <==> job.finishedAt.Some?)
    && (job.status.Cancelled? ==> job.cancelRequested)
    && (job.cancelRequested ==> job.status.Running? || job.status.Cancelled?)
  }

  /** The k-th claim of a life is at least backoff * (2^k - 1) after its first, counting k from zero. */
  ghost predicate Spaced(config: Config, times: seq<Time>) {
    forall k | 0 <= k < |times| :: times[k] - times[0] >= config.backoff * (Pow2(k) - 1)
  }

  /** The claim log of a job agrees with its row, and the job will not be due too early. */
  ghost predicate LogOk(s: System, id: Id)
    requires id in s.jobs
  {
    var job := s.jobs[id];
    var times := ClaimsOf(s, id);
    && |times| == job.attempts
    && Spaced(s.config, times)
    && (times != [] ==> times[|times| - 1] <= s.now)
    && (times != [] && job.Claimable() ==> job.availableAt - times[0] >= s.config.backoff * (Pow2(|times|) - 1))
  }

  /** A lease names a worker that holds exactly this claim, or died holding it. */
  ghost predicate LeaseOk(s: System, id: Id)
    requires id in s.jobs
  {
    s.jobs[id].leaseOwner.Some? ==>
      var w := s.jobs[id].leaseOwner.value;
      Is(s, w, Working(id, s.jobs[id].attempts)) || Is(s, w, Dead)
  }

  ghost predicate KeysUnique(jobs: Jobs) {
    forall i, j | i in jobs && j in jobs && jobs[i].key == jobs[j].key :: i == j
  }

  ghost predicate Inv(s: System) {
    && KeysUnique(s.jobs)
    && (forall id | id in s.jobs :: JobOk(s.jobs[id]))
    && (forall id | id in s.jobs :: LogOk(s, id))
    && (forall id | id in s.jobs :: LeaseOk(s, id))
  }

  /** Doubling the wait after k claims keeps the geometric spacing. */
  lemma NextWait(base: Time, first: Time, last: Time, now: Time, k: nat)
    requires k >= 1 && last <= now
    requires last - first >= base * (Pow2(k - 1) - 1)
    ensures now + base * Pow2(k - 1) - first >= base * (Pow2(k) - 1)
  {
    assert base * (Pow2(k) - 1) == base * (Pow2(k - 1) - 1) + base * Pow2(k - 1) by {
      assert Pow2(k) == 2 * Pow2(k - 1);
    }
  }

  lemma RetryLogOk(s: System, id: Id)
    requires Inv(s) && id in s.jobs && s.jobs[id].status.Running?
    ensures s.now + Backoff(s.config, s.jobs[id].attempts) - ClaimsOf(s, id)[0]
         >= s.config.backoff * (Pow2(|ClaimsOf(s, id)|) - 1)
  {
    assert JobOk(s.jobs[id]) && LogOk(s, id);
    var times := ClaimsOf(s, id);
    NextWait(s.config.backoff, times[0], times[|times| - 1], s.now, |times|);
  }

  // ---- how a job can change in one step ----------------------------------------------------------

  ghost predicate JobStep(s: System, a: Action, id: Id, after: Job)
    requires id in s.jobs
  {
    var job := s.jobs[id];
    || after == job
    || (a == Requeue(id) && job.Finished() && after == Requeued(job, s.now))
    || (a == Cancel(id) && !job.Finished() && after == CancelAsked(job, s.now))
    || (a.Recover? && job.Expired(s.now) && after == Recovered(s.config, job, s.now))
    || (a.Claim? && a.id == id && job.Due(s.now) && after == Claimed(s.config, job, a.worker, s.now))
    || (a.Beat? && job.OwnedBy(a.worker) && after == job.(leaseExpiresAt := Some(s.now + s.config.lease)))
    || (a.Succeed? && job.OwnedBy(a.worker) && after == Completed(job, a.result, s.now))
    || (a.Fail? && job.OwnedBy(a.worker) && after == FailedWith(s.config, job, a.error, a.retryable, s.now))
  }

  lemma EveryJobStep(s: System, a: Action, id: Id)
    requires id in s.jobs
    ensures id in Apply(s, a).jobs && JobStep(s, a, id, Apply(s, a).jobs[id])
    ensures Apply(s, a).jobs[id].key == s.jobs[id].key && Apply(s, a).jobs[id].maxAttempts == s.jobs[id].maxAttempts
  {
  }

  lemma LogStep(s: System, a: Action, id: Id)
    requires id in s.jobs
    ensures ClaimsOf(Apply(s, a), id) ==
            if Requeues(s, a, id) then []
            else if Claims(s, a, id) then ClaimsOf(s, id) + [s.now]
            else ClaimsOf(s, id)
    ensures Apply(s, a).now >= s.now && Apply(s, a).config == s.config
  {
  }

  lemma StepKeepsJob(s: System, a: Action, id: Id)
    requires Inv(s) && id in s.jobs
    ensures JobOk(Apply(s, a).jobs[id])
  {
    EveryJobStep(s, a, id);
    assert JobOk(s.jobs[id]);
  }

  lemma SpacedNext(config: Config, times: seq<Time>, now: Time)
    requires Spaced(config, times)
    requires times != [] ==> now - times[0] >= config.backoff * (Pow2(|times|) - 1)
    ensures Spaced(config, times + [now])
  {
    var times' := times + [now];
    forall k | 0 <= k < |times'|
      ensures times'[k] - times'[0] >= config.backoff * (Pow2(k) - 1)
    {
      if times == [] {
        assert Pow2(0) - 1 == 0;
      } else {
        assert times'[0] == times[0];
        assert k < |times| ==> times'[k] == times[k];
      }
    }
  }

  /** The next claim comes no sooner than the wait that its predecessors earned. */
  lemma ClaimKeepsSpacing(s: System, id: Id)
    requires id in s.jobs && LogOk(s, id) && s.jobs[id].Due(s.now)
    ensures Spaced(s.config, ClaimsOf(s, id) + [s.now])
  {
    SpacedNext(s.config, ClaimsOf(s, id), s.now);
  }

  predicate Claims(s: System, a: Action, id: Id) {
    a.Claim? && a.id == id && Is(s, a.worker, Scanning) && id in s.jobs && s.jobs[id].Due(s.now)
  }

  predicate Requeues(s: System, a: Action, id: Id) {
    a == Requeue(id) && id in s.jobs && s.jobs[id].Finished()
  }

  /** Any other step leaves the claims alone, and makes a job claimable only by making a running one wait. */
  lemma QuietStep(s: System, a: Action, id: Id)
    requires id in s.jobs && !Claims(s, a, id) && !Requeues(s, a, id)
    ensures id in Apply(s, a).jobs
    ensures var before, after := s.jobs[id], Apply(s, a).jobs[id];
            && after.attempts == before.attempts
            && (after.Claimable() ==>
                  || (before.Claimable() && after.availableAt == before.availableAt)
                  || (before.status.Running? && after.availableAt == s.now + Backoff(s.config, before.attempts)))
  {
  }

  lemma QuietKeepsLog(s: System, t: System, id: Id)
    requires Inv(s) && id in s.jobs && id in t.jobs
    requires ClaimsOf(t, id) == ClaimsOf(s, id) && t.now >= s.now && t.config == s.config
    requires t.jobs[id].attempts == s.jobs[id].attempts
    requires t.jobs[id].Claimable() ==>
      (s.jobs[id].Claimable() && t.jobs[id].availableAt == s.jobs[id].availableAt)
      || (s.jobs[id].status.Running? && t.jobs[id].availableAt == s.now + Backoff(s.config, s.jobs[id].attempts))
    ensures LogOk(t, id)
  {
    assert JobOk(s.jobs[id]) && LogOk(s, id);
    if s.jobs[id].status.Running? {
      RetryLogOk(s, id);
    }
  }

  lemma StepKeepsLog(s: System, a: Action, id: Id)
    requires Inv(s) && id in s.jobs
    ensures id in Apply(s, a).jobs && LogOk(Apply(s, a), id)
  {
    var t := Apply(s, a);
    LogStep(s, a, id);
    if Claims(s, a, id) {
      assert LogOk(s, id);
      ClaimKeepsSpacing(s, id);
      assert t.jobs[id] == Claimed(s.config, s.jobs[id], a.worker, s.now);
    } else if Requeues(s, a, id) {
      assert t.jobs[id] == Requeued(s.jobs[id], s.now);
    } else {
      QuietStep(s, a, id);
      QuietKeepsLog(s, t, id);
    }
  }

  predicate Settles(a: Action, w: WorkerId) {
    (a.Succeed? && a.worker == w) || (a.Fail? && a.worker == w)
  }

  /** A busy worker stays busy with the same claim until it settles, and a dead one stays dead. */
  lemma BusyStep(s: System, a: Action, w: WorkerId)
    requires w in s.workers && (s.workers[w].Dead? || (s.workers[w].Working? && !Settles(a, w)))
    ensures w in Apply(s, a).workers
    ensures Apply(s, a).workers[w] == s.workers[w] || Apply(s, a).workers[w].Dead?
  {
  }

  /** A lease after a step was just claimed, or was there before and is not being settled by its owner. */
  lemma LeaseStep(s: System, a: Action, id: Id)
    requires id in s.jobs
    ensures id in Apply(s, a).jobs
    ensures var before, after := s.jobs[id], Apply(s, a).jobs[id];
            after.leaseOwner.Some? ==>
              || (Claims(s, a, id) && after == Claimed(s.config, before, a.worker, s.now)
                  && Is(Apply(s, a), a.worker, Working(id, after.attempts)))
              || (after.leaseOwner == before.leaseOwner && after.attempts == before.attempts
                  && (before.OwnedBy(before.leaseOwner.value) && Settles(a, before.leaseOwner.value) ==>
                        !Is(s, before.leaseOwner.value, Working(id, before.attempts))))
  {
  }

  lemma StepKeepsLease(s: System, a: Action, id: Id)
    requires id in s.jobs && JobOk(s.jobs[id]) && LeaseOk(s, id)
    ensures id in Apply(s, a).jobs && LeaseOk(Apply(s, a), id)
  {
    LeaseStep(s, a, id);
    if s.jobs[id].leaseOwner.Some? && Apply(s, a).jobs[id].leaseOwner == s.jobs[id].leaseOwner && !Claims(s, a, id) {
      BusyStep(s, a, s.jobs[id].leaseOwner.value);
    }
  }

  lemma CreateKeepsInv(s: System, a: Action, id: Id)
    requires Inv(s) && id in Apply(s, a).jobs && id !in s.jobs
    ensures JobOk(Apply(s, a).jobs[id]) && LogOk(Apply(s, a), id) && LeaseOk(Apply(s, a), id)
    ensures forall i | i in s.jobs :: s.jobs[i].key != Apply(s, a).jobs[id].key
  {
    assert a.Create?;
  }

  lemma StepKeepsKeys(s: System, a: Action)
    requires Inv(s)
    ensures KeysUnique(Apply(s, a).jobs)
  {
    var t := Apply(s, a);
    forall i, j | i in t.jobs && j in t.jobs && t.jobs[i].key == t.jobs[j].key
      ensures i == j
    {
      if i in s.jobs {
        EveryJobStep(s, a, i);
      } else {
        CreateKeepsInv(s, a, i);
      }
      if j in s.jobs {
        EveryJobStep(s, a, j);
      } else {
        CreateKeepsInv(s, a, j);
      }
    }
  }

  lemma StepKeepsInv(s: System, a: Action)
    requires Inv(s)
    ensures Inv(Apply(s, a))
  {
    var t := Apply(s, a);
    forall id | id in t.jobs
      ensures JobOk(t.jobs[id]) && LogOk(t, id) && LeaseOk(t, id)
    {
      if id in s.jobs {
        StepKeepsJob(s, a, id);
        StepKeepsLog(s, a, id);
        StepKeepsLease(s, a, id);
      } else {
        CreateKeepsInv(s, a, id);
      }
    }
    StepKeepsKeys(s, a);
  }

  lemma {:induction false} RunKeepsInv(s: System, actions: seq<Action>)
    requires Inv(s)
    ensures Inv(Run(s, actions))
    decreases |actions|
  {
    if actions != [] {
      StepKeepsInv(s, actions[0]);
      RunKeepsInv(Apply(s, actions[0]), actions[1..]);
    }
  }
}
