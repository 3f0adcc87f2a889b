/** What each operation does to a job, field by field, and which operation decided how a finished job ended. */
module JobOutcomes {
  import opened Prelude
  import opened JobQueue
  import opened JobRuns

  // ---- settling ----------------------------------------------------------------------------------

  /** The worker works on the job and still owns it. */
  predicate Holds(s: System, w: WorkerId, id: Id) {
    && w in s.workers && s.workers[w].Working? && s.workers[w].job == id
    && id in s.jobs && s.jobs[id].status == Running && s.jobs[id].leaseOwner == Some(w)
  }

  /** The job is changed as given and the worker goes idle; nothing else changes. */
  predicate SettledTo(s: System, t: System, w: WorkerId, id: Id, job: Job) {
    t == s.(jobs := s.jobs[id := job], workers := s.workers[w := Idle])
  }

  /** The owner's success is recorded with its result, and an old error is forgotten. */
  lemma SuccessIsRecorded(s: System, w: WorkerId, id: Id, result: string)
    requires Holds(s, w, id) && !s.jobs[id].cancelRequested
    ensures SettledTo(s, Apply(s, Succeed(w, result)), w, id,
                      s.jobs[id].(status := Succeeded, result := Some(result), lastError := None,
                                  leaseOwner := None, leaseExpiresAt := None, finishedAt := Some(s.now)))
  {
  }

  /** A cancel asked for during the work wins, however the work ends. */
  lemma AskedCancelWins(s: System, w: WorkerId, id: Id, result: string, error: string, retryable: bool)
    requires Holds(s, w, id) && s.jobs[id].cancelRequested
    ensures var ended := s.jobs[id].(status := Status.Cancelled, leaseOwner := None, leaseExpiresAt := None,
                                     finishedAt := Some(s.now));
            && SettledTo(s, Apply(s, Succeed(w, result)), w, id, ended)
            && SettledTo(s, Apply(s, Fail(w, error, retryable)), w, id, ended)
  {
  }

  predicate IsClipped(message: string, clipped: string) {
    if |message| <= 500 then clipped == message else clipped == message[..500]
  }

  /** A failure is retried while attempts are left and the error allows it, after a wait that doubles every attempt. */
  lemma FailureIsRetried(s: System, w: WorkerId, id: Id, error: string)
    requires Holds(s, w, id) && !s.jobs[id].cancelRequested
    requires s.jobs[id].attempts < s.jobs[id].maxAttempts
    ensures exists clipped | IsClipped(error, clipped) ::
        SettledTo(s, Apply(s, Fail(w, error, true)), w, id,
                  s.jobs[id].(status := Retrying,
                              availableAt := s.now + s.config.backoff * Pow2(Max(s.jobs[id].attempts - 1, 0)),
                              lastError := Some(clipped), leaseOwner := None, leaseExpiresAt := None))
  {
    assert IsClipped(error, Clip(error));
  }

  /** It is final when the error cannot be retried or the attempts are spent. */
  lemma FailureIsFinal(s: System, w: WorkerId, id: Id, error: string, retryable: bool)
    requires Holds(s, w, id) && !s.jobs[id].cancelRequested
    requires !retryable || s.jobs[id].attempts >= s.jobs[id].maxAttempts
    ensures exists clipped | IsClipped(error, clipped) ::
        SettledTo(s, Apply(s, Fail(w, error, retryable)), w, id,
                  s.jobs[id].(status := Status.Failed, finishedAt := Some(s.now), lastError := Some(clipped),
                              leaseOwner := None, leaseExpiresAt := None))
  {
    assert IsClipped(error, Clip(error));
  }

  // ---- leases ------------------------------------------------------------------------------------

  predicate LeaseHasRunOut(s: System, id: Id) {
    && id in s.jobs && s.jobs[id].status == Running
    && s.jobs[id].leaseExpiresAt.Some? && s.jobs[id].leaseExpiresAt.value < s.now
  }

  /** Recovery by an idle worker settles exactly the named jobs whose lease has run out: a cancel wins, spent attempts
      fail, and any other job waits for its next attempt. */
  lemma RecoveryOutcome(s: System, w: WorkerId, rows: set<Id>, id: Id)
    requires w in s.workers && s.workers[w] == Idle && id in s.jobs
    ensures var t, job := Apply(s, Recover(w, rows)), s.jobs[id];
            var released := job.(leaseOwner := None, leaseExpiresAt := None);
            && t.jobs.Keys == s.jobs.Keys && t.workers == s.workers[w := Scanning]
            && (!LeaseHasRunOut(s, id) || id !in rows ==> t.jobs[id] == job)
            && (LeaseHasRunOut(s, id) && id in rows ==>
                  && (job.cancelRequested ==>
                        t.jobs[id] == released.(status := Status.Cancelled, finishedAt := Some(s.now)))
                  && (!job.cancelRequested && job.attempts >= job.maxAttempts ==>
                        t.jobs[id] == released.(status := Status.Failed, finishedAt := Some(s.now),
                                                lastError := Some("Lease expired after final attempt")))
                  && (!job.cancelRequested && job.attempts < job.maxAttempts ==>
                        t.jobs[id] == released.(status := Retrying,
                                                availableAt :=
                                                  s.now + s.config.backoff * Pow2(Max(job.attempts - 1, 0)),
                                                lastError := Some("Lease expired; worker presumed stopped"))))
  {
  }

  /** Ready to be claimed: waiting, due and not cancelled. */
  predicate Ready(s: System, id: Id) {
    && id in s.jobs && (s.jobs[id].status == Queued || s.jobs[id].status == Retrying)
    && s.jobs[id].availableAt <= s.now && !s.jobs[id].cancelRequested
  }

  /** A claim pays one attempt and leases the job; a job that is not ready cannot be claimed. */
  lemma ClaimOutcome(s: System, w: WorkerId, id: Id)
    requires w in s.workers && s.workers[w] == Scanning
    ensures var t := Apply(s, Claim(w, id));
            if Ready(s, id) then
              var n := s.jobs[id].attempts + 1;
              && t.workers == s.workers[w := Working(id, n)]
              && t.jobs == s.jobs[id := s.jobs[id].(status := Running, attempts := n, leaseOwner := Some(w),
                                                    leaseExpiresAt := Some(s.now + s.config.lease),
                                                    startedAt := Some(s.now))]
            else t == s
  {
  }

  /** A heartbeat of the owner renews the lease; nobody else's does. */
  lemma BeatOutcome(s: System, w: WorkerId, id: Id)
    requires w in s.workers && s.workers[w].Working? && s.workers[w].job == id
    ensures Apply(s, Beat(w)) ==
            if Holds(s, w, id)
            then s.(jobs := s.jobs[id := s.jobs[id].(leaseExpiresAt := Some(s.now + s.config.lease))]) else s
  {
  }

  /** Workers come and go without touching a job: a new one is idle, a crashed one is dead whatever it was doing, and
      one that finds nothing to claim is idle again. */
  lemma WorkerOutcome(s: System, w: WorkerId)
    ensures Apply(s, Spawn(w)) == if w in s.workers then s else s.(workers := s.workers[w := Idle])
    ensures Apply(s, Crash(w)) == if w in s.workers then s.(workers := s.workers[w := Dead]) else s
    ensures Apply(s, ClaimNothing(w))
         == if w in s.workers && s.workers[w] == Scanning then s.(workers := s.workers[w := Idle]) else s
  {
  }

  // ---- administration ----------------------------------------------------------------------------

  predicate Over(s: System, id: Id) {
    && id in s.jobs
    && (s.jobs[id].status == Succeeded || s.jobs[id].status == Status.Failed || s.jobs[id].status == Status.Cancelled)
  }

  predicate Waiting(s: System, id: Id) {
    id in s.jobs && (s.jobs[id].status == Queued || s.jobs[id].status == Retrying)
  }

  /** A waiting job is cancelled at once, a running one is asked to stop, a finished one is left alone. */
  lemma CancelOutcome(s: System, id: Id)
    ensures Apply(s, Cancel(id)) ==
            if Waiting(s, id) then
              s.(jobs := s.jobs[id := s.jobs[id].(status := Status.Cancelled, cancelRequested := true,
                                                  finishedAt := Some(s.now))])
            else if id in s.jobs && s.jobs[id].status == Running then
              s.(jobs := s.jobs[id := s.jobs[id].(cancelRequested := true)])
            else s
  {
  }

  /** Exactly a finished job starts a new life: due at once, no attempt spent, its cancel and its error forgotten. */
  lemma RequeueOutcome(s: System, id: Id)
    ensures Apply(s, Requeue(id)).jobs ==
            if Over(s, id) then
              s.jobs[id := s.jobs[id].(status := Queued, attempts := 0, availableAt := s.now, cancelRequested := false,
                                       leaseOwner := None, leaseExpiresAt := None, lastError := None,
                                       finishedAt := None)]
            else s.jobs
  {
  }

  /** A new job is due at once, with no attempt spent. */
  lemma CreateOutcome(s: System, id: Id, sourceId: string, path: string, key: IdempotencyKey, maxAttempts: int)
    requires id !in s.jobs && maxAttempts >= 1 && 1 <= |path| <= 220
    requires forall i | i in s.jobs :: s.jobs[i].key != key
    ensures var t := Apply(s, Create(id, sourceId, path, key, maxAttempts));
            && t.jobs.Keys == s.jobs.Keys + {id} && (forall i | i in s.jobs :: t.jobs[i] == s.jobs[i])
            && var job := t.jobs[id];
            && job.sourceId == sourceId && job.path == path && job.key == key && job.maxAttempts == maxAttempts
            && job.status == Queued && job.attempts == 0 && job.availableAt == s.now && !job.cancelRequested
            && job.leaseOwner == None && job.leaseExpiresAt == None && job.finishedAt == None
            && job.lastError == None && job.result == None && job.startedAt == None
  {
  }

  // ---- how a finished job came to its end --------------------------------------------------------

  /** The step settles the job: its owner ends the work, or recovery finds its lease run out. */
  predicate SettlesJob(s: System, a: Action, id: Id) {
    match a
    case Succeed(w, _) => Holds(s, w, id)
    case Fail(w, _, _) => Holds(s, w, id)
    case Recover(w, rows) => w in s.workers && s.workers[w] == Idle && LeaseHasRunOut(s, id) && id in rows
    case _ => false
  }

  /** The end a step brings to the job, if it does. */
  function EndBy(s: System, a: Action, id: Id): Option<Status> {
    if a == Cancel(id) && Waiting(s, id) then Some(Status.Cancelled)
    else if !SettlesJob(s, a, id) then None
    else if s.jobs[id].cancelRequested then Some(Status.Cancelled)
    else if a.Succeed? then Some(Succeeded)
    else if (a.Fail? && !a.retryable) || s.jobs[id].attempts >= s.jobs[id].maxAttempts then Some(Status.Failed)
    else None
  }

  predicate HasEnded(s: System, id: Id, end: Status) {
    id in s.jobs && s.jobs[id].status == end
  }

  predicate IsEnd(end: Status) {
    end == Succeeded || end == Status.Failed || end == Status.Cancelled
  }

  /** A job stands ended after a step when the step brought that end, or it had ended so and was not requeued. */
  lemma EndsByStep(s: System, a: Action, id: Id, end: Status)
    requires IsEnd(end)
    ensures HasEnded(Apply(s, a), id, end) <==>
            EndBy(s, a, id) == Some(end) || (HasEnded(s, id, end) && a != Requeue(id))
  {
    if id in s.jobs {
      EveryJobStep(s, a, id);
    }
  }

  lemma {:induction false} RunNext(s: System, actions: seq<Action>, a: Action)
    ensures Run(s, actions + [a]) == Apply(Run(s, actions), a)
    decreases |actions|
  {
    if actions == [] {
      assert actions + [a] == [a];
      assert Run(Apply(s, a), []) == Apply(s, a);
    } else {
      assert (actions + [a])[1..] == actions[1..] + [a];
      RunNext(Apply(s, actions[0]), actions[1..], a);
    }
  }

  /** The k-th step brought this end, and nobody has requeued the job in the steps before the n-th since. */
  predicate LastEnded(config: Config, actions: seq<Action>, id: Id, end: Status, k: nat, n: nat) {
    && k < n <= |actions|
    && EndBy(Run(Initial(config), actions[..k]), actions[k], id) == Some(end)
    && forall j | k < j < n :: actions[j] != Requeue(id)
  }

  lemma {:induction false} EndedUpTo(config: Config, actions: seq<Action>, id: Id, end: Status, n: nat)
    requires IsEnd(end) && n <= |actions|
    ensures HasEnded(Run(Initial(config), actions[..n]), id, end) <==>
            exists k :: LastEnded(config, actions, id, end, k, n)
  {
    if n > 0 {
      var before := Run(Initial(config), actions[..n - 1]);
      EndedUpTo(config, actions, id, end, n - 1);
      assert actions[..n] == actions[..n - 1] + [actions[n - 1]];
      RunNext(Initial(config), actions[..n - 1], actions[n - 1]);
      EndsByStep(before, actions[n - 1], id, end);
      if EndBy(before, actions[n - 1], id) == Some(end) {
        assert LastEnded(config, actions, id, end, n - 1, n);
      } else if HasEnded(before, id, end) && actions[n - 1] != Requeue(id) {
        var k :| LastEnded(config, actions, id, end, k, n - 1);
        assert LastEnded(config, actions, id, end, k, n);
      }
      forall k: nat | k < n - 1 && LastEnded(config, actions, id, end, k, n)
        ensures LastEnded(config, actions, id, end, k, n - 1) && actions[n - 1] != Requeue(id)
      {
      }
    }
  }

  /** Over any run a job stands succeeded, failed or cancelled exactly when the last step that ended its present life
      ended it so: by its owner's success, a final failure or a lease run out on the last attempt, or a cancel. */
  lemma EndsAsLastSettled(config: Config, actions: seq<Action>, id: Id, end: Status)
    requires IsEnd(end)
    ensures HasEnded(Run(Initial(config), actions), id, end) <==>
            exists k :: LastEnded(config, actions, id, end, k, |actions|)
  {
    EndedUpTo(config, actions, id, end, |actions|);
    assert actions[..|actions|] == actions;
  }
}
