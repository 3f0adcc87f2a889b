/** The promises of the job queue, over every run of workers, administrators and the clock. */
module JobTheorems {
  import opened Prelude
  import opened JobQueue
  import opened JobRuns

  // ---- what every reachable job looks like -------------------------------------------------------

  /** The attempt bound, which claiming itself never tests, and the agreement of status, lease, finish time and cancel
      flag. */
  lemma JobStatesAreCoherent(config: Config, actions: seq<Action>, id: Id)
    requires id in Run(Initial(config), actions).jobs
    ensures var job := Run(Initial(config), actions).jobs[id];
            && job.attempts <= job.maxAttempts
            && (job.Claimable() ==> job.attempts < job.maxAttempts)
            && (job.status.Running? <==> job.leaseOwner.Some? && job.leaseExpiresAt.Some?)
            && (job.Finished() <==> job.finishedAt.Some?)
            && (job.status.Cancelled? ==> job.cancelRequested)
            && (job.cancelRequested ==> job.status.Running? || job.status.Cancelled?)
  {
    RunKeepsInv(Initial(config), actions);
    assert JobOk(Run(Initial(config), actions).jobs[id]);
  }

  lemma OneJobPerKey(config: Config, actions: seq<Action>, i: Id, j: Id)
    requires var t := Run(Initial(config), actions); i in t.jobs && j in t.jobs && t.jobs[i].key == t.jobs[j].key
    ensures i == j
  {
    RunKeepsInv(Initial(config), actions);
  }

  // ---- cancellation ------------------------------------------------------------------------------

  predicate NoRequeue(actions: seq<Action>, id: Id) {
    forall i | 0 <= i < |actions| :: actions[i] != Requeue(id)
  }

  lemma NoRequeueRest(actions: seq<Action>, id: Id)
    requires NoRequeue(actions, id) && actions != []
    ensures actions[0] != Requeue(id) && NoRequeue(actions[1..], id)
  {
    assert forall i | 0 <= i < |actions[1..]| :: actions[1..][i] == actions[i + 1];
  }

  /** An accepted cancel never ends in success or failure: until someone requeues the job, it is still running or it is
      cancelled. */
  lemma {:induction false} AcceptedCancelWins(s: System, actions: seq<Action>, id: Id)
    requires Inv(s) && id in s.jobs && s.jobs[id].cancelRequested && NoRequeue(actions, id)
    ensures id in Run(s, actions).jobs
    ensures var job := Run(s, actions).jobs[id];
            job.cancelRequested && (job.status.Running? || job.status.Cancelled?) && job.result == s.jobs[id].result
    ensures !s.jobs[id].status.Running? ==> Run(s, actions).jobs[id].status.Cancelled?
    decreases |actions|
  {
    if actions == [] {
      assert JobOk(s.jobs[id]);
    } else {
      var t := Apply(s, actions[0]);
      NoRequeueRest(actions, id);
      EveryJobStep(s, actions[0], id);
      assert JobOk(s.jobs[id]);
      StepKeepsInv(s, actions[0]);
      AcceptedCancelWins(t, actions[1..], id);
    }
  }

  // ---- termination -------------------------------------------------------------------------------

  function Rank(job: Job): nat {
    if job.status.Running? then 2 else if job.Claimable() then 1 else 0
  }

  /** The lexicographic measure (attempts left, status rank, cancel not yet asked), as one number. */
  function Measure(job: Job): int {
    6 * (job.maxAttempts - job.attempts) + 2 * Rank(job) + (if job.cancelRequested then 0 else 1)
  }

  /** Every step that changes a job without requeueing it or renewing its lease brings its end nearer. */
  lemma EveryChangeIsProgress(s: System, a: Action, id: Id)
    requires Inv(s) && id in s.jobs && a != Requeue(id)
    ensures id in Apply(s, a).jobs
    ensures Apply(s, a).jobs[id] != s.jobs[id] && !a.Beat? ==> Measure(Apply(s, a).jobs[id]) < Measure(s.jobs[id])
    ensures a.Beat? ==> Measure(Apply(s, a).jobs[id]) == Measure(s.jobs[id])
  {
    EveryJobStep(s, a, id);
    assert JobOk(s.jobs[id]);
  }

  function ChangesIn(s: System, actions: seq<Action>, id: Id): nat
    requires id in s.jobs
    decreases |actions|
  {
    if actions == [] then 0
    else
      EveryJobStep(s, actions[0], id);
      (if Apply(s, actions[0]).jobs[id] != s.jobs[id] && !actions[0].Beat? then 1 else 0)
      + ChangesIn(Apply(s, actions[0]), actions[1..], id)
  }

  /** However long the run, a job that is not requeued changes at most 6 * max_attempts + 5 times, renewals apart. */
  lemma {:induction false} ChangesAreBounded(s: System, actions: seq<Action>, id: Id)
    requires Inv(s) && id in s.jobs && NoRequeue(actions, id)
    ensures ChangesIn(s, actions, id) <= Measure(s.jobs[id]) <= 6 * s.jobs[id].maxAttempts + 5
    decreases |actions|
  {
    assert JobOk(s.jobs[id]);
    if actions != [] {
      NoRequeueRest(actions, id);
      EveryChangeIsProgress(s, actions[0], id);
      StepKeepsInv(s, actions[0]);
      EveryJobStep(s, actions[0], id);
      ChangesAreBounded(Apply(s, actions[0]), actions[1..], id);
    }
  }

  function ClaimsIn(s: System, actions: seq<Action>, id: Id): nat
    decreases |actions|
  {
    if actions == [] then 0
    else (if Claims(s, actions[0], id) then 1 else 0) + ClaimsIn(Apply(s, actions[0]), actions[1..], id)
  }

  /** A job is handed to workers at most max_attempts times before someone requeues it. */
  lemma {:induction false} RunsAtMostMaxAttempts(s: System, actions: seq<Action>, id: Id)
    requires Inv(s) && id in s.jobs && NoRequeue(actions, id)
    ensures id in Run(s, actions).jobs
    ensures Run(s, actions).jobs[id].attempts == s.jobs[id].attempts + ClaimsIn(s, actions, id)
    ensures s.jobs[id].attempts + ClaimsIn(s, actions, id) <= s.jobs[id].maxAttempts
    decreases |actions|
  {
    if actions == [] {
      assert JobOk(s.jobs[id]);
    } else {
      NoRequeueRest(actions, id);
      var a := actions[0];
      EveryJobStep(s, a, id);
      if Claims(s, a, id) {
        assert Apply(s, a).jobs[id] == Claimed(s.config, s.jobs[id], a.worker, s.now);
      } else {
        QuietStep(s, a, id);
      }
      StepKeepsInv(s, a);
      RunsAtMostMaxAttempts(Apply(s, a), actions[1..], id);
    }
  }

  // ---- fencing -----------------------------------------------------------------------------------

  /** A settle changes the table exactly when the worker still owns its job, and then the job is at the very attempt
      this worker claimed; otherwise a newer claim, or none, decides the outcome. */
  lemma SettleIsFenced(s: System, a: Action, w: WorkerId)
    requires Inv(s) && w in s.workers && s.workers[w].Working? && Settles(a, w)
    ensures Apply(s, a).jobs != s.jobs <==> Owns(s, w, s.workers[w].job)
    ensures Owns(s, w, s.workers[w].job) ==>
      && s.jobs[s.workers[w].job].attempts == s.workers[w].attempt
      && !Apply(s, a).jobs[s.workers[w].job].status.Running?
    ensures forall id | id in s.jobs && id != s.workers[w].job :: Apply(s, a).jobs[id] == s.jobs[id]
    ensures Apply(s, a).workers[w] == Idle
  {
    if Owns(s, w, s.workers[w].job) {
      assert LeaseOk(s, s.workers[w].job) && JobOk(s.jobs[s.workers[w].job]);
      assert Apply(s, a).jobs[s.workers[w].job] != s.jobs[s.workers[w].job];
    }
  }

  /** A worker never owns a job it is not working on, so two live workers never run one claim. */
  lemma OwnersAreWorking(config: Config, actions: seq<Action>, w: WorkerId, id: Id)
    requires Owns(Run(Initial(config), actions), w, id)
    ensures var t := Run(Initial(config), actions);
            Is(t, w, Working(id, t.jobs[id].attempts)) || Is(t, w, Dead)
  {
    RunKeepsInv(Initial(config), actions);
    assert LeaseOk(Run(Initial(config), actions), id);
  }

  /** Nobody can settle a job whose worker died: only recovery after the lease expires, or a cancel, moves it on. */
  lemma DeadWorkersJobWaits(s: System, a: Action, w: WorkerId, id: Id)
    requires Inv(s) && Owns(s, w, id) && Is(s, w, Dead) && !a.Recover? && a != Cancel(id)
    ensures id in Apply(s, a).jobs && Apply(s, a).jobs[id] == s.jobs[id]
  {
    EveryJobStep(s, a, id);
    assert JobOk(s.jobs[id]) && LeaseOk(s, id);
  }

  // ---- backoff -----------------------------------------------------------------------------------

  /** Whether attempts end by failure or by lease expiry, the claims of one life of a job are spaced geometrically. */
  lemma ClaimsAreSpaced(config: Config, actions: seq<Action>, id: Id, n: nat)
    requires id in Run(Initial(config), actions).jobs && n < |ClaimsOf(Run(Initial(config), actions), id)|
    ensures var times := ClaimsOf(Run(Initial(config), actions), id);
            times[n] - times[0] >= config.backoff * (Pow2(n) - 1)
  {
    RunKeepsInv(Initial(config), actions);
    RunKeepsConfig(Initial(config), actions);
    assert LogOk(Run(Initial(config), actions), id);
  }

  lemma {:induction false} RunKeepsConfig(s: System, actions: seq<Action>)
    ensures Run(s, actions).config == s.config
    decreases |actions|
  {
    if actions != [] {
      RunKeepsConfig(Apply(s, actions[0]), actions[1..]);
    }
  }
}
