/** The promises of the embedding pipeline, over every run from an empty table. */
module EmbeddingTheorems {
  import opened Prelude
  import opened EmbeddingRows
  import opened EmbeddingService
  import opened EmbeddingSafety

  // ---- what is searchable is right ---------------------------------------------------------------

  /** Whatever happened before, a searchable row holds the vector of its owner's current text, made by the
      provider, model and model revision that was asked for. */
  lemma CacheCoherence(kind: Kind, actions: seq<Action>, id: Id, versions: Versions)
    requires id in Run(Initial(kind), actions).rows
    requires var t := Run(Initial(kind), actions); Searchable(t.cat, kind, t.rows[id], versions)
    ensures var t := Run(Initial(kind), actions);
            && LoadSource(t.cat, kind, t.rows[id].ownerId).Live?
            && var text := LoadSource(t.cat, kind, t.rows[id].ownerId).source.text;
               t.rows[id].vector == Some(Vector(versions.identity, text))
  {
    Reachable(kind, actions);
    assert RowOk(Run(Initial(kind), actions).rows[id]);
  }

  /** An owner never has two vectors in one index, searchable or not. */
  lemma OneSuccessPerIndex(kind: Kind, actions: seq<Action>, i: Id, j: Id)
    requires var t := Run(Initial(kind), actions); i in t.rows && j in t.rows && Rivals(t.rows[i], t.rows[j])
    ensures i == j
  {
    Reachable(kind, actions);
  }

  /** All the ways a step can change a row that stays in the table. */
  ghost predicate RowStep(s: System, a: Action, id: Id, after: Row)
    requires id in s.rows
  {
    var before := s.rows[id];
    || after == before
    || (a.Start? && a.rowId == id && a.worker !in s.workers && after == ClaimedRow(before, a.worker, a.lease, s.now))
    || (before.status.Succeeded? && after == before.(status := Stale))
    || (exists how :: (a.Settle? || a.Finish?) && Lets(s, a.worker, id, how) && after == SettledRow(before, how, s.now))
    || (a.Finish? && Publishes(s, a.worker, id)
        && after == CompletedRow(before, s.workers[a.worker].phase.vector, s.now))
  }

  /** A worker holding the row is about to let go of it. */
  predicate Lets(s: System, w: Id, id: Id, how: Settlement) {
    && w in s.workers && s.workers[w].rowId == id && Holds(s.rows, id, w)
    && match s.workers[w].phase
       case Settling(_, h, _) => how == h
       case Embedded(_, _) => how == Settlement(Stale, 0)
       case _ => false
  }

  /** A worker holding the row has its vector and finds the source unchanged. */
  predicate Publishes(s: System, w: Id, id: Id) {
    && w in s.workers && s.workers[w].rowId == id && s.workers[w].phase.Embedded? && Holds(s.rows, id, w)
    && Matches(LoadSource(s.cat, s.kind, s.workers[w].phase.row.ownerId), s.workers[w].phase.row)
  }

  lemma EveryRowStep(s: System, a: Action, id: Id)
    requires id in s.rows && id in s.usedIds && id in Apply(s, a).rows
    ensures RowStep(s, a, id, Apply(s, a).rows[id])
  {
    match a
    case Settle(w) =>
      if w in s.workers && s.workers[w].phase.Settling? && s.workers[w].rowId == id && Holds(s.rows, id, w) {
        assert Lets(s, w, id, s.workers[w].phase.how);
      }
    case Finish(w) =>
      if w in s.workers && s.workers[w].phase.Embedded? && s.workers[w].rowId == id && Holds(s.rows, id, w) {
        assert Publishes(s, w, id) || Lets(s, w, id, Settlement(Stale, 0));
      }
    case _ =>
  }

  lemma NewRowsAreQueued(s: System, a: Action, id: Id)
    requires id !in s.rows && id in Apply(s, a).rows
    ensures Apply(s, a).rows[id].status.Queued?
  {
  }

  lemma PublishesCurrent(s: System, w: Id, id: Id)
    requires w in s.workers && WorkerOk(s, w) && Publishes(s, w, id)
    ensures var row := s.rows[id];
            && Matches(LoadSource(s.cat, s.kind, row.ownerId), row)
            && s.workers[w].phase.vector == Vector(row.key.identity, LoadSource(s.cat, s.kind, row.ownerId).source.text)
  {
  }

  /** A row becomes succeeded only in a closing transaction, and only while the live source is the one it describes. */
  lemma PublishedOnlyWhenCurrent(s: System, a: Action, id: Id)
    requires Inv(s)
    requires id in Apply(s, a).rows && Apply(s, a).rows[id].status.Succeeded?
    requires id in s.rows ==> !s.rows[id].status.Succeeded?
    ensures a.Finish? && id in s.rows && Holds(s.rows, id, a.worker)
    ensures var row := Apply(s, a).rows[id];
            && Matches(LoadSource(s.cat, s.kind, row.ownerId), row)
            && row.vector == Some(Vector(row.key.identity, LoadSource(s.cat, s.kind, row.ownerId).source.text))
  {
    if id !in s.rows {
      NewRowsAreQueued(s, a, id);
      assert false;
    }
    EveryRowStep(s, a, id);
    assert a.Finish? || a.Settle?;
    assert WorkerOk(s, a.worker);
    assert Publishes(s, a.worker, id);
    PublishesCurrent(s, a.worker, id);
  }

  // ---- fencing -----------------------------------------------------------------------------------

  predicate StepOf(a: Action, w: Id) {
    match a
    case Load(v) => v == w
    case Call(v, _) => v == w
    case Settle(v) => v == w
    case Finish(v) => v == w
    case Crash(v) => v == w
    case Start(v, _, _, _, _) => v == w
    case _ => false
  }

  /** The worker has lost its lease: expired and re-claimed, settled, or its row is gone. */
  predicate Fenced(s: System, w: Id) {
    w in s.workers && !Holds(s.rows, s.workers[w].rowId, w)
  }

  lemma FencedWritesNothing(s: System, w: Id, a: Action)
    requires Fenced(s, w) && StepOf(a, w)
    ensures Apply(s, a).rows == s.rows
  {
  }

  lemma ClaimKeepsFence(s: System, w: Id, id: Id, v: Id, lease: Time)
    requires Fenced(s, w)
    ensures v != w ==> !Holds(Claimed(s.rows, id, v, lease, s.now), s.workers[w].rowId, w)
  {
  }

  lemma StepKeepsFence(s: System, w: Id, a: Action)
    requires LeasesOk(s) && Fenced(s, w)
    ensures Fenced(Apply(s, a), w) && Apply(s, a).workers[w].rowId == s.workers[w].rowId
  {
    if a.Start? {
      ClaimKeepsFence(s, w, a.rowId, a.worker, a.lease);
    }
  }

  /** Once its lease is lost, a worker never changes the table again, whatever happens next. */
  lemma {:induction false} FencedForever(s: System, w: Id, actions: seq<Action>, a: Action)
    requires Inv(s) && Fenced(s, w) && StepOf(a, w)
    ensures Fenced(Run(s, actions), w)
    ensures Apply(Run(s, actions), a).rows == Run(s, actions).rows
    decreases |actions|
  {
    if actions == [] {
      FencedWritesNothing(s, w, a);
    } else {
      StepKeepsFence(s, w, actions[0]);
      StepKeepsInv(s, actions[0]);
      FencedForever(Apply(s, actions[0]), w, actions[1..], a);
    }
  }

  /** Re-claiming a row is one way to lose it: the previous holder is fenced from that step on. */
  lemma ReclaimFences(s: System, id: Id, w: Id, v: Id, provider: Provider, lease: Time, backoff: Time)
    requires Inv(s) && Holds(s.rows, id, w)
    requires v !in s.workers && CanClaim(s.rows[id], s.now)
    ensures Fenced(Apply(s, Start(v, id, provider, lease, backoff)), w)
    ensures Holds(Apply(s, Start(v, id, provider, lease, backoff)).rows, id, v)
  {
    assert s.workers[w].rowId == id;
  }

  // ---- bounds ------------------------------------------------------------------------------------

  /** Provider calls never exceed claims, claims never exceed the bound, and a queued row can still be claimed. */
  lemma AttemptsBounded(kind: Kind, actions: seq<Action>, id: Id)
    requires id in Run(Initial(kind), actions).rows
    ensures var t := Run(Initial(kind), actions);
            && Calls(t, id) <= t.rows[id].attempts <= t.rows[id].maxAttempts
            && (t.rows[id].status.Queued? ==> t.rows[id].attempts < t.rows[id].maxAttempts)
  {
    Reachable(kind, actions);
    assert RowOk(Run(Initial(kind), actions).rows[id]);
  }

  predicate ClaimsRow(s: System, a: Action, id: Id) {
    a.Start? && a.rowId == id && a.worker !in s.workers && id in s.rows && CanClaim(s.rows[id], s.now)
  }

  function ClaimsIn(s: System, actions: seq<Action>, id: Id): nat
    decreases |actions|
  {
    if actions == [] then 0
    else (if ClaimsRow(s, actions[0], id) then 1 else 0) + ClaimsIn(Apply(s, actions[0]), actions[1..], id)
  }

  lemma StepCountsClaims(s: System, a: Action, id: Id)
    requires id in s.rows && id in s.usedIds && id in Apply(s, a).rows
    ensures Apply(s, a).rows[id].attempts == s.rows[id].attempts + (if ClaimsRow(s, a, id) then 1 else 0)
    ensures Apply(s, a).rows[id].maxAttempts == s.rows[id].maxAttempts
  {
    EveryRowStep(s, a, id);
  }

  /** Row ids are never handed out twice. */
  lemma {:induction false} GoneForGood(s: System, actions: seq<Action>, id: Id)
    requires id in s.usedIds && id !in s.rows
    ensures id !in Run(s, actions).rows
    decreases |actions|
  {
    if actions != [] {
      GoneForGood(Apply(s, actions[0]), actions[1..], id);
    }
  }

  lemma UsedStaysUsed(s: System, a: Action, id: Id)
    requires id in s.usedIds
    ensures id in Apply(s, a).usedIds
  {
  }

  /** `attempts` counts the claims of a row exactly. */
  lemma {:induction false} AttemptsCountClaims(s: System, actions: seq<Action>, id: Id)
    requires id in s.rows && id in s.usedIds && id in Run(s, actions).rows
    ensures Run(s, actions).rows[id].attempts == s.rows[id].attempts + ClaimsIn(s, actions, id)
    ensures Run(s, actions).rows[id].maxAttempts == s.rows[id].maxAttempts
    decreases |actions|
  {
    if actions != [] {
      var t := Apply(s, actions[0]);
      UsedStaysUsed(s, actions[0], id);
      if id !in t.rows {
        GoneForGood(t, actions[1..], id);
      } else {
        StepCountsClaims(s, actions[0], id);
        AttemptsCountClaims(t, actions[1..], id);
      }
    }
  }

  /** So a row is claimed at most max_attempts times in its life. */
  lemma ClaimsAreBounded(s: System, actions: seq<Action>, id: Id)
    requires Inv(s) && id in s.rows && id in Run(s, actions).rows
    ensures s.rows[id].attempts + ClaimsIn(s, actions, id) <= s.rows[id].maxAttempts
  {
    assert id in s.usedIds;
    AttemptsCountClaims(s, actions, id);
    RunKeepsInv(s, actions);
    assert RowOk(Run(s, actions).rows[id]);
  }

  /** Outcomes are final: a row that failed or went stale is never touched again, and a success can only be demoted.
      Its vector is kept either way. */
  predicate SameOrDemoted(before: Row, after: Row) {
    after == before || (before.status.Succeeded? && after == before.(status := Stale))
  }

  lemma StepKeepsOutcome(s: System, a: Action, id: Id)
    requires id in s.rows && id in s.usedIds && s.rows[id].Terminal() && id in Apply(s, a).rows
    ensures SameOrDemoted(s.rows[id], Apply(s, a).rows[id])
  {
    EveryRowStep(s, a, id);
  }

  lemma {:induction false} OutcomesAreFinal(s: System, actions: seq<Action>, id: Id)
    requires id in s.rows && id in s.usedIds && s.rows[id].Terminal() && id in Run(s, actions).rows
    ensures SameOrDemoted(s.rows[id], Run(s, actions).rows[id])
    decreases |actions|
  {
    if actions != [] {
      var t := Apply(s, actions[0]);
      UsedStaysUsed(s, actions[0], id);
      if id !in t.rows {
        GoneForGood(t, actions[1..], id);
      } else {
        StepKeepsOutcome(s, actions[0], id);
        OutcomesAreFinal(t, actions[1..], id);
      }
    }
  }
}
