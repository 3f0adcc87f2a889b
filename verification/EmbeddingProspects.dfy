/** What can still become of an owner: when it can be made searchable, and when only a catalogue edit helps. */
module EmbeddingProspects {
  import opened Prelude
  import opened EmbeddingRows
  import opened EmbeddingService
  import opened EmbeddingSafety
  import opened EmbeddingTheorems

  // ---- runs put together -------------------------------------------------------------------------

  lemma RunFirst(s: System, actions: seq<Action>, a: Action, rest: seq<Action>)
    requires actions == [a] + rest
    ensures Run(s, actions) == Run(Apply(s, a), rest)
  {
    assert actions[1..] == rest;
  }

  lemma {:induction false} RunAppend(s: System, first: seq<Action>, last: seq<Action>)
    ensures Run(s, first + last) == Run(Run(s, first), last)
    decreases |first|
  {
    if first == [] {
      assert first + last == last;
    } else {
      assert (first + last)[1..] == first[1..] + last;
      RunAppend(Apply(s, first[0]), first[1..], last);
    }
  }

  predicate NoEdits(actions: seq<Action>) {
    forall i | 0 <= i < |actions| :: !actions[i].Edit?
  }

  lemma NoEditsRest(actions: seq<Action>)
    requires NoEdits(actions) && actions != []
    ensures !actions[0].Edit? && NoEdits(actions[1..])
  {
    assert forall i | 0 <= i < |actions[1..]| :: actions[1..][i] == actions[i + 1];
  }

  // ---- what makes an owner searchable ------------------------------------------------------------

  function Fitting(key: Key): Provider {
    Provider(key.identity, EMBEDDING_DIMENSIONS)
  }

  function CurrentVector(s: System, row: Row): Vector
    requires LoadSource(s.cat, s.kind, row.ownerId).Live?
  {
    Vector(row.key.identity, LoadSource(s.cat, s.kind, row.ownerId).source.text)
  }

  /** The worker holds the row of the current source and nothing but its own next steps is missing. */
  predicate Promising(s: System, w: Id, id: Id) {
    && w in s.workers && s.workers[w].rowId == id && Holds(s.rows, id, w)
    && Matches(LoadSource(s.cat, s.kind, s.rows[id].ownerId), s.rows[id])
    && s.workers[w].phase.InFlight() && CopyFits(s.workers[w].phase.row, s.rows[id])
    && match s.workers[w].phase
       case Loading(_) => s.workers[w].provider == Fitting(s.rows[id].key)
       case Embedding(_, text) =>
         s.workers[w].provider == Fitting(s.rows[id].key) && text == CurrentVector(s, s.rows[id]).text
       case Embedded(_, vector) => vector == CurrentVector(s, s.rows[id])
       case _ => false
  }

  /** The steps left before a worker returns. */
  function StepsLeft(phase: Phase, w: Id): seq<Action> {
    match phase
    case Loading(_) => [Load(w), Call(w, Answered), Finish(w)]
    case Embedding(_, _) => [Call(w, Answered), Finish(w)]
    case Embedded(_, _) => [Finish(w)]
    case _ => []
  }

  /** The worker has published the row's vector, and nothing else happened but the demotion of older successes. */
  predicate Published(s: System, t: System, w: Id, id: Id)
    requires id in s.rows && LoadSource(s.cat, s.kind, s.rows[id].ownerId).Live?
  {
    && t.kind == s.kind && t.cat == s.cat && t.now == s.now && t.usedIds == s.usedIds
    && t.rows == Completed(s.rows, id, w, CurrentVector(s, s.rows[id]), s.now)
    && t.workers.Keys == s.workers.Keys && w in t.workers && t.workers[w].phase == Returned(SaysSucceeded)
  }

  lemma PromisingStep(s: System, w: Id, id: Id)
    requires Promising(s, w, id)
    ensures s.workers[w].phase.Loading? ==>
              && Promising(Apply(s, Load(w)), w, id) && Apply(s, Load(w)).workers[w].phase.Embedding?
              && SameButFor(s, Apply(s, Load(w)), w)
    ensures s.workers[w].phase.Embedding? ==>
              && Promising(Apply(s, Call(w, Answered)), w, id) && Apply(s, Call(w, Answered)).workers[w].phase.Embedded?
              && SameButFor(s, Apply(s, Call(w, Answered)), w)
    ensures s.workers[w].phase.Embedded? ==> Published(s, Apply(s, Finish(w)), w, id)
  {
  }

  /** Only the worker moved on, and perhaps a call was counted. */
  predicate SameButFor(s: System, t: System, w: Id) {
    && t.kind == s.kind && t.cat == s.cat && t.now == s.now && t.usedIds == s.usedIds && t.rows == s.rows
    && t.workers.Keys == s.workers.Keys
  }

  lemma PublishedIsSearchable(s: System, t: System, w: Id, id: Id)
    requires id in s.rows && Holds(s.rows, id, w)
    requires Matches(LoadSource(s.cat, s.kind, s.rows[id].ownerId), s.rows[id]) && Published(s, t, w, id)
    ensures id in t.rows && Searchable(t.cat, t.kind, t.rows[id], s.rows[id].Index())
    ensures t.rows[id].ownerId == s.rows[id].ownerId
  {
  }

  /** Left alone, a promising worker publishes. */
  lemma PromisingPublishes(s: System, w: Id, id: Id)
    requires Promising(s, w, id)
    ensures Published(s, Run(s, StepsLeft(s.workers[w].phase, w)), w, id)
  {
    var s1, s2 := s, s;
    if s.workers[w].phase.Loading? {
      PromisingStep(s, w, id);
      s1 := Apply(s, Load(w));
      RunFirst(s, StepsLeft(s.workers[w].phase, w), Load(w), [Call(w, Answered), Finish(w)]);
    }
    s2 := s1;
    if s1.workers[w].phase.Embedding? {
      PromisingStep(s1, w, id);
      s2 := Apply(s1, Call(w, Answered));
      RunFirst(s1, [Call(w, Answered), Finish(w)], Call(w, Answered), [Finish(w)]);
    }
    PromisingStep(s2, w, id);
    RunFirst(s2, [Finish(w)], Finish(w), []);
  }

  /** One call of `process` without anything in between. */
  function Embed(w: Id, id: Id, provider: Provider, lease: Time, backoff: Time): seq<Action> {
    [Start(w, id, provider, lease, backoff), Load(w), Call(w, Answered), Finish(w)]
  }

  lemma StartIsPromising(s: System, w: Id, id: Id, lease: Time, backoff: Time)
    requires id in s.rows && CanClaim(s.rows[id], s.now) && w !in s.workers
    requires Matches(LoadSource(s.cat, s.kind, s.rows[id].ownerId), s.rows[id])
    ensures var t := Apply(s, Start(w, id, Fitting(s.rows[id].key), lease, backoff));
            && Promising(t, w, id) && t.workers[w].phase.Loading?
            && t.kind == s.kind && t.cat == s.cat && t.now == s.now && t.usedIds == s.usedIds
            && t.rows == Claimed(s.rows, id, w, lease, s.now) && t.workers.Keys == s.workers.Keys + {w}
            && t.rows[id].ownerId == s.rows[id].ownerId && t.rows[id].key == s.rows[id].key
  {
  }

  /** A claimable row of the current source becomes searchable after one undisturbed call of `process`. */
  lemma UndisturbedCallSucceeds(s: System, w: Id, id: Id, lease: Time, backoff: Time)
    requires id in s.rows && CanClaim(s.rows[id], s.now) && w !in s.workers
    requires Matches(LoadSource(s.cat, s.kind, s.rows[id].ownerId), s.rows[id])
    ensures var t := Run(s, Embed(w, id, Fitting(s.rows[id].key), lease, backoff));
            && id in t.rows && Searchable(t.cat, t.kind, t.rows[id], s.rows[id].Index())
            && t.rows[id].ownerId == s.rows[id].ownerId
            && w in t.workers && t.workers[w].phase == Returned(SaysSucceeded)
            && t.workers.Keys == s.workers.Keys + {w} && t.usedIds == s.usedIds
            && t.cat == s.cat && t.kind == s.kind && t.now == s.now
            && t.rows == Completed(Claimed(s.rows, id, w, lease, s.now), id, w, CurrentVector(s, s.rows[id]), s.now)
  {
    var start := Start(w, id, Fitting(s.rows[id].key), lease, backoff);
    var s1 := Apply(s, start);
    StartIsPromising(s, w, id, lease, backoff);
    RunFirst(s, Embed(w, id, Fitting(s.rows[id].key), lease, backoff), start, StepsLeft(s1.workers[w].phase, w));
    PromisingPublishes(s1, w, id);
    PublishedIsSearchable(s1, Run(s1, StepsLeft(s1.workers[w].phase, w)), w, id);
  }

  // ---- when nothing can ------------------------------------------------------------------------

  /** The row's last worker can no longer complete it: it is about to settle, it raised or crashed, or it has yet to
      call a provider that does not fit. */
  predicate CannotComplete(worker: Worker, key: Key) {
    || worker.phase.Settling? || worker.phase.Raised? || worker.phase.Crashed?
    || (worker.phase.BeforeCall() && worker.provider != Fitting(key))
  }

  /** The row ended without a vector to search, or its last attempt is in hands that cannot complete it. */
  predicate Lost(s: System, id: Id)
    requires id in s.rows
  {
    var row := s.rows[id];
    || row.status.Failed? || row.status.Stale?
    || (row.status.Running? && row.attempts == row.maxAttempts
        && row.leaseOwner.Some? && row.leaseOwner.value in s.workers
        && CannotComplete(s.workers[row.leaseOwner.value], row.key))
  }

  /** The row describes the owner's current representation in this index. */
  predicate Describes(s: System, owner: Id, identity: Identity, indexVersion: string, id: Id) {
    var loaded := LoadSource(s.cat, s.kind, owner);
    loaded.Live? && id in s.rows && Same(s.rows[id], owner, KeyOf(loaded.source, identity, indexVersion))
  }

  ghost predicate Blocked(s: System, owner: Id, identity: Identity, indexVersion: string) {
    exists id :: Describes(s, owner, identity, indexVersion, id) && Lost(s, id)
  }

  /** The owner has a searchable row in this index. */
  ghost predicate Found(s: System, owner: Id, identity: Identity, indexVersion: string) {
    && LoadSource(s.cat, s.kind, owner).Live?
    && exists id :: SearchableFor(s, owner, identity, indexVersion, id)
  }

  predicate SearchableFor(s: System, owner: Id, identity: Identity, indexVersion: string, id: Id)
    requires LoadSource(s.cat, s.kind, owner).Live?
  {
    && id in s.rows && s.rows[id].ownerId == owner
    && Searchable(s.cat, s.kind, s.rows[id],
                  Versions(LoadSource(s.cat, s.kind, owner).source.version, identity, indexVersion))
  }

  /** What no step changes, edits apart. */
  predicate KeepsPlace(s: System, a: Action, id: Id)
    requires id in s.rows
  {
    var t := Apply(s, a);
    && t.cat == s.cat && t.kind == s.kind
    && id in t.rows && t.rows[id].ownerId == s.rows[id].ownerId && t.rows[id].key == s.rows[id].key
  }

  lemma StepKeepsPlace(s: System, a: Action, id: Id)
    requires id in s.rows && id in s.usedIds && !a.Edit?
    ensures KeepsPlace(s, a, id)
  {
  }

  lemma OtherStep(s: System, id: Id, a: Action, w: Id)
    requires id in s.rows && id in s.usedIds && id in Apply(s, a).rows && w in s.workers
    requires s.rows[id].status.Running? && s.rows[id].leaseOwner == Some(w)
    requires s.rows[id].attempts == s.rows[id].maxAttempts && !StepOf(a, w) && !a.Edit?
    ensures w in Apply(s, a).workers && Apply(s, a).workers[w] == s.workers[w]
    ensures Apply(s, a).rows[id] == s.rows[id] || Apply(s, a).rows[id].status.Failed?
  {
    EveryRowStep(s, a, id);
  }

  lemma OwnStep(s: System, id: Id, a: Action, w: Id)
    requires id in s.rows && Lost(s, id) && s.rows[id].status.Running? && s.rows[id].leaseOwner == Some(w)
    requires w in s.workers && WorkerOk(s, w) && s.workers[w].rowId == id && StepOf(a, w)
    ensures id in Apply(s, a).rows && Lost(Apply(s, a), id)
  {
  }

  lemma LastAttemptStaysLost(s: System, id: Id, a: Action)
    requires WorkersOk(s) && LeasesOk(s) && id in s.rows && id in s.usedIds && id in Apply(s, a).rows
    requires Lost(s, id) && s.rows[id].status.Running? && !a.Edit?
    ensures Lost(Apply(s, a), id)
  {
    var w := s.rows[id].leaseOwner.value;
    if StepOf(a, w) {
      assert WorkerOk(s, w);
      OwnStep(s, id, a, w);
    } else {
      OtherStep(s, id, a, w);
    }
  }

  lemma StepKeepsLost(s: System, id: Id, a: Action)
    requires Inv(s) && id in s.rows && Lost(s, id) && !a.Edit?
    ensures KeepsPlace(s, a, id) && Lost(Apply(s, a), id)
  {
    StepKeepsPlace(s, a, id);
    if s.rows[id].status.Running? {
      LastAttemptStaysLost(s, id, a);
    } else {
      StepKeepsOutcome(s, a, id);
    }
  }

  lemma {:induction false} LostStaysLost(
    s: System, owner: Id, identity: Identity, indexVersion: string, id: Id, actions: seq<Action>)
    requires Inv(s) && Describes(s, owner, identity, indexVersion, id) && Lost(s, id) && NoEdits(actions)
    ensures Describes(Run(s, actions), owner, identity, indexVersion, id) && Lost(Run(s, actions), id)
    ensures Inv(Run(s, actions))
    decreases |actions|
  {
    if actions != [] {
      StepKeepsInv(s, actions[0]);
      StepKeepsLost(s, id, actions[0]);
      NoEditsRest(actions);
      LostStaysLost(Apply(s, actions[0]), owner, identity, indexVersion, id, actions[1..]);
    }
  }

  lemma FoundDescribes(s: System, owner: Id, identity: Identity, indexVersion: string, id: Id)
    requires LoadSource(s.cat, s.kind, owner).Live?
    ensures SearchableFor(s, owner, identity, indexVersion, id)
       <==> Describes(s, owner, identity, indexVersion, id) && s.rows[id].status.Succeeded?
  {
  }

  lemma LostIsNotFound(s: System, owner: Id, identity: Identity, indexVersion: string, id: Id)
    requires IdentitiesUnique(s.rows) && Describes(s, owner, identity, indexVersion, id) && Lost(s, id)
    ensures !Found(s, owner, identity, indexVersion)
  {
    forall other
      ensures !SearchableFor(s, owner, identity, indexVersion, other)
    {
      FoundDescribes(s, owner, identity, indexVersion, other);
    }
  }

  // ---- when something can ------------------------------------------------------------------------

  /** A run without edits after which the owner is searchable. */
  ghost predicate Finds(s: System, actions: seq<Action>, owner: Id, identity: Identity, indexVersion: string) {
    NoEdits(actions) && Found(Run(s, actions), owner, identity, indexVersion)
  }

  lemma PublishingFinds(s: System, t: System, owner: Id, identity: Identity, indexVersion: string, id: Id)
    requires Describes(s, owner, identity, indexVersion, id) && t.cat == s.cat && t.kind == s.kind
    requires id in t.rows && t.rows[id].ownerId == owner && Searchable(t.cat, t.kind, t.rows[id], s.rows[id].Index())
    ensures Found(t, owner, identity, indexVersion)
  {
    assert SearchableFor(t, owner, identity, indexVersion, id);
  }

  lemma {:induction false} Above(used: set<Id>) returns (bound: Id)
    ensures forall i | i in used :: i < bound
  {
    if used == {} {
      bound := 0;
    } else {
      var i :| i in used;
      var rest := Above(used - {i});
      bound := Max(rest, i + 1);
      assert forall j | j in used :: j == i || j in used - {i};
    }
  }

  /** Waiting makes the row claimable, and one call of `process` does the rest. */
  lemma WaitAndEmbed(s: System, owner: Id, identity: Identity, indexVersion: string, id: Id)
    returns (actions: seq<Action>)
    requires Describes(s, owner, identity, indexVersion, id) && s.rows[id].attempts < s.rows[id].maxAttempts
    requires s.rows[id].status.Queued? || (s.rows[id].status.Running? && s.rows[id].leaseExpiresAt.Some?)
    ensures Finds(s, actions, owner, identity, indexVersion)
  {
    var row := s.rows[id];
    var w := Above(s.workers.Keys);
    var due := if row.status.Queued? then row.availableAt else row.leaseExpiresAt.value + 1;
    var wait := Tick(if due > s.now then due - s.now else 0);
    var s1 := Apply(s, wait);
    assert CanClaim(s1.rows[id], s1.now);
    var embed := Embed(w, id, Fitting(row.key), 60, 0);
    actions := [wait] + embed;
    UndisturbedCallSucceeds(s1, w, id, 60, 0);
    RunFirst(s, actions, wait, embed);
    PublishingFinds(s, Run(s, actions), owner, identity, indexVersion, id);
  }

  /** An owner without a row gets one. */
  lemma EnqueueAndEmbed(s: System, owner: Id, identity: Identity, indexVersion: string) returns (actions: seq<Action>)
    requires RowsOk(s) && LoadSource(s.cat, s.kind, owner).Live?
    requires forall id :: !Describes(s, owner, identity, indexVersion, id)
    ensures Finds(s, actions, owner, identity, indexVersion)
  {
    var id := Above(s.usedIds);
    var enqueue := Enqueue(owner, identity, indexVersion, 1, id);
    var s1 := Apply(s, enqueue);
    assert forall i | i in s.rows :: !Describes(s, owner, identity, indexVersion, i);
    assert Describes(s1, owner, identity, indexVersion, id);
    var rest := WaitAndEmbed(s1, owner, identity, indexVersion, id);
    actions := [enqueue] + rest;
    RunFirst(s, actions, enqueue, rest);
  }

  /** The last attempt is in good hands. */
  lemma HolderIsPromising(s: System, owner: Id, identity: Identity, indexVersion: string, id: Id)
    requires WorkersOk(s) && LeasesOk(s) && Describes(s, owner, identity, indexVersion, id)
    requires s.rows[id].status.Running? && s.rows[id].leaseOwner.Some? && s.rows[id].attempts == s.rows[id].maxAttempts
    requires !Lost(s, id)
    ensures Promising(s, s.rows[id].leaseOwner.value, id)
  {
    assert WorkerOk(s, s.rows[id].leaseOwner.value);
  }

  lemma HolderFinds(s: System, owner: Id, identity: Identity, indexVersion: string, id: Id)
    returns (actions: seq<Action>)
    requires WorkersOk(s) && LeasesOk(s) && Describes(s, owner, identity, indexVersion, id)
    requires s.rows[id].status.Running? && s.rows[id].leaseOwner.Some? && s.rows[id].attempts == s.rows[id].maxAttempts
    requires !Lost(s, id)
    ensures Finds(s, actions, owner, identity, indexVersion)
  {
    var w := s.rows[id].leaseOwner.value;
    HolderIsPromising(s, owner, identity, indexVersion, id);
    actions := StepsLeft(s.workers[w].phase, w);
    PromisingPublishes(s, w, id);
    PublishedIsSearchable(s, Run(s, actions), w, id);
    PublishingFinds(s, Run(s, actions), owner, identity, indexVersion, id);
  }

  lemma RunThatFinds(s: System, owner: Id, identity: Identity, indexVersion: string) returns (actions: seq<Action>)
    requires Inv(s) && LoadSource(s.cat, s.kind, owner).Live? && !Blocked(s, owner, identity, indexVersion)
    ensures Finds(s, actions, owner, identity, indexVersion)
  {
    if id :| Describes(s, owner, identity, indexVersion, id) {
      var row := s.rows[id];
      assert RowOk(row) && !Lost(s, id);
      if row.status.Succeeded? {
        actions := [];
        PublishingFinds(s, s, owner, identity, indexVersion, id);
      } else if row.attempts < row.maxAttempts {
        actions := WaitAndEmbed(s, owner, identity, indexVersion, id);
      } else {
        actions := HolderFinds(s, owner, identity, indexVersion, id);
      }
    } else {
      actions := EnqueueAndEmbed(s, owner, identity, indexVersion);
    }
  }

  /** No run without catalogue edits makes an owner searchable once the row of its current representation is lost. */
  lemma LostIsUnsearchable(
    s: System, owner: Id, identity: Identity, indexVersion: string, actions: seq<Action>)
    requires Inv(s) && Blocked(s, owner, identity, indexVersion) && NoEdits(actions)
    ensures LoadSource(Run(s, actions).cat, Run(s, actions).kind, owner).Live?
    ensures !Found(Run(s, actions), owner, identity, indexVersion)
  {
    var id :| Describes(s, owner, identity, indexVersion, id) && Lost(s, id);
    LostStaysLost(s, owner, identity, indexVersion, id, actions);
    LostIsNotFound(Run(s, actions), owner, identity, indexVersion, id);
  }

  /** In any reachable state some run without catalogue edits makes a live owner searchable in an index exactly when the
      row of its current representation, if there is one, is not lost. */
  lemma SearchableAgainIff(s: System, owner: Id, identity: Identity, indexVersion: string)
    requires Inv(s) && LoadSource(s.cat, s.kind, owner).Live?
    ensures (exists actions :: Finds(s, actions, owner, identity, indexVersion))
       <==> !Blocked(s, owner, identity, indexVersion)
  {
    if Blocked(s, owner, identity, indexVersion) {
      forall actions | NoEdits(actions)
        ensures !Found(Run(s, actions), owner, identity, indexVersion)
      {
        LostIsUnsearchable(s, owner, identity, indexVersion, actions);
      }
    } else {
      var actions := RunThatFinds(s, owner, identity, indexVersion);
    }
  }
}
