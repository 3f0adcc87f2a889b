/** What each way through `process` leaves behind, column by column. */
module EmbeddingOutcomes {
  import opened Prelude
  import opened EmbeddingRows
  import opened EmbeddingService
  import opened EmbeddingSafety
  import opened EmbeddingProspects

  // ---- reading the live source -------------------------------------------------------------------

  /** A product is public while it is active; a variant while it and its product are. */
  predicate Public(cat: Catalogue, kind: Kind, owner: Id) {
    match kind
    case ProductKind => owner in cat.products && cat.products[owner].active
    case VariantKind =>
      && owner in cat.variants && cat.variants[owner].active
      && cat.variants[owner].productId in cat.products && cat.products[cat.variants[owner].productId].active
  }

  function ProductOf(cat: Catalogue, kind: Kind, owner: Id): Id {
    if kind.VariantKind? && owner in cat.variants then cat.variants[owner].productId else owner
  }

  function RenderingOf(cat: Catalogue, kind: Kind, owner: Id): Rendering
    requires Public(cat, kind, owner)
  {
    if kind.VariantKind? then cat.variants[owner].rendering else cat.products[owner].rendering
  }

  /** The source is live exactly while its owner is public and its text representable, with the product's revision. */
  lemma LiveSource(cat: Catalogue, kind: Kind, owner: Id)
    ensures LoadSource(cat, kind, owner).Hidden? <==> !Public(cat, kind, owner)
    ensures LoadSource(cat, kind, owner).Invalid?
       <==> Public(cat, kind, owner) && RenderingOf(cat, kind, owner).Unrepresentable?
    ensures LoadSource(cat, kind, owner).Live? ==>
      var source := LoadSource(cat, kind, owner).source;
      var product := ProductOf(cat, kind, owner);
      && product in cat.products
      && RenderingOf(cat, kind, owner) == Text(source.text)
      && source.productId == product && source.revision == cat.products[product].revision
      && source.version == cat.version
  {
  }

  /** The row describes its owner as it is now: same revision, same text, same version, and still public. */
  predicate Current(cat: Catalogue, kind: Kind, row: Row) {
    && Public(cat, kind, row.ownerId)
    && RenderingOf(cat, kind, row.ownerId).Text?
    && ProductOf(cat, kind, row.ownerId) in cat.products
    && row.key.revision == cat.products[ProductOf(cat, kind, row.ownerId)].revision
    && row.key.version == cat.version
    && row.key.digest == Sha256(cat.version, RenderingOf(cat, kind, row.ownerId).text)
  }

  lemma CurrentMatches(cat: Catalogue, kind: Kind, row: Row)
    ensures Matches(LoadSource(cat, kind, row.ownerId), row) <==> Current(cat, kind, row)
  {
    LiveSource(cat, kind, row.ownerId);
  }

  /** Searchable means succeeded in the index asked for, by the provider asked for, and current. */
  lemma SearchableIsCurrent(cat: Catalogue, kind: Kind, row: Row, versions: Versions)
    ensures Searchable(cat, kind, row, versions) <==>
      && row.status == Succeeded && Current(cat, kind, row)
      && row.key.version == versions.version && row.key.indexVersion == versions.indexVersion
      && row.key.identity.provider == versions.identity.provider
      && row.key.identity.model == versions.identity.model
      && row.key.identity.modelRevision == versions.identity.modelRevision
  {
    CurrentMatches(cat, kind, row);
  }

  // ---- enqueueing --------------------------------------------------------------------------------

  /** Enqueueing a live owner adds one queued row for its present representation, due at once, exactly when there is
      none; otherwise no row changes. */
  lemma EnqueueAdds(s: System, owner: Id, identity: Identity, indexVersion: string, maxAttempts: int, newId: Id)
    requires newId !in s.usedIds && newId !in s.rows
    ensures var t := Apply(s, Enqueue(owner, identity, indexVersion, maxAttempts, newId));
            var present := exists i :: i in s.rows && s.rows[i].ownerId == owner && Current(s.cat, s.kind, s.rows[i])
                                       && s.rows[i].key.identity == identity
                                       && s.rows[i].key.indexVersion == indexVersion;
            var added := Public(s.cat, s.kind, owner) && RenderingOf(s.cat, s.kind, owner).Text? && maxAttempts >= 1
                         && !present;
            && (newId in t.rows <==> added)
            && (forall i | i in s.rows :: i in t.rows && t.rows[i] == s.rows[i])
            && (added ==>
                  && t.rows.Keys == s.rows.Keys + {newId}
                  && t.rows[newId].status == Queued && t.rows[newId].attempts == 0
                  && t.rows[newId].maxAttempts == maxAttempts
                  && t.rows[newId].ownerId == owner && t.rows[newId].productId == ProductOf(s.cat, s.kind, owner)
                  && t.rows[newId].availableAt == s.now && t.rows[newId].leaseOwner == None
                  && t.rows[newId].vector == None && t.rows[newId].finishedAt == None
                  && t.rows[newId].key.identity == identity && t.rows[newId].key.indexVersion == indexVersion
                  && Current(s.cat, s.kind, t.rows[newId]))
  {
    LiveSource(s.cat, s.kind, owner);
    var loaded := LoadSource(s.cat, s.kind, owner);
    if loaded.Live? {
      forall i | i in s.rows
        ensures Same(s.rows[i], owner, KeyOf(loaded.source, identity, indexVersion)) <==>
          && s.rows[i].ownerId == owner && Current(s.cat, s.kind, s.rows[i])
          && s.rows[i].key.identity == identity && s.rows[i].key.indexVersion == indexVersion
      {
        CurrentMatches(s.cat, s.kind, s.rows[i]);
      }
    }
  }

  // ---- claiming ----------------------------------------------------------------------------------

  /** Due, or abandoned by a holder whose lease has run out. */
  predicate Free(row: Row, now: Time) {
    || (row.status == Queued && row.availableAt <= now)
    || (row.status == Running && row.leaseExpiresAt.Some? && row.leaseExpiresAt.value < now)
  }

  /** A claim takes a free row with attempts left, writes off an abandoned one without, and skips everything else. */
  lemma ClaimTakes(s: System, w: Id, id: Id, provider: Provider, lease: Time, backoff: Time)
    requires id in s.rows && w !in s.workers
    ensures var row, t := s.rows[id], Apply(s, Start(w, id, provider, lease, backoff));
            && t.cat == s.cat && t.kind == s.kind && t.now == s.now && t.calls == s.calls
            && t.rows.Keys == s.rows.Keys && (forall i | i in s.rows && i != id :: t.rows[i] == s.rows[i])
            && w in t.workers
            && t.rows[id].ownerId == row.ownerId && t.rows[id].key == row.key && t.rows[id].vector == row.vector
            && t.rows[id].maxAttempts == row.maxAttempts
            && (Free(row, s.now) && row.attempts < row.maxAttempts ==>
                  && t.rows[id].status == Running && t.rows[id].attempts == row.attempts + 1
                  && t.rows[id].leaseOwner == Some(w) && t.rows[id].leaseExpiresAt == Some(s.now + lease)
                  && t.rows[id].finishedAt == row.finishedAt
                  && t.workers[w] == Worker(id, provider, backoff, Loading(t.rows[id])))
            && (Free(row, s.now) && row.status == Running && row.attempts >= row.maxAttempts ==>
                  && t.rows[id].status == Failed && t.rows[id].attempts == row.attempts
                  && t.rows[id].leaseOwner == None && t.rows[id].leaseExpiresAt == None
                  && t.rows[id].finishedAt == Some(s.now)
                  && t.workers[w].phase == Returned(SaysSkipped))
            && (!Free(row, s.now) || (row.status == Queued && row.attempts >= row.maxAttempts) ==>
                  t.rows[id] == row && t.workers[w].phase == Returned(SaysSkipped))
  {
  }

  // ---- a call of `process` from its claim on -----------------------------------------------------

  /** Nothing but this row, and what the worker says of it. */
  predicate Only(s: System, t: System, w: Id, id: Id, says: Report) {
    && id in s.rows && t.cat == s.cat && t.now == s.now
    && t.rows.Keys == s.rows.Keys && (forall i | i in s.rows && i != id :: t.rows[i] == s.rows[i])
    && t.rows[id].ownerId == s.rows[id].ownerId && t.rows[id].key == s.rows[id].key
    && t.rows[id].vector == s.rows[id].vector && t.rows[id].maxAttempts == s.rows[id].maxAttempts
    && t.rows[id].leaseOwner == None && t.rows[id].leaseExpiresAt == None
    && w in t.workers && t.workers[w].phase == Returned(says)
  }

  /** The worker holds the row and is about to settle it so. */
  predicate Deciding(s: System, w: Id, id: Id, status: Status, delay: Time, says: Report) {
    && w in s.workers && s.workers[w].rowId == id && s.workers[w].phase.Settling?
    && s.workers[w].phase.how.status == status && (status == Queued ==> s.workers[w].phase.how.delay == delay)
    && s.workers[w].phase.says == says
    && id in s.rows && s.rows[id].status == Running && s.rows[id].leaseOwner == Some(w)
  }

  lemma DecidedIsSettled(s: System, w: Id, id: Id, status: Status, delay: Time, says: Report)
    requires Deciding(s, w, id, status, delay, says)
    ensures var t := Apply(s, Settle(w));
            && Only(s, t, w, id, says) && t.calls == s.calls
            && t.rows[id].status == status && t.rows[id].attempts == s.rows[id].attempts
            && (status == Queued ==>
                  t.rows[id].availableAt == s.now + delay && t.rows[id].finishedAt == s.rows[id].finishedAt)
            && (status != Queued ==> t.rows[id].finishedAt == Some(s.now))
  {
  }

  /** What the load transaction decides. */
  lemma LoadDecides(s: System, w: Id, id: Id)
    requires w in s.workers && s.workers[w].rowId == id && s.workers[w].phase.Loading? && id in s.rows
    requires s.rows[id].status == Running && s.rows[id].leaseOwner == Some(w) && s.workers[w].phase.row == s.rows[id]
    ensures var t, row := Apply(s, Load(w)), s.rows[id];
            && t.rows == s.rows && t.calls == s.calls && t.cat == s.cat && t.kind == s.kind && t.now == s.now
            && w in t.workers && t.workers[w].rowId == id
            && t.workers[w].provider == s.workers[w].provider && t.workers[w].backoff == s.workers[w].backoff
            && (Current(s.cat, s.kind, row) ==>
                  t.workers[w].phase == Embedding(row, RenderingOf(s.cat, s.kind, row.ownerId).text))
            && (Public(s.cat, s.kind, row.ownerId) && RenderingOf(s.cat, s.kind, row.ownerId).Unrepresentable? ==>
                  Deciding(t, w, id, Failed, 0, SaysFailed))
            && (!Current(s.cat, s.kind, row)
                && !(Public(s.cat, s.kind, row.ownerId) && RenderingOf(s.cat, s.kind, row.ownerId).Unrepresentable?) ==>
                  Deciding(t, w, id, Stale, 0, SaysStale))
  {
    CurrentMatches(s.cat, s.kind, s.rows[id]);
    LiveSource(s.cat, s.kind, s.rows[id].ownerId);
  }

  /** The provider is the one the row asks for, and its vectors fit the column of 768. */
  predicate Fits(provider: Provider, row: Row) {
    provider.identity == row.key.identity && provider.dimensions == 768
  }

  /** What the provider's answer decides. A misfit provider is never called. */
  lemma CallDecides(s: System, w: Id, id: Id, answer: Answer)
    requires w in s.workers && s.workers[w].rowId == id && s.workers[w].phase.Embedding? && id in s.rows
    requires s.rows[id].status == Running && s.rows[id].leaseOwner == Some(w) && s.workers[w].phase.row == s.rows[id]
    requires s.rows[id].attempts >= 1
    ensures var t, row := Apply(s, Call(w, answer)), s.rows[id];
            var wait := s.workers[w].backoff * Pow2(row.attempts - 1);
            && t.rows == s.rows && t.cat == s.cat && t.kind == s.kind && t.now == s.now
            && w in t.workers && t.workers[w].rowId == id
            && Calls(t, id) == Calls(s, id) + (if Fits(s.workers[w].provider, row) then 1 else 0)
            && (!Fits(s.workers[w].provider, row) ==> Deciding(t, w, id, Failed, 0, SaysFailed))
            && (Fits(s.workers[w].provider, row) && answer == Answered ==>
                  t.workers[w].phase == Embedded(row, Vector(row.key.identity, s.workers[w].phase.text)))
            && (Fits(s.workers[w].provider, row) && answer == Refused(true) && row.attempts < row.maxAttempts ==>
                  Deciding(t, w, id, Queued, wait, SaysRetry(wait)))
            && (Fits(s.workers[w].provider, row) && answer.Refused?
                && (answer == Refused(false) || row.attempts >= row.maxAttempts) ==>
                  Deciding(t, w, id, Failed, 0, SaysFailed))
  {
  }

  predicate Claimable(s: System, w: Id, id: Id) {
    id in s.rows && w !in s.workers && Free(s.rows[id], s.now) && s.rows[id].attempts < s.rows[id].maxAttempts
  }

  lemma ThreeSteps(s: System, a: Action, b: Action, c: Action)
    ensures Run(s, [a, b, c]) == Apply(Apply(Apply(s, a), b), c)
  {
    RunFirst(s, [a, b, c], a, [b, c]);
    RunFirst(Apply(s, a), [b, c], b, [c]);
    RunFirst(Apply(Apply(s, a), b), [c], c, []);
  }

  lemma FourSteps(s: System, a: Action, b: Action, c: Action, d: Action)
    ensures Run(s, [a, b, c, d]) == Apply(Apply(Apply(Apply(s, a), b), c), d)
  {
    RunFirst(s, [a, b, c, d], a, [b, c, d]);
    ThreeSteps(Apply(s, a), b, c, d);
  }

  /** A provider that refuses: a refusal that may be retried is retried after the backoff while attempts remain; any
      other ends the row. */
  lemma RefusalOutcome(s: System, w: Id, id: Id, provider: Provider, lease: Time, backoff: Time, retryable: bool)
    requires Claimable(s, w, id) && Current(s.cat, s.kind, s.rows[id]) && Fits(provider, s.rows[id])
    ensures var n := s.rows[id].attempts + 1;
            var wait := backoff * Pow2(n - 1);
            var t := Run(s, [Start(w, id, provider, lease, backoff), Load(w), Call(w, Refused(retryable)), Settle(w)]);
            && id in t.rows && t.rows[id].attempts == n && Calls(t, id) == Calls(s, id) + 1
            && (retryable && n < s.rows[id].maxAttempts ==>
                  && Only(s, t, w, id, SaysRetry(wait))
                  && t.rows[id].status == Queued && t.rows[id].availableAt == s.now + wait)
            && (!retryable || n >= s.rows[id].maxAttempts ==>
                  && Only(s, t, w, id, SaysFailed)
                  && t.rows[id].status == Failed && t.rows[id].finishedAt == Some(s.now))
  {
    var start := Start(w, id, provider, lease, backoff);
    var s1 := Apply(s, start);
    var s2 := Apply(s1, Load(w));
    var s3 := Apply(s2, Call(w, Refused(retryable)));
    var wait := backoff * Pow2(s.rows[id].attempts);
    FourSteps(s, start, Load(w), Call(w, Refused(retryable)), Settle(w));
    ClaimTakes(s, w, id, provider, lease, backoff);
    LoadDecides(s1, w, id);
    CallDecides(s2, w, id, Refused(retryable));
    if retryable && s.rows[id].attempts + 1 < s.rows[id].maxAttempts {
      DecidedIsSettled(s3, w, id, Queued, wait, SaysRetry(wait));
    } else {
      DecidedIsSettled(s3, w, id, Failed, 0, SaysFailed);
    }
  }

  /** A provider the row does not ask for ends the row without a call, whatever it would have answered. */
  lemma MisfitOutcome(s: System, w: Id, id: Id, provider: Provider, lease: Time, backoff: Time, answer: Answer)
    requires Claimable(s, w, id) && Current(s.cat, s.kind, s.rows[id]) && !Fits(provider, s.rows[id])
    ensures var t := Run(s, [Start(w, id, provider, lease, backoff), Load(w), Call(w, answer), Settle(w)]);
            && Only(s, t, w, id, SaysFailed) && Calls(t, id) == Calls(s, id)
            && t.rows[id].status == Failed && t.rows[id].finishedAt == Some(s.now)
            && t.rows[id].attempts == s.rows[id].attempts + 1
  {
    var start := Start(w, id, provider, lease, backoff);
    var s1 := Apply(s, start);
    var s2 := Apply(s1, Load(w));
    FourSteps(s, start, Load(w), Call(w, answer), Settle(w));
    ClaimTakes(s, w, id, provider, lease, backoff);
    LoadDecides(s1, w, id);
    CallDecides(s2, w, id, answer);
    DecidedIsSettled(Apply(s2, Call(w, answer)), w, id, Failed, 0, SaysFailed);
  }

  /** A source that is no longer the row's: unrepresentable text fails the row, anything else makes it stale, without a
      call either way. */
  lemma ChangedSourceOutcome(s: System, w: Id, id: Id, provider: Provider, lease: Time, backoff: Time)
    requires Claimable(s, w, id) && !Current(s.cat, s.kind, s.rows[id])
    ensures var owner := s.rows[id].ownerId;
            var broken := Public(s.cat, s.kind, owner) && RenderingOf(s.cat, s.kind, owner).Unrepresentable?;
            var t := Run(s, [Start(w, id, provider, lease, backoff), Load(w), Settle(w)]);
            && Only(s, t, w, id, if broken then SaysFailed else SaysStale) && t.calls == s.calls
            && t.rows[id].status == (if broken then Failed else Stale) && t.rows[id].finishedAt == Some(s.now)
            && t.rows[id].attempts == s.rows[id].attempts + 1
  {
    var start := Start(w, id, provider, lease, backoff);
    var s1 := Apply(s, start);
    var owner := s.rows[id].ownerId;
    ThreeSteps(s, start, Load(w), Settle(w));
    ClaimTakes(s, w, id, provider, lease, backoff);
    LoadDecides(s1, w, id);
    if Public(s.cat, s.kind, owner) && RenderingOf(s.cat, s.kind, owner).Unrepresentable? {
      DecidedIsSettled(Apply(s1, Load(w)), w, id, Failed, 0, SaysFailed);
    } else {
      DecidedIsSettled(Apply(s1, Load(w)), w, id, Stale, 0, SaysStale);
    }
  }

  // ---- the closing transaction -------------------------------------------------------------------

  /** With the source unchanged the row succeeds with its vector, and the owner's other successes of the same version
      columns, and nothing else, go stale. */
  lemma ClosingSucceeds(s: System, w: Id, id: Id)
    requires w in s.workers && s.workers[w].rowId == id && s.workers[w].phase.Embedded? && id in s.rows
    requires s.rows[id].status == Running && s.rows[id].leaseOwner == Some(w)
    requires CopyFits(s.workers[w].phase.row, s.rows[id])
    requires Current(s.cat, s.kind, s.rows[id])
    ensures var row, t := s.rows[id], Apply(s, Finish(w));
            && t.rows.Keys == s.rows.Keys && t.workers[w].phase == Returned(SaysSucceeded) && t.calls == s.calls
            && t.rows[id].status == Succeeded && t.rows[id].vector == Some(s.workers[w].phase.vector)
            && t.rows[id].leaseOwner == None && t.rows[id].leaseExpiresAt == None
            && t.rows[id].finishedAt == Some(s.now) && t.rows[id].attempts == row.attempts
            && t.rows[id].ownerId == row.ownerId && t.rows[id].key == row.key
            && (forall i | i in s.rows && i != id ::
                  var other := s.rows[i];
                  t.rows[i] == if && other.status == Succeeded && other.ownerId == row.ownerId
                                  && other.key.version == row.key.version && other.key.identity == row.key.identity
                                  && other.key.indexVersion == row.key.indexVersion
                               then other.(status := Stale) else other)
  {
    CurrentMatches(s.cat, s.kind, s.workers[w].phase.row);
    assert Current(s.cat, s.kind, s.workers[w].phase.row) <==> Current(s.cat, s.kind, s.rows[id]);
  }

  /** With the source changed to something representable or gone, the row goes stale and its vector is dropped. */
  lemma ClosingGoesStale(s: System, w: Id, id: Id)
    requires w in s.workers && s.workers[w].rowId == id && s.workers[w].phase.Embedded? && id in s.rows
    requires s.rows[id].status == Running && s.rows[id].leaseOwner == Some(w)
    requires CopyFits(s.workers[w].phase.row, s.rows[id])
    requires !Current(s.cat, s.kind, s.rows[id])
    requires Public(s.cat, s.kind, s.rows[id].ownerId) ==> RenderingOf(s.cat, s.kind, s.rows[id].ownerId).Text?
    ensures var t := Apply(s, Finish(w));
            && Only(s, t, w, id, SaysStale) && t.calls == s.calls
            && t.rows[id].status == Stale && t.rows[id].finishedAt == Some(s.now)
            && t.rows[id].attempts == s.rows[id].attempts
  {
    CurrentMatches(s.cat, s.kind, s.workers[w].phase.row);
    LiveSource(s.cat, s.kind, s.rows[id].ownerId);
    assert Current(s.cat, s.kind, s.workers[w].phase.row) <==> Current(s.cat, s.kind, s.rows[id]);
  }

  /** A worker that lost its lease writes nothing and says so. */
  lemma ClosingTooLate(s: System, w: Id, id: Id)
    requires w in s.workers && s.workers[w].rowId == id && s.workers[w].phase.Embedded?
    requires id in s.rows ==> s.rows[id].status != Running || s.rows[id].leaseOwner != Some(w)
    requires !LoadSource(s.cat, s.kind, s.workers[w].phase.row.ownerId).Invalid?
    ensures Apply(s, Finish(w)).rows == s.rows && Apply(s, Finish(w)).workers[w].phase == Returned(SaysLeaseLost)
  {
  }

  /** Settling without the lease writes nothing either; the worker still says what it decided. */
  lemma SettlingTooLate(s: System, w: Id, id: Id)
    requires w in s.workers && s.workers[w].rowId == id && s.workers[w].phase.Settling?
    requires id in s.rows ==> s.rows[id].status != Running || s.rows[id].leaseOwner != Some(w)
    ensures Apply(s, Settle(w)).rows == s.rows
    ensures Apply(s, Settle(w)).workers[w].phase == Returned(s.workers[w].phase.says)
  {
  }

  // ---- what happens around it --------------------------------------------------------------------

  /** The owner and its product are there, and belong together. */
  predicate OwnerExists(cat: Catalogue, kind: Kind, row: Row) {
    && row.productId in cat.products
    && (kind == ProductKind ==> row.ownerId == row.productId)
    && (kind == VariantKind ==> row.ownerId in cat.variants && cat.variants[row.ownerId].productId == row.productId)
  }

  /** An edit puts another catalogue in place, if each variant of it has its product, and deletes exactly the rows whose
      owners it deletes. */
  lemma EditOutcome(s: System, cat: Catalogue)
    ensures var t := Apply(s, Edit(cat));
            if forall v | v in cat.variants :: cat.variants[v].productId in cat.products then
              && t.cat == cat && t.workers == s.workers && t.calls == s.calls && t.now == s.now
              && (forall id :: id in t.rows <==> id in s.rows && OwnerExists(cat, s.kind, s.rows[id]))
              && (forall id | id in t.rows :: t.rows[id] == s.rows[id])
            else t == s
  {
  }
}
