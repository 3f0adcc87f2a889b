/**
 The embedding worker (search/embedding_service.py) among other workers, catalogue edits, crashes and the clock.

 Every transaction is one step. The catalogue may change in any way between two steps: an edit replaces it wholesale,
 so text, revision, visibility and even the representation version may move, together or apart, forwards or back.
 */
module EmbeddingService {
  import opened Prelude
  import opened EmbeddingRows

  const EMBEDDING_DIMENSIONS := 768

  // ---- the live catalogue, as far as a representation depends on it ------------------------------

  /** What the canonical builder makes of the current fields: a text, or a ValueError. */
  datatype Rendering = Text(text: string) | Unrepresentable

  datatype Product = Product(revision: int, active: bool, rendering: Rendering)

  datatype Variant = Variant(productId: Id, active: bool, rendering: Rendering)

  datatype Catalogue = Catalogue(version: string, products: map<Id, Product>, variants: map<Id, Variant>)
  {
    /** Foreign key: a variant belongs to an existing product. */
    predicate Consistent() {
      forall v | v in variants :: variants[v].productId in products
    }

    /** Foreign keys of an embedding row; a row that loses its owner is deleted with it. */
    predicate Owns(kind: Kind, row: Row) {
      && row.productId in products
      && match kind
         case ProductKind => row.ownerId == row.productId
         case VariantKind => row.ownerId in variants && variants[row.ownerId].productId == row.productId
    }
  }

  datatype Source = Source(productId: Id, revision: int, version: string, text: string)

  /** The outcome of reading the live source: not public, a ValueError, or the current representation. */
  datatype Loaded = Hidden | Invalid | Live(source: Source)

  function LoadSource(cat: Catalogue, kind: Kind, owner: Id): Loaded {
    match kind
    case ProductKind =>
      if owner in cat.products && cat.products[owner].active
      then Render(cat, owner, cat.products[owner].rendering) else Hidden
    case VariantKind =>
      if owner in cat.variants && cat.variants[owner].active
         && cat.variants[owner].productId in cat.products && cat.products[cat.variants[owner].productId].active
      then Render(cat, cat.variants[owner].productId, cat.variants[owner].rendering) else Hidden
  }

  function Render(cat: Catalogue, product: Id, rendering: Rendering): Loaded
    requires product in cat.products
  {
    match rendering
    case Text(text) => Live(Source(product, cat.products[product].revision, cat.version, text))
    case Unrepresentable => Invalid
  }

  function KeyOf(source: Source, identity: Identity, indexVersion: string): Key {
    Key(source.revision, source.version, Sha256(source.version, source.text), identity, indexVersion)
  }

  /** The hash check that decides whether a row still describes its source. */
  predicate Matches(loaded: Loaded, row: Row) {
    && loaded.Live?
    && loaded.source.revision == row.key.revision
    && Sha256(loaded.source.version, loaded.source.text) == row.key.digest
    && loaded.source.version == row.key.version
  }

  // ---- what is searchable ------------------------------------------------------------------------

  /** The SQL prefilter; it cannot see the representation hash. */
  predicate ActiveSelect(cat: Catalogue, kind: Kind, row: Row, versions: Versions) {
    && row.status.Succeeded?
    && row.productId in cat.products
    && row.key.revision == cat.products[row.productId].revision
    && cat.products[row.productId].active
    && row.Index() == versions
    && (kind.VariantKind? ==> row.ownerId in cat.variants && cat.variants[row.ownerId].active)
  }

  predicate Searchable(cat: Catalogue, kind: Kind, row: Row, versions: Versions) {
    row.status.Succeeded? && row.Index() == versions && Matches(LoadSource(cat, kind, row.ownerId), row)
  }

  /** The rows searchable right now: the prefilter's candidates in turn, each checked against the live source.
      With foreign keys intact the prefilter loses nothing, so the result is exactly the rows that match. */
  method ActiveEmbeddings(rows: Rows, cat: Catalogue, kind: Kind, versions: Versions) returns (active: seq<Id>)
    requires forall id | id in rows :: cat.Owns(kind, rows[id])
    ensures forall id :: id in active <==> id in rows && Searchable(cat, kind, rows[id], versions)
    ensures forall i, j | 0 <= i < j < |active| :: active[i] != active[j]
  {
    var candidates := set id | id in rows && ActiveSelect(cat, kind, rows[id], versions);
    active := [];
    ghost var all := candidates;
    while candidates != {}
      invariant candidates <= all
      invariant forall id ::
        id in active <==> id in all - candidates && Matches(LoadSource(cat, kind, rows[id].ownerId), rows[id])
      invariant forall i, j | 0 <= i < j < |active| :: active[i] != active[j]
      decreases |candidates|
    {
      var id :| id in candidates;
      candidates := candidates - {id};
      var loaded := LoadSource(cat, kind, rows[id].ownerId);
      if loaded.Invalid? {  // text that can no longer be represented has no valid vector
        continue;
      }
      if Matches(loaded, rows[id]) {
        active := active + [id];
      }
    }
    forall id | id in rows && Searchable(cat, kind, rows[id], versions)
      ensures ActiveSelect(cat, kind, rows[id], versions)
    {
      assert cat.Owns(kind, rows[id]);
    }
  }

  // ---- workers in flight -------------------------------------------------------------------------

  datatype Provider = Provider(identity: Identity, dimensions: int)

  datatype Report = SaysSucceeded | SaysStale | SaysFailed | SaysRetry(delay: Time) | SaysSkipped | SaysLeaseLost

  /** Where a call of `process` stands between its transactions; the row is the copy the claim returned. */
  datatype Phase =
    | Loading(row: Row)
    | Embedding(row: Row, text: string)
    | Embedded(row: Row, vector: Vector)
    | Settling(row: Row, how: Settlement, says: Report)
    | Returned(says: Report)
    | Raised
    | Crashed
  {
    predicate InFlight() {
      Loading? || Embedding? || Embedded? || Settling?
    }

    /** The provider has not been called yet. */
    predicate BeforeCall() {
      Loading? || Embedding?
    }
  }

  datatype Worker = Worker(rowId: Id, provider: Provider, backoff: Time, phase: Phase)

  datatype System = System(
    kind: Kind,
    cat: Catalogue,
    rows: Rows,
    workers: map<Id, Worker>,   // every lease owner ever used; a lease owner is drawn fresh for each call
    calls: map<Id, nat>,        // provider calls made on behalf of each row
    usedIds: set<Id>,           // row ids ever given out
    now: Time)

  datatype Answer = Answered | Refused(retryable: bool)

  datatype Action =
    | Tick(seconds: nat)
    | Edit(cat: Catalogue)
    | Enqueue(owner: Id, identity: Identity, indexVersion: string, maxAttempts: int, newId: Id)
    | Start(worker: Id, rowId: Id, provider: Provider, lease: Time, backoff: Time)
    | Load(worker: Id)
    | Call(worker: Id, answer: Answer)
    | Settle(worker: Id)
    | Finish(worker: Id)
    | Crash(worker: Id)

  function Initial(kind: Kind): System {
    System(kind, Catalogue("", map[], map[]), map[], map[], map[], {}, 0)
  }

  function Calls(s: System, id: Id): nat {
    if id in s.calls then s.calls[id] else 0
  }

  /** ensure_pending: nothing for a source that is not public or cannot be represented. */
  function AfterEnqueue(
    s: System, owner: Id, identity: Identity, indexVersion: string, maxAttempts: int, newId: Id): System
  {
    var loaded := LoadSource(s.cat, s.kind, owner);
    if loaded.Live? && newId !in s.usedIds then
      s.(rows := Upserted(s.rows, owner, loaded.source.productId, KeyOf(loaded.source, identity, indexVersion),
                          maxAttempts, s.now, newId),
         usedIds := s.usedIds + {newId})
    else s
  }

  function AfterEdit(s: System, cat: Catalogue): System {
    if cat.Consistent() then
      s.(cat := cat, rows := map id | id in s.rows && cat.Owns(s.kind, s.rows[id]) :: s.rows[id])
    else s
  }

  function AfterStart(s: System, w: Id, id: Id, provider: Provider, lease: Time, backoff: Time): System {
    if w in s.workers then s
    else
      var rows := Claimed(s.rows, id, w, lease, s.now);
      var phase := if id in s.rows && CanClaim(s.rows[id], s.now) then Loading(rows[id]) else Returned(SaysSkipped);
      s.(rows := rows, workers := s.workers[w := Worker(id, provider, backoff, phase)])
  }

  function Move(s: System, w: Id, phase: Phase): System
    requires w in s.workers
  {
    s.(workers := s.workers[w := s.workers[w].(phase := phase)])
  }

  function AfterLoad(s: System, w: Id): System {
    if w in s.workers && s.workers[w].phase.Loading? then
      var row := s.workers[w].phase.row;
      var loaded := LoadSource(s.cat, s.kind, row.ownerId);
      if loaded.Invalid? then Move(s, w, Settling(row, Settlement(Failed, 0), SaysFailed))
      else if !Matches(loaded, row) then Move(s, w, Settling(row, Settlement(Stale, 0), SaysStale))
      else Move(s, w, Embedding(row, loaded.source.text))
    else s
  }

  function Delay(worker: Worker, attempts: nat): Time {
    worker.backoff * Pow2(if attempts == 0 then 0 else attempts - 1)
  }

  function AfterCall(s: System, w: Id, answer: Answer): System {
    if w in s.workers && s.workers[w].phase.Embedding? then
      var worker := s.workers[w];
      var row := worker.phase.row;
      if worker.provider.identity != row.key.identity || worker.provider.dimensions != EMBEDDING_DIMENSIONS then
        Move(s, w, Settling(row, Settlement(Failed, 0), SaysFailed))  // refused before any call
      else
        var called := s.(calls := s.calls[worker.rowId := Calls(s, worker.rowId) + 1]);
        match answer
        case Answered => Move(called, w, Embedded(row, Vector(worker.provider.identity, worker.phase.text)))
        case Refused(retryable) =>
          if retryable && row.attempts < row.maxAttempts then
            var delay := Delay(worker, row.attempts);
            Move(called, w, Settling(row, Settlement(Queued, delay), SaysRetry(delay)))
          else
            Move(called, w, Settling(row, Settlement(Failed, Delay(worker, row.attempts)), SaysFailed))
    else s
  }

  function AfterSettle(s: System, w: Id): System {
    if w in s.workers && s.workers[w].phase.Settling? then
      var worker := s.workers[w];
      Move(s.(rows := Settled(s.rows, worker.rowId, w, worker.phase.how, s.now)), w, Returned(worker.phase.says))
    else s
  }

  /** The closing transaction: read the source again under a lock, then complete or go stale. A text that became
      unrepresentable meanwhile raises out of this transaction, which therefore writes nothing. */
  function AfterFinish(s: System, w: Id): System {
    if w in s.workers && s.workers[w].phase.Embedded? then
      var worker := s.workers[w];
      var row := worker.phase.row;
      var loaded := LoadSource(s.cat, s.kind, row.ownerId);
      var held := Holds(s.rows, worker.rowId, w);
      if loaded.Invalid? then Move(s, w, Raised)
      else if !Matches(loaded, row) then
        Move(s.(rows := Settled(s.rows, worker.rowId, w, Settlement(Stale, 0), s.now)), w,
             Returned(if held then SaysStale else SaysLeaseLost))
      else
        Move(s.(rows := Completed(s.rows, worker.rowId, w, worker.phase.vector, s.now)), w,
             Returned(if held then SaysSucceeded else SaysLeaseLost))
    else s
  }

  function AfterCrash(s: System, w: Id): System {
    if w in s.workers && s.workers[w].phase.InFlight() then Move(s, w, Crashed) else s
  }

  function Apply(s: System, a: Action): System {
    match a
    case Tick(seconds) => s.(now := s.now + seconds)
    case Edit(cat) => AfterEdit(s, cat)
    case Enqueue(owner, identity, indexVersion, maxAttempts, newId) =>
      AfterEnqueue(s, owner, identity, indexVersion, maxAttempts, newId)
    case Start(w, id, provider, lease, backoff) => AfterStart(s, w, id, provider, lease, backoff)
    case Load(w) => AfterLoad(s, w)
    case Call(w, answer) => AfterCall(s, w, answer)
    case Settle(w) => AfterSettle(s, w)
    case Finish(w) => AfterFinish(s, w)
    case Crash(w) => AfterCrash(s, w)
  }

  function Run(s: System, actions: seq<Action>): System
    decreases |actions|
  {
    if actions == [] then s else Run(Apply(s, actions[0]), actions[1..])
  }
}
