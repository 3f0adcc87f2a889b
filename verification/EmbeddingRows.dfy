/**
 The embedding table: idempotent creation, leased claims, conditional completion and the search prefilter
 (repositories/embeddings.py). One table serves one kind of owner, products or variants; the two tables never
 interact, so everything is stated for one table of either kind.
 */
module EmbeddingRows {
  import opened Prelude

  type Id = nat
  type Time = int

  datatype Kind = ProductKind | VariantKind

  /** Provider, model and model revision: whose vectors these are. */
  datatype Identity = Identity(provider: string, model: string, modelRevision: string)

  /** A content hash without collisions: equal digests mean equal version and text. */
  datatype Digest = Sha256(version: string, text: string)

  /** The vector a provider returns for a text, kept as its provenance. */
  datatype Vector = Vector(maker: Identity, text: string)

  /** What a row is an embedding of: the table's unique identity together with the owner. */
  datatype Key = Key(revision: int, version: string, digest: Digest, identity: Identity, indexVersion: string)

  /** The columns that name one searchable index. */
  datatype Versions = Versions(version: string, identity: Identity, indexVersion: string)

  datatype Status = Queued | Running | Succeeded | Failed | Stale

  datatype Row = Row(
    ownerId: Id,
    productId: Id,
    key: Key,
    status: Status,
    attempts: nat,
    maxAttempts: int,
    availableAt: Time,
    leaseOwner: Option<Id>,
    leaseExpiresAt: Option<Time>,
    vector: Option<Vector>,
    finishedAt: Option<Time>)
  {
    function Index(): Versions {
      Versions(key.version, key.identity, key.indexVersion)
    }

    predicate Terminal() {
      status.Succeeded? || status.Failed? || status.Stale?
    }

    predicate LeaseExpired(now: Time) {
      status.Running? && leaseExpiresAt.Some? && leaseExpiresAt.value < now
    }

    predicate Due(now: Time) {
      status.Queued? && availableAt <= now
    }
  }

  type Rows = map<Id, Row>

  /** What a worker writes when it lets go of a row: failed, stale, or queued again after a delay. */
  datatype Settlement = Settlement(status: Status, delay: Time)

  // ---- the intended effect of each statement -----------------------------------------------------

  predicate Same(row: Row, owner: Id, key: Key) {
    row.ownerId == owner && row.key == key
  }

  function NewRow(owner: Id, product: Id, key: Key, maxAttempts: int, now: Time): Row {
    Row(owner, product, key, Queued, 0, maxAttempts, now, None, None, None, None)
  }

  function Upserted(rows: Rows, owner: Id, product: Id, key: Key, maxAttempts: int, now: Time, newId: Id): Rows {
    if maxAttempts >= 1 && forall i | i in rows :: !Same(rows[i], owner, key)
    then rows[newId := NewRow(owner, product, key, maxAttempts, now)] else rows
  }

  /** A row seen by a claiming worker: taken, written off after its last attempt, or left alone. */
  function ClaimedRow(row: Row, worker: Id, lease: Time, now: Time): Row {
    if row.Due(now) || row.LeaseExpired(now) then
      if row.attempts < row.maxAttempts then
        row.(status := Running, attempts := row.attempts + 1,
             leaseOwner := Some(worker), leaseExpiresAt := Some(now + lease))
      else if row.status.Running? then
        row.(status := Failed, leaseOwner := None, leaseExpiresAt := None, finishedAt := Some(now))
      else row
    else row
  }

  predicate CanClaim(row: Row, now: Time) {
    (row.Due(now) || row.LeaseExpired(now)) && row.attempts < row.maxAttempts
  }

  function Claimed(rows: Rows, id: Id, worker: Id, lease: Time, now: Time): Rows {
    if id in rows then rows[id := ClaimedRow(rows[id], worker, lease, now)] else rows
  }

  predicate Holds(rows: Rows, id: Id, worker: Id) {
    id in rows && rows[id].status.Running? && rows[id].leaseOwner == Some(worker)
  }

  function SettledRow(row: Row, how: Settlement, now: Time): Row {
    var free := row.(status := how.status, leaseOwner := None, leaseExpiresAt := None);
    if how.status.Queued? then free.(availableAt := now + how.delay) else free.(finishedAt := Some(now))
  }

  function Settled(rows: Rows, id: Id, worker: Id, how: Settlement, now: Time): Rows {
    if Holds(rows, id, worker) then rows[id := SettledRow(rows[id], how, now)] else rows
  }

  function CompletedRow(row: Row, vector: Vector, now: Time): Row {
    row.(status := Succeeded, vector := Some(vector), leaseOwner := None, leaseExpiresAt := None,
         finishedAt := Some(now))
  }

  /** The completed row replaces every older success of its owner in the same index. */
  predicate Superseded(rows: Rows, id: Id, other: Id)
    requires id in rows && other in rows
  {
    && other != id
    && rows[other].status.Succeeded?
    && rows[other].ownerId == rows[id].ownerId
    && rows[other].Index() == rows[id].Index()
  }

  function Completed(rows: Rows, id: Id, worker: Id, vector: Vector, now: Time): Rows {
    if Holds(rows, id, worker) then
      map other | other in rows ::
        if other == id then CompletedRow(rows[id], vector, now)
        else if Superseded(rows, id, other) then rows[other].(status := Stale)
        else rows[other]
    else rows
  }

  // ---- the table, updated in place ---------------------------------------------------------------

  class EmbeddingTable {
    var rows: Rows

    constructor ()
      ensures rows == map[]
    {
      rows := map[];
    }

    /** Insert a queued row unless one exists for the same owner and key; either way such a row is there afterwards.
        The table's check constraint refuses a row that allows no attempt, before any conflict is looked for. */
    method UpsertPending(owner: Id, product: Id, key: Key, maxAttempts: int, now: Time, newId: Id)
      returns (id: Option<Id>, created: bool)
      requires newId !in rows
      modifies this
      ensures rows == Upserted(old(rows), owner, product, key, maxAttempts, now, newId)
      ensures created <==> maxAttempts >= 1 && forall i | i in old(rows) :: !Same(old(rows)[i], owner, key)
      ensures id.Some? <==> maxAttempts >= 1
      ensures id.Some? ==> id.value in rows && Same(rows[id.value], owner, key)
      ensures created ==> id == Some(newId)
    {
      if maxAttempts < 1 {
        return None, false;
      }
      var found := set i | i in rows && Same(rows[i], owner, key);
      if found != {} {
        var i :| i in found;
        assert Same(rows[i], owner, key);
        id, created := Some(i), false;
      } else {
        assert forall i | i in rows :: Same(rows[i], owner, key) ==> i in found;
        rows := rows[newId := NewRow(owner, product, key, maxAttempts, now)];
        id, created := Some(newId), true;
      }
    }

    /** Two conditional updates: write off an abandoned last attempt, then take the row if it is claimable. */
    method Claim(id: Id, worker: Id, lease: Time, now: Time) returns (claimed: Option<Row>)
      modifies this
      ensures rows == Claimed(old(rows), id, worker, lease, now)
      ensures claimed.Some? <==> id in old(rows) && CanClaim(old(rows)[id], now)
      ensures claimed.Some? ==> claimed.value == rows[id] && rows[id].leaseOwner == Some(worker)
    {
      if id in rows && rows[id].LeaseExpired(now) && rows[id].attempts >= rows[id].maxAttempts {
        rows := rows[id := rows[id].(status := Failed, leaseOwner := None, leaseExpiresAt := None,
                                     finishedAt := Some(now))];
      }
      claimed := None;
      if id in rows && rows[id].attempts < rows[id].maxAttempts && (rows[id].Due(now) || rows[id].LeaseExpired(now)) {
        rows := rows[id := rows[id].(status := Running, attempts := rows[id].attempts + 1,
                                     leaseOwner := Some(worker), leaseExpiresAt := Some(now + lease))];
        claimed := Some(rows[id]);
      } else if id in rows {
        assert rows == old(rows)[id := rows[id]];
      }
    }

    /** Let go of a row, for the lease holder only. */
    method Finish(id: Id, worker: Id, how: Settlement, now: Time) returns (done: bool)
      modifies this
      ensures rows == Settled(old(rows), id, worker, how, now)
      ensures done == Holds(old(rows), id, worker)
    {
      done := Holds(rows, id, worker);
      if done {
        rows := rows[id := rows[id].(status := how.status, leaseOwner := None, leaseExpiresAt := None)];
        if how.status.Queued? {
          rows := rows[id := rows[id].(availableAt := now + how.delay)];
        } else {
          rows := rows[id := rows[id].(finishedAt := Some(now))];
        }
        assert rows == old(rows)[id := rows[id]];
      }
    }

    /** Store the vector for the lease holder, then demote the owner's other successes in the same index. */
    method Complete(id: Id, worker: Id, vector: Vector, now: Time) returns (done: bool)
      modifies this
      ensures rows == Completed(old(rows), id, worker, vector, now)
      ensures done == Holds(old(rows), id, worker)
    {
      done := Holds(rows, id, worker);
      if done {
        rows := rows[id := CompletedRow(rows[id], vector, now)];
        rows := map other | other in rows ::
          if other != id && rows[other].status.Succeeded?
             && rows[other].ownerId == rows[id].ownerId && rows[other].Index() == rows[id].Index()
          then rows[other].(status := Stale) else rows[other];
      }
    }
  }
}
