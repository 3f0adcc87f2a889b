/** What every interleaving of workers, edits, crashes and time keeps true of the embedding table. */
module EmbeddingSafety {
  import opened Prelude
  import opened EmbeddingRows
  import opened EmbeddingService

  // ---- the invariant -----------------------------------------------------------------------------

  /** The vector answers the very text the row's digest was taken of, and comes from the row's own provider. */
  predicate VectorFits(key: Key, vector: Vector) {
    vector.maker == key.identity && Sha256(key.version, vector.text) == key.digest
  }

  predicate RowOk(row: Row) {
    && 1 <= row.maxAttempts
    && row.attempts <= row.maxAttempts
    && (row.status.Running? <==> row.leaseOwner.Some?)
    && (row.status.Running? <==> row.leaseExpiresAt.Some?)
    && (row.status.Queued? ==> row.attempts < row.maxAttempts)
    && (row.Terminal() <==> row.finishedAt.Some?)
    && (row.status.Succeeded? ==> row.vector.Some?)
    && (row.vector.Some? ==> VectorFits(row.key, row.vector.value))
  }

  ghost predicate RowsOk(s: System) {
    && s.cat.Consistent()
    && (forall id | id in s.rows :: RowOk(s.rows[id]) && s.cat.Owns(s.kind, s.rows[id]) && id in s.usedIds)
  }

  /** The unique index on owner and key. */
  ghost predicate IdentitiesUnique(rows: Rows) {
    forall i, j | i in rows && j in rows && Same(rows[i], rows[j].ownerId, rows[j].key) :: i == j
  }

  predicate Rivals(a: Row, b: Row) {
    a.status.Succeeded? && b.status.Succeeded? && a.ownerId == b.ownerId && a.Index() == b.Index()
  }

  ghost predicate OneSuccessEach(rows: Rows) {
    forall i, j | i in rows && j in rows && Rivals(rows[i], rows[j]) :: i == j
  }

  /** The worker's copy of its row still agrees with the table on everything that never changes. */
  predicate CopyFits(copy: Row, row: Row) {
    && copy.ownerId == row.ownerId && copy.productId == row.productId
    && copy.key == row.key && copy.maxAttempts == row.maxAttempts
  }

  predicate PhaseOk(phase: Phase)
    requires phase.InFlight()
  {
    && phase.row.attempts >= 1
    && match phase
       case Loading(_) => true
       case Embedding(row, text) => Sha256(row.key.version, text) == row.key.digest
       case Embedded(row, vector) => VectorFits(row.key, vector)
       case Settling(row, how, says) =>
         && (how.status.Queued? || how.status.Failed? || how.status.Stale?)
         && (how.status.Queued? ==> row.attempts < row.maxAttempts)
  }

  ghost predicate WorkerOk(s: System, w: Id)
    requires w in s.workers
  {
    var worker := s.workers[w];
    worker.phase.InFlight() ==>
      && worker.rowId in s.usedIds
      && PhaseOk(worker.phase)
      && (worker.rowId in s.rows ==> CopyFits(worker.phase.row, s.rows[worker.rowId]))
      && (Holds(s.rows, worker.rowId, w) ==> worker.phase.row.attempts == s.rows[worker.rowId].attempts)
  }

  ghost predicate WorkersOk(s: System) {
    forall w | w in s.workers :: WorkerOk(s, w)
  }

  /** A lease names a worker that really claimed that row and has not returned. */
  ghost predicate LeasesOk(s: System) {
    forall id | id in s.rows && s.rows[id].leaseOwner.Some? ::
      && s.rows[id].leaseOwner.value in s.workers
      && s.workers[s.rows[id].leaseOwner.value].rowId == id
      && !s.workers[s.rows[id].leaseOwner.value].phase.Returned?
  }

  predicate PendsFor(worker: Worker, id: Id) {
    worker.rowId == id && worker.phase.BeforeCall()
  }

  /** The workers that may yet call the provider for a row. */
  ghost function PendingIn(workers: map<Id, Worker>, id: Id): set<Id> {
    set w | w in workers && PendsFor(workers[w], id)
  }

  ghost function Pending(s: System, id: Id): set<Id> {
    PendingIn(s.workers, id)
  }

  lemma PendingSplit(workers: map<Id, Worker>, w: Id, id: Id)
    requires w in workers
    ensures |PendingIn(workers, id)| == |PendingIn(workers - {w}, id)| + (if PendsFor(workers[w], id) then 1 else 0)
  {
    var rest := PendingIn(workers - {w}, id);
    if PendsFor(workers[w], id) {
      assert PendingIn(workers, id) == rest + {w};
    } else {
      assert PendingIn(workers, id) == rest;
    }
  }

  lemma PendingCount(workers: map<Id, Worker>, w: Id, worker: Worker, id: Id)
    ensures |PendingIn(workers[w := worker], id)|
         == |PendingIn(workers, id)| - (if w in workers && PendsFor(workers[w], id) then 1 else 0)
            + (if PendsFor(worker, id) then 1 else 0)
  {
    PendingSplit(workers[w := worker], w, id);
    assert workers[w := worker] - {w} == workers - {w};
    if w in workers {
      PendingSplit(workers, w, id);
    } else {
      assert workers - {w} == workers;
    }
  }

  ghost predicate BudgetOk(s: System) {
    && (forall id | id in s.rows :: Calls(s, id) + |Pending(s, id)| <= s.rows[id].attempts)
    && s.calls.Keys <= s.usedIds
  }

  ghost predicate Inv(s: System) {
    && RowsOk(s)
    && IdentitiesUnique(s.rows)
    && OneSuccessEach(s.rows)
    && WorkersOk(s)
    && LeasesOk(s)
    && BudgetOk(s)
  }

  // ---- each step keeps it ------------------------------------------------------------------------

  lemma EnqueueKeepsRows(s: System, row: Row, newId: Id)
    requires RowsOk(s) && IdentitiesUnique(s.rows) && OneSuccessEach(s.rows)
    requires newId !in s.rows && RowOk(row) && row.status.Queued? && s.cat.Owns(s.kind, row)
    requires forall i | i in s.rows :: !Same(s.rows[i], row.ownerId, row.key)
    ensures RowsOk(s.(rows := s.rows[newId := row], usedIds := s.usedIds + {newId}))
    ensures IdentitiesUnique(s.rows[newId := row]) && OneSuccessEach(s.rows[newId := row])
  {
  }

  lemma EnqueueKeepsBudget(s: System, row: Row, newId: Id)
    requires WorkersOk(s) && BudgetOk(s) && newId !in s.usedIds && newId !in s.rows
    ensures BudgetOk(s.(rows := s.rows[newId := row], usedIds := s.usedIds + {newId}))
  {
    var t := s.(rows := s.rows[newId := row], usedIds := s.usedIds + {newId});
    assert Pending(s, newId) == {} by {
      assert forall w | w in s.workers :: WorkerOk(s, w);
    }
    forall id | id in t.rows
      ensures Calls(t, id) + |Pending(t, id)| <= t.rows[id].attempts
    {
      assert Pending(t, id) == Pending(s, id);
    }
  }

  lemma EnqueueKeepsWorkers(s: System, row: Row, newId: Id)
    requires WorkersOk(s) && LeasesOk(s) && newId !in s.usedIds && newId !in s.rows && row.leaseOwner.None?
    ensures WorkersOk(s.(rows := s.rows[newId := row], usedIds := s.usedIds + {newId}))
    ensures LeasesOk(s.(rows := s.rows[newId := row], usedIds := s.usedIds + {newId}))
  {
    var t := s.(rows := s.rows[newId := row], usedIds := s.usedIds + {newId});
    forall w | w in t.workers
      ensures WorkerOk(t, w)
    {
      assert WorkerOk(s, w);
    }
  }

  /** Handing out a row id without inserting a row. */
  lemma SpentIdKeepsInv(s: System, newId: Id)
    requires Inv(s)
    ensures Inv(s.(usedIds := s.usedIds + {newId}))
  {
    var t := s.(usedIds := s.usedIds + {newId});
    assert forall id | id in t.rows :: Pending(t, id) == Pending(s, id);
    assert forall w | w in t.workers :: WorkerOk(s, w) ==> WorkerOk(t, w);
  }

  lemma InsertKeepsInv(s: System, row: Row, newId: Id)
    requires Inv(s) && newId !in s.usedIds
    requires RowOk(row) && row.status.Queued? && s.cat.Owns(s.kind, row)
    requires forall i | i in s.rows :: !Same(s.rows[i], row.ownerId, row.key)
    ensures Inv(s.(rows := s.rows[newId := row], usedIds := s.usedIds + {newId}))
  {
    assert newId !in s.rows;
    EnqueueKeepsRows(s, row, newId);
    EnqueueKeepsBudget(s, row, newId);
    EnqueueKeepsWorkers(s, row, newId);
  }

  /** A live source names an owner whose foreign keys are intact. */
  lemma LiveRowIsOwned(cat: Catalogue, kind: Kind, owner: Id, key: Key, maxAttempts: int, now: Time)
    requires LoadSource(cat, kind, owner).Live? && maxAttempts >= 1
    ensures var row := NewRow(owner, LoadSource(cat, kind, owner).source.productId, key, maxAttempts, now);
            RowOk(row) && cat.Owns(kind, row)
  {
  }

  lemma EnqueueKeepsInv(s: System, owner: Id, identity: Identity, indexVersion: string, maxAttempts: int, newId: Id)
    requires Inv(s)
    ensures Inv(AfterEnqueue(s, owner, identity, indexVersion, maxAttempts, newId))
  {
    var loaded := LoadSource(s.cat, s.kind, owner);
    if loaded.Live? && newId !in s.usedIds {
      var key := KeyOf(loaded.source, identity, indexVersion);
      var rows := Upserted(s.rows, owner, loaded.source.productId, key, maxAttempts, s.now, newId);
      if rows == s.rows {
        SpentIdKeepsInv(s, newId);
      } else {
        var row := NewRow(owner, loaded.source.productId, key, maxAttempts, s.now);
        LiveRowIsOwned(s.cat, s.kind, owner, key, maxAttempts, s.now);
        InsertKeepsInv(s, row, newId);
      }
    }
  }

  lemma EditKeepsInv(s: System, cat: Catalogue)
    requires Inv(s)
    ensures Inv(AfterEdit(s, cat))
  {
    var t := AfterEdit(s, cat);
    forall id | id in t.rows
      ensures Calls(t, id) + |Pending(t, id)| <= t.rows[id].attempts
    {
      assert Pending(t, id) == Pending(s, id);
    }
    forall w | w in t.workers
      ensures WorkerOk(t, w)
    {
      assert WorkerOk(s, w);
    }
  }

  lemma ClaimedRowOk(row: Row, w: Id, lease: Time, now: Time)
    requires RowOk(row)
    ensures RowOk(ClaimedRow(row, w, lease, now)) && CopyFits(row, ClaimedRow(row, w, lease, now))
    ensures ClaimedRow(row, w, lease, now).status.Succeeded? <==> row.status.Succeeded?
    ensures CanClaim(row, now) ==> ClaimedRow(row, w, lease, now).attempts == row.attempts + 1
    ensures !CanClaim(row, now) ==> ClaimedRow(row, w, lease, now).attempts == row.attempts
    ensures ClaimedRow(row, w, lease, now).leaseOwner.Some? ==>
      || ClaimedRow(row, w, lease, now) == row
      || (CanClaim(row, now) && ClaimedRow(row, w, lease, now).leaseOwner == Some(w))
  {
  }

  /** Replacing one row by another of the same owner, key and success. */
  lemma ReplaceKeepsRows(s: System, id: Id, row: Row)
    requires RowsOk(s) && IdentitiesUnique(s.rows) && OneSuccessEach(s.rows)
    requires id in s.rows && RowOk(row) && CopyFits(s.rows[id], row)
    requires row.status.Succeeded? ==> s.rows[id].status.Succeeded?
    ensures RowsOk(s.(rows := s.rows[id := row]))
    ensures IdentitiesUnique(s.rows[id := row]) && OneSuccessEach(s.rows[id := row])
  {
    var rows := s.rows[id := row];
    forall i, j | i in rows && j in rows && Same(rows[i], rows[j].ownerId, rows[j].key)
      ensures i == j
    {
      assert Same(s.rows[i], s.rows[j].ownerId, s.rows[j].key);
    }
    forall i, j | i in rows && j in rows && Rivals(rows[i], rows[j])
      ensures i == j
    {
      assert Rivals(s.rows[i], s.rows[j]);
    }
  }

  lemma ClaimKeepsBudget(s: System, w: Id, id: Id, provider: Provider, lease: Time, backoff: Time)
    requires RowsOk(s) && BudgetOk(s) && w !in s.workers
    ensures BudgetOk(AfterStart(s, w, id, provider, lease, backoff))
  {
    var t := AfterStart(s, w, id, provider, lease, backoff);
    if id in s.rows {
      ClaimedRowOk(s.rows[id], w, lease, s.now);
    }
    forall i | i in t.rows
      ensures Calls(t, i) + |Pending(t, i)| <= t.rows[i].attempts
    {
      PendingCount(s.workers, w, t.workers[w], i);
    }
  }

  lemma ClaimKeepsWorkers(s: System, w: Id, id: Id, provider: Provider, lease: Time, backoff: Time)
    requires RowsOk(s) && WorkersOk(s) && w !in s.workers
    ensures WorkersOk(AfterStart(s, w, id, provider, lease, backoff))
  {
    var t := AfterStart(s, w, id, provider, lease, backoff);
    if id in s.rows {
      ClaimedRowOk(s.rows[id], w, lease, s.now);
    }
    forall v | v in t.workers
      ensures WorkerOk(t, v)
    {
      if v != w {
        assert WorkerOk(s, v);
      }
    }
  }

  lemma ClaimKeepsLeases(s: System, w: Id, id: Id, provider: Provider, lease: Time, backoff: Time)
    requires RowsOk(s) && LeasesOk(s) && w !in s.workers
    ensures LeasesOk(AfterStart(s, w, id, provider, lease, backoff))
  {
    if id in s.rows {
      ClaimedRowOk(s.rows[id], w, lease, s.now);
    }
  }

  lemma StartKeepsInv(s: System, w: Id, id: Id, provider: Provider, lease: Time, backoff: Time)
    requires Inv(s)
    ensures Inv(AfterStart(s, w, id, provider, lease, backoff))
  {
    if w !in s.workers {
      if id in s.rows {
        ClaimedRowOk(s.rows[id], w, lease, s.now);
        ReplaceKeepsRows(s, id, ClaimedRow(s.rows[id], w, lease, s.now));
      }
      ClaimKeepsBudget(s, w, id, provider, lease, backoff);
      ClaimKeepsWorkers(s, w, id, provider, lease, backoff);
      ClaimKeepsLeases(s, w, id, provider, lease, backoff);
    }
  }

  lemma MoveKeepsBudget(s: System, w: Id, phase: Phase)
    requires BudgetOk(s) && w in s.workers && (phase.BeforeCall() ==> s.workers[w].phase.BeforeCall())
    ensures BudgetOk(Move(s, w, phase))
  {
    var t := Move(s, w, phase);
    forall i | i in t.rows
      ensures Calls(t, i) + |Pending(t, i)| <= t.rows[i].attempts
    {
      PendingCount(s.workers, w, t.workers[w], i);
    }
  }

  lemma MoveKeepsWorkers(s: System, w: Id, phase: Phase)
    requires WorkersOk(s) && w in s.workers
    requires phase.InFlight() ==> s.workers[w].phase.InFlight() && phase.row == s.workers[w].phase.row && PhaseOk(phase)
    ensures WorkersOk(Move(s, w, phase))
  {
    var t := Move(s, w, phase);
    forall v | v in t.workers
      ensures WorkerOk(t, v)
    {
      assert WorkerOk(s, v);
    }
  }

  /** A worker moves on without touching the table or calling anyone. */
  lemma MoveKeepsInv(s: System, w: Id, phase: Phase)
    requires Inv(s) && w in s.workers
    requires phase.InFlight() ==> s.workers[w].phase.InFlight() && phase.row == s.workers[w].phase.row && PhaseOk(phase)
    requires phase.BeforeCall() ==> s.workers[w].phase.BeforeCall()
    requires phase.Returned? ==> forall id | id in s.rows :: s.rows[id].leaseOwner != Some(w)
    ensures Inv(Move(s, w, phase))
  {
    MoveKeepsBudget(s, w, phase);
    MoveKeepsWorkers(s, w, phase);
  }

  lemma LoadKeepsInv(s: System, w: Id)
    requires Inv(s)
    ensures Inv(AfterLoad(s, w))
  {
    if w in s.workers && s.workers[w].phase.Loading? {
      assert WorkerOk(s, w);
      MoveKeepsInv(s, w, AfterLoad(s, w).workers[w].phase);
    }
  }

  lemma SpendKeepsBudget(s: System, w: Id, phase: Phase)
    requires BudgetOk(s) && w in s.workers && s.workers[w].phase.BeforeCall() && !phase.BeforeCall()
    requires s.workers[w].rowId in s.usedIds
    ensures var id := s.workers[w].rowId;
            BudgetOk(Move(s.(calls := s.calls[id := Calls(s, id) + 1]), w, phase))
  {
    var id := s.workers[w].rowId;
    var t := Move(s.(calls := s.calls[id := Calls(s, id) + 1]), w, phase);
    forall i | i in t.rows
      ensures Calls(t, i) + |Pending(t, i)| <= t.rows[i].attempts
    {
      PendingCount(s.workers, w, t.workers[w], i);
    }
  }

  /** Calling the provider spends one of the calls the row's attempts paid for. */
  lemma SpendCall(s: System, w: Id, phase: Phase)
    requires Inv(s) && w in s.workers && s.workers[w].phase.Embedding?
    requires phase.InFlight() && !phase.BeforeCall() && phase.row == s.workers[w].phase.row && PhaseOk(phase)
    ensures var id := s.workers[w].rowId;
            Inv(Move(s.(calls := s.calls[id := Calls(s, id) + 1]), w, phase))
  {
    var id := s.workers[w].rowId;
    assert WorkerOk(s, w);
    SpendKeepsBudget(s, w, phase);
    MoveKeepsInv(s, w, phase);
    var t := Move(s.(calls := s.calls[id := Calls(s, id) + 1]), w, phase);
    forall v | v in t.workers
      ensures WorkerOk(t, v)
    {
      assert WorkerOk(Move(s, w, phase), v);
    }
  }

  /** What a call that was really made leaves the worker with. */
  lemma CallSpends(s: System, w: Id, answer: Answer)
    requires w in s.workers && s.workers[w].phase.Embedding? && PhaseOk(s.workers[w].phase)
    requires s.workers[w].provider.identity == s.workers[w].phase.row.key.identity
    requires s.workers[w].provider.dimensions == EMBEDDING_DIMENSIONS
    ensures var id, phase := s.workers[w].rowId, AfterCall(s, w, answer).workers[w].phase;
            && AfterCall(s, w, answer) == Move(s.(calls := s.calls[id := Calls(s, id) + 1]), w, phase)
            && phase.InFlight() && !phase.BeforeCall() && phase.row == s.workers[w].phase.row && PhaseOk(phase)
  {
  }

  lemma CallKeepsInv(s: System, w: Id, answer: Answer)
    requires Inv(s)
    ensures Inv(AfterCall(s, w, answer))
  {
    if w in s.workers && s.workers[w].phase.Embedding? {
      assert WorkerOk(s, w);
      var worker := s.workers[w];
      var t := AfterCall(s, w, answer);
      if worker.provider.identity != worker.phase.row.key.identity
         || worker.provider.dimensions != EMBEDDING_DIMENSIONS {
        MoveKeepsInv(s, w, t.workers[w].phase);
      } else {
        CallSpends(s, w, answer);
        SpendCall(s, w, t.workers[w].phase);
      }
    }
  }

  /** The lease holder rewrites its own row; other rows stay, or fall from succeeded to stale. */
  ghost predicate OwnWrite(s: System, rows: Rows, w: Id, id: Id) {
    && Holds(s.rows, id, w) && w in s.workers
    && rows.Keys == s.rows.Keys
    && (forall i | i in s.rows && i != id ::
          rows[i] == s.rows[i] || (s.rows[i].status.Succeeded? && rows[i] == s.rows[i].(status := Stale)))
    && RowOk(rows[id]) && rows[id].leaseOwner.None?
    && CopyFits(s.rows[id], rows[id]) && rows[id].attempts == s.rows[id].attempts
  }

  lemma WriteKeepsRows(s: System, rows: Rows, w: Id, id: Id)
    requires RowsOk(s) && IdentitiesUnique(s.rows) && OwnWrite(s, rows, w, id)
    ensures RowsOk(s.(rows := rows))
    ensures IdentitiesUnique(rows)
  {
    forall i | i in rows
      ensures RowOk(rows[i]) && s.cat.Owns(s.kind, rows[i]) && i in s.usedIds
    {
      assert RowOk(s.rows[i]) && s.cat.Owns(s.kind, s.rows[i]);
    }
    forall i, j | i in rows && j in rows && Same(rows[i], rows[j].ownerId, rows[j].key)
      ensures i == j
    {
      assert Same(s.rows[i], s.rows[j].ownerId, s.rows[j].key);
    }
  }

  lemma WriteKeepsBudget(s: System, rows: Rows, w: Id, id: Id, says: Report)
    requires BudgetOk(s) && OwnWrite(s, rows, w, id)
    ensures BudgetOk(Move(s.(rows := rows), w, Returned(says)))
  {
    var t := Move(s.(rows := rows), w, Returned(says));
    forall i | i in t.rows
      ensures Calls(t, i) + |Pending(t, i)| <= t.rows[i].attempts
    {
      assert t.rows[i].attempts == s.rows[i].attempts;
      PendingCount(s.workers, w, t.workers[w], i);
    }
  }

  lemma OwnWriteSeenByOther(s: System, rows: Rows, w: Id, id: Id, v: Id, i: Id)
    requires OwnWrite(s, rows, w, id) && i in s.rows
    ensures CopyFits(s.rows[i], rows[i]) && rows[i].attempts == s.rows[i].attempts
    ensures v != w && Holds(rows, i, v) ==> Holds(s.rows, i, v)
  {
  }

  lemma WriteKeepsWorkers(s: System, rows: Rows, w: Id, id: Id, says: Report)
    requires WorkersOk(s) && OwnWrite(s, rows, w, id)
    ensures WorkersOk(Move(s.(rows := rows), w, Returned(says)))
  {
    var t := Move(s.(rows := rows), w, Returned(says));
    forall v | v in t.workers
      ensures WorkerOk(t, v)
    {
      assert WorkerOk(s, v);
      if v != w && s.workers[v].rowId in s.rows {
        OwnWriteSeenByOther(s, rows, w, id, v, s.workers[v].rowId);
      }
    }
  }

  lemma WriteKeepsLeases(s: System, rows: Rows, w: Id, id: Id, says: Report)
    requires RowsOk(s) && LeasesOk(s) && OwnWrite(s, rows, w, id)
    ensures LeasesOk(Move(s.(rows := rows), w, Returned(says)))
  {
    var t := Move(s.(rows := rows), w, Returned(says));
    assert s.workers[w].rowId == id;
    forall i | i in t.rows && t.rows[i].leaseOwner.Some?
      ensures t.rows[i].leaseOwner.value in t.workers
      ensures t.workers[t.rows[i].leaseOwner.value].rowId == i
      ensures !t.workers[t.rows[i].leaseOwner.value].phase.Returned?
    {
      assert RowOk(s.rows[i]);
      assert t.rows[i] == s.rows[i];
    }
  }

  lemma WriteKeepsInv(s: System, rows: Rows, w: Id, id: Id, says: Report)
    requires Inv(s) && OwnWrite(s, rows, w, id) && OneSuccessEach(rows)
    ensures Inv(Move(s.(rows := rows), w, Returned(says)))
  {
    WriteKeepsRows(s, rows, w, id);
    WriteKeepsBudget(s, rows, w, id, says);
    WriteKeepsWorkers(s, rows, w, id, says);
    WriteKeepsLeases(s, rows, w, id, says);
  }

  /** Whoever returns without holding the lease leaves no lease behind. */
  lemma NotHeldIsNowhereHeld(s: System, w: Id)
    requires Inv(s) && w in s.workers && !Holds(s.rows, s.workers[w].rowId, w)
    ensures forall id | id in s.rows :: s.rows[id].leaseOwner != Some(w)
  {
  }

  lemma SettledKeepsSuccess(rows: Rows, id: Id, w: Id, how: Settlement, now: Time)
    requires OneSuccessEach(rows) && !how.status.Succeeded?
    ensures OneSuccessEach(Settled(rows, id, w, how, now))
  {
    var after := Settled(rows, id, w, how, now);
    forall i, j | i in after && j in after && Rivals(after[i], after[j])
      ensures i == j
    {
      assert Rivals(rows[i], rows[j]);
    }
  }

  lemma SettledKeepsInv(s: System, w: Id, how: Settlement, says: Report)
    requires Inv(s) && w in s.workers && s.workers[w].phase.InFlight()
    requires how.status.Queued? || how.status.Failed? || how.status.Stale?
    requires how.status.Queued? ==> s.workers[w].phase.row.attempts < s.workers[w].phase.row.maxAttempts
    ensures Inv(Move(s.(rows := Settled(s.rows, s.workers[w].rowId, w, how, s.now)), w, Returned(says)))
  {
    var id := s.workers[w].rowId;
    var t := Move(s.(rows := Settled(s.rows, id, w, how, s.now)), w, Returned(says));
    assert WorkerOk(s, w);
    if Holds(s.rows, id, w) {
      SettledKeepsSuccess(s.rows, id, w, how, s.now);
      WriteKeepsInv(s, t.rows, w, id, says);
    } else {
      NotHeldIsNowhereHeld(s, w);
      MoveKeepsInv(s, w, Returned(says));
    }
  }

  lemma CompletedKeepsSuccess(rows: Rows, id: Id, w: Id, vector: Vector, now: Time)
    requires OneSuccessEach(rows) && Holds(rows, id, w)
    ensures OneSuccessEach(Completed(rows, id, w, vector, now))
  {
    var after := Completed(rows, id, w, vector, now);
    assert forall i | i in rows && Superseded(rows, id, i) :: after[i].status.Stale?;
    forall i, j | i in after && j in after && Rivals(after[i], after[j])
      ensures i == j
    {
      if i != id && j != id {
        assert Rivals(rows[i], rows[j]);
      }
    }
  }

  lemma CompletedKeepsInv(s: System, w: Id, vector: Vector, says: Report)
    requires Inv(s) && w in s.workers && s.workers[w].phase.InFlight()
    requires VectorFits(s.workers[w].phase.row.key, vector)
    ensures Inv(Move(s.(rows := Completed(s.rows, s.workers[w].rowId, w, vector, s.now)), w, Returned(says)))
  {
    var id := s.workers[w].rowId;
    var t := Move(s.(rows := Completed(s.rows, id, w, vector, s.now)), w, Returned(says));
    assert WorkerOk(s, w);
    if Holds(s.rows, id, w) {
      CompletedKeepsSuccess(s.rows, id, w, vector, s.now);
      WriteKeepsInv(s, t.rows, w, id, says);
    } else {
      NotHeldIsNowhereHeld(s, w);
      MoveKeepsInv(s, w, Returned(says));
    }
  }

  lemma FinishKeepsInv(s: System, w: Id)
    requires Inv(s)
    ensures Inv(AfterFinish(s, w))
  {
    if w in s.workers && s.workers[w].phase.Embedded? {
      assert WorkerOk(s, w);
      var worker := s.workers[w];
      var loaded := LoadSource(s.cat, s.kind, worker.phase.row.ownerId);
      var says := if Holds(s.rows, worker.rowId, w) then SaysSucceeded else SaysLeaseLost;
      if loaded.Invalid? {
        MoveKeepsInv(s, w, Raised);
      } else if Matches(loaded, worker.phase.row) {
        CompletedKeepsInv(s, w, worker.phase.vector, says);
      } else {
        SettledKeepsInv(s, w, Settlement(Stale, 0),
                        if Holds(s.rows, worker.rowId, w) then SaysStale else SaysLeaseLost);
      }
    }
  }

  lemma StepKeepsInv(s: System, a: Action)
    requires Inv(s)
    ensures Inv(Apply(s, a))
  {
    match a
    case Tick(seconds) =>
      var t := Apply(s, a);
      assert forall id | id in t.rows :: Pending(t, id) == Pending(s, id);
      assert forall w | w in t.workers :: WorkerOk(s, w) ==> WorkerOk(t, w);
    case Edit(cat) => EditKeepsInv(s, cat);
    case Enqueue(owner, identity, indexVersion, maxAttempts, newId) =>
      EnqueueKeepsInv(s, owner, identity, indexVersion, maxAttempts, newId);
    case Start(w, id, provider, lease, backoff) => StartKeepsInv(s, w, id, provider, lease, backoff);
    case Load(w) => LoadKeepsInv(s, w);
    case Call(w, answer) => CallKeepsInv(s, w, answer);
    case Settle(w) =>
      if w in s.workers && s.workers[w].phase.Settling? {
        assert WorkerOk(s, w);
        SettledKeepsInv(s, w, s.workers[w].phase.how, s.workers[w].phase.says);
      }
    case Finish(w) => FinishKeepsInv(s, w);
    case Crash(w) =>
      if w in s.workers && s.workers[w].phase.InFlight() {
        MoveKeepsInv(s, w, Crashed);
      }
  }

  lemma {:induction false} RunKeepsInv(s: System, actions: seq<Action>)
    requires Inv(s)
    ensures Inv(Run(s, actions))
    decreases |actions|
  {
    if actions != [] {
      StepKeepsInv(s, actions[0]);
      RunKeepsInv(Apply(s, actions[0]), actions[1..]);
    }
  }

  lemma Reachable(kind: Kind, actions: seq<Action>)
    ensures Inv(Run(Initial(kind), actions))
  {
    var s := Initial(kind);
    assert Inv(s);
    RunKeepsInv(s, actions);
  }
}
