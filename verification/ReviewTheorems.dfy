/** What no sequence of ingestion, review and direct administration can break. */
module ReviewTheorems {
  import opened Prelude
  import opened ReviewWorkflow

  /** `seen` is the staged row the activation guard happens to read; `accepted` stands for the database's remaining
      checks. */
  datatype Action =
    | Stage(newId: Id, sourceId: string, dedupeKey: string, hash: string, draft: SourceDraft, missing: seq<string>)
    | Reject(id: Id, reason: string, actor: string)
    | Approve(id: Id, price: int, stock: int, actor: string, newId: Id, firstNew: Id, accepted: bool)
    | Publish(id: Id, actor: string)
    | Unpublish(id: Id, actor: string)
    | Archive(id: Id, actor: string)
    | SetStatus(product: Id, status: ProductStatus, seen: Id)
    | Replace(product: Id, data: ProductInput, firstNew: Id, seen: Id, accepted: bool)
    | Create(newId: Id, data: ProductInput, firstNew: Id, accepted: bool)

  /** No variant of any product has an id from `firstNew` on. */
  predicate NewIds(s: Store, firstNew: Id) {
    forall p | p in s.products :: forall v | v in s.products[p].variants :: v.id < firstNew
  }

  /** New rows and variants get new ids, and the guard reads a row that is there. */
  ghost predicate Possible(s: Store, a: Action) {
    match a
    case Stage(newId, sourceId, dedupeKey, _, _, _) =>
      (exists i :: i in s.staged && SameSource(s.staged[i], sourceId, dedupeKey) && newId == i)
      || (newId !in s.staged && forall i | i in s.staged :: !SameSource(s.staged[i], sourceId, dedupeKey))
    case Approve(_, _, _, _, newId, firstNew, _) => newId !in s.products && NewIds(s, firstNew)
    case Create(newId, _, firstNew, _) => newId !in s.products && NewIds(s, firstNew)
    case SetStatus(product, _, seen) => CouldRead(s, product, seen)
    case Replace(product, _, firstNew, seen, _) => CouldRead(s, product, seen) && NewIds(s, firstNew)
    case _ => true
  }

  function Apply(s: Store, a: Action): Store {
    match a
    case Stage(id, sourceId, dedupeKey, hash, draft, missing) =>
      if id in s.staged then AfterRescrape(s, id, hash, draft, missing).0
      else AfterFirstScrape(s, id, sourceId, dedupeKey, hash, draft, missing)
    case Reject(id, reason, actor) => AfterReject(s, id, reason, actor).0
    case Approve(id, price, stock, actor, newId, firstNew, accepted) =>
      AfterApprove(s, id, price, stock, actor, newId, firstNew, accepted).0
    case Publish(id, actor) => AfterPublish(s, id, actor).0
    case Unpublish(id, actor) => AfterUnpublish(s, id, actor).0
    case Archive(id, actor) => AfterArchive(s, id, actor).0
    case SetStatus(product, status, seen) => AfterSetStatus(s, product, status, true, seen).0
    case Replace(product, data, firstNew, seen, accepted) => AfterReplace(s, product, data, firstNew, seen, accepted).0
    case Create(newId, data, firstNew, accepted) => AfterCreate(s, newId, data, firstNew, accepted).0
  }

  /** A run: possible actions one after another. */
  ghost predicate Runs(s: Store, actions: seq<Action>, t: Store)
    decreases |actions|
  {
    if actions == [] then s == t
    else Possible(s, actions[0]) && Runs(Apply(s, actions[0]), actions[1..], t)
  }

  const Empty := Store(map[], map[], [])

  // ---- publication safety ------------------------------------------------------------------------

  predicate ApprovedState(status: StagedStatus) {
    status.Approved? || status.Published? || status.Unpublished?
  }

  predicate RowOk(row: Staged) {
    && (ApprovedState(row.status) ==>
          && row.productId.Some? && row.stockKnown
          && row.approvedPrice.Some? && row.approvedPrice.value >= 0
          && row.approvedStock.Some? && row.approvedStock.value >= 0)
    && (row.status.PendingReview? || row.status.Rejected? ==> row.productId.None?)
    && (row.status.Rejected? ==> row.rejectionReason.Some? && |row.rejectionReason.value| >= 3)
  }

  /** No two staged rows share a product, so the guard's single read sees the only one. */
  ghost predicate LinksUnique(s: Store) {
    forall i, j | && i in s.staged && j in s.staged
                  && s.staged[i].productId.Some? && s.staged[i].productId == s.staged[j].productId :: i == j
  }

  ghost predicate SourcesUnique(s: Store) {
    forall i, j | && i in s.staged && j in s.staged
                  && SameSource(s.staged[i], s.staged[j].sourceId, s.staged[j].dedupeKey) :: i == j
  }

  /** An ingested product is public only while its staged row is published. */
  predicate PublicOnlyIfPublished(products: map<Id, Product>, row: Staged) {
    row.productId.Some? ==>
      && row.productId.value in products
      && (products[row.productId.value].status.Active? ==> row.status.Published?)
  }

  ghost predicate Inv(s: Store) {
    && (forall id | id in s.staged :: RowOk(s.staged[id]) && PublicOnlyIfPublished(s.products, s.staged[id]))
    && LinksUnique(s)
    && SourcesUnique(s)
  }

  /** One staged row changes without moving its link or identity, and the products change only where that row links. */
  lemma RowChangeKeepsInv(s: Store, t: Store, id: Id)
    requires Inv(s) && id in s.staged && id in t.staged
    requires t.staged == s.staged[id := t.staged[id]]
    requires t.staged[id].productId == s.staged[id].productId
    requires SameSource(t.staged[id], s.staged[id].sourceId, s.staged[id].dedupeKey)
    requires RowOk(t.staged[id]) && PublicOnlyIfPublished(t.products, t.staged[id])
    requires forall p | p in s.products && Some(p) != s.staged[id].productId ::
      p in t.products && t.products[p] == s.products[p]
    ensures Inv(t)
  {
    forall i | i in t.staged && i != id
      ensures RowOk(t.staged[i]) && PublicOnlyIfPublished(t.products, t.staged[i])
    {
      assert t.staged[i] == s.staged[i];
    }
  }

  /** Products change, but none becomes public behind its staged row's back. */
  lemma ProductChangeKeepsInv(s: Store, t: Store)
    requires Inv(s) && t.staged == s.staged
    requires forall p | p in s.products :: p in t.products
    requires forall id | id in s.staged && s.staged[id].productId.Some? && s.staged[id].productId.value in t.products ::
               t.products[s.staged[id].productId.value].status.Active? ==>
                 s.products[s.staged[id].productId.value].status.Active? || s.staged[id].status.Published?
    ensures Inv(t)
  {
    forall id | id in t.staged
      ensures RowOk(t.staged[id]) && PublicOnlyIfPublished(t.products, t.staged[id])
    {
      assert PublicOnlyIfPublished(s.products, s.staged[id]);
    }
  }

  lemma StageKeepsInv(s: Store, a: Action)
    requires Inv(s) && a.Stage? && Possible(s, a)
    ensures Inv(Apply(s, a))
  {
    var t := Apply(s, a);
    if a.newId in s.staged {
      assert RowOk(s.staged[a.newId]) && PublicOnlyIfPublished(s.products, s.staged[a.newId]);
      if t != s {
        RowChangeKeepsInv(s, t, a.newId);
      }
    } else {
      assert t.staged[a.newId] == NewStaged(a.sourceId, a.dedupeKey, a.hash, a.draft, a.missing);
    }
  }

  lemma ApproveKeepsInv(s: Store, a: Action)
    requires Inv(s) && a.Approve? && Possible(s, a)
    ensures Inv(Apply(s, a))
  {
    var t := Apply(s, a);
    if t != s {
      assert RowOk(s.staged[a.id]);
      forall i | i in t.staged
        ensures RowOk(t.staged[i]) && PublicOnlyIfPublished(t.products, t.staged[i])
      {
        if i != a.id {
          assert RowOk(s.staged[i]) && PublicOnlyIfPublished(s.products, s.staged[i]);
        }
      }
      forall i | i in t.staged && i != a.id
        ensures t.staged[i].productId != Some(a.newId)
      {
        assert PublicOnlyIfPublished(s.products, s.staged[i]);
      }
    }
  }

  lemma ReviewKeepsInv(s: Store, a: Action)
    requires Inv(s) && (a.Reject? || a.Publish? || a.Unpublish? || a.Archive?)
    ensures Inv(Apply(s, a))
  {
    var t := Apply(s, a);
    if t != s {
      assert RowOk(s.staged[a.id]) && PublicOnlyIfPublished(s.products, s.staged[a.id]);
      RowChangeKeepsInv(s, t, a.id);
    }
  }

  lemma AdminKeepsInv(s: Store, a: Action)
    requires Inv(s) && Possible(s, a) && (a.SetStatus? || a.Replace? || a.Create?)
    ensures Inv(Apply(s, a))
  {
    var t := Apply(s, a);
    if t != s {
      var p := if a.Create? then a.newId else a.product;
      forall id | id in s.staged && s.staged[id].productId.Some? && s.staged[id].productId.value in t.products
        ensures t.products[s.staged[id].productId.value].status.Active? ==>
                  s.products[s.staged[id].productId.value].status.Active? || s.staged[id].status.Published?
      {
        assert PublicOnlyIfPublished(s.products, s.staged[id]);
        if s.staged[id].productId == Some(p) && !a.Create? {
          assert Linked(s, id, p);
          assert Linked(s, a.seen, p);
        }
      }
      ProductChangeKeepsInv(s, t);
    }
  }

  lemma StepKeepsInv(s: Store, a: Action)
    requires Inv(s) && Possible(s, a)
    ensures Inv(Apply(s, a))
  {
    if a.Stage? {
      StageKeepsInv(s, a);
    } else if a.Approve? {
      ApproveKeepsInv(s, a);
    } else if a.Reject? || a.Publish? || a.Unpublish? || a.Archive? {
      ReviewKeepsInv(s, a);
    } else {
      AdminKeepsInv(s, a);
    }
  }

  lemma {:induction false} RunKeepsInv(s: Store, actions: seq<Action>, t: Store)
    requires Inv(s) && Runs(s, actions, t)
    ensures Inv(t)
    decreases |actions|
  {
    if actions != [] {
      StepKeepsInv(s, actions[0]);
      RunKeepsInv(Apply(s, actions[0]), actions[1..], t);
    }
  }

  /** Nothing ingested is public unless published: after any run, a product linked from a staged row is active only if
      that row is published. */
  lemma NothingPublicUnlessPublished(actions: seq<Action>, t: Store, id: Id)
    requires Runs(Empty, actions, t) && id in t.staged && t.staged[id].productId.Some?
    ensures t.staged[id].productId.value in t.products
    ensures t.products[t.staged[id].productId.value].status.Active? ==> t.staged[id].status.Published?
  {
    RunKeepsInv(Empty, actions, t);
    assert PublicOnlyIfPublished(t.products, t.staged[id]);
  }

  predicate GoesPublic(s: Store, t: Store, p: Id) {
    (p in s.products ==> !s.products[p].status.Active?) && p in t.products && t.products[p].status.Active?
  }

  lemma AdminMakesPublic(s: Store, a: Action, id: Id, p: Id)
    requires Possible(s, a) && Linked(s, id, p) && LinksUnique(s) && (a.SetStatus? || a.Replace?)
    requires GoesPublic(s, Apply(s, a), p)
    ensures a.product == p && s.staged[id].status.Published?
  {
    if a.product == p {
      assert Linked(s, a.seen, p);
    }
  }

  lemma ReviewMakesPublic(s: Store, a: Action, id: Id, p: Id)
    requires Possible(s, a) && Linked(s, id, p) && LinksUnique(s) && p in s.products && !a.SetStatus? && !a.Replace?
    requires GoesPublic(s, Apply(s, a), p)
    ensures a.Publish? && a.id == id && a.actor != ""
  {
  }

  /** A reviewed product goes public by the publish action of a named person, or by an administrator while it is
      published. */
  lemma WhoMakesPublic(s: Store, a: Action, id: Id, p: Id)
    requires Inv(s) && Possible(s, a) && Linked(s, id, p)
    requires GoesPublic(s, Apply(s, a), p)
    ensures (a.Publish? && a.id == id && a.actor != "")
         || ((a.SetStatus? || a.Replace?) && a.product == p && s.staged[id].status.Published?)
  {
    assert PublicOnlyIfPublished(s.products, s.staged[id]);
    if a.SetStatus? || a.Replace? {
      AdminMakesPublic(s, a, id, p);
    } else {
      ReviewMakesPublic(s, a, id, p);
    }
  }

  /** Why uniqueness matters: with two rows on one product, the guard could read the published one and let the other's
      product be activated. Such a store is never reached. */
  lemma SharedProductWouldLeak(s: Store, a: Id, b: Id, p: Id)
    requires a in s.staged && b in s.staged && p in s.products && a != b
    requires s.staged[a].productId == Some(p) && s.staged[b].productId == Some(p)
    requires s.staged[a].status.Published? && !s.staged[b].status.Published?
    ensures Possible(s, SetStatus(p, Active, a))
    ensures Apply(s, SetStatus(p, Active, a)).products[p].status.Active?
    ensures !PublicOnlyIfPublished(Apply(s, SetStatus(p, Active, a)).products, s.staged[b])
    ensures !Inv(s)
  {
    assert Linked(s, a, p);
  }

  // ---- audit replay ------------------------------------------------------------------------------

  /** The status moves recorded for one row, in order. */
  function Moves(audit: seq<AuditEntry>, id: Id): seq<AuditEntry> {
    if audit == [] then []
    else
      var last := audit[|audit| - 1];
      Moves(audit[..|audit| - 1], id) + (if last.staged == id && last.toStatus.Some? then [last] else [])
  }

  /** A chain: it starts at pending review, each link is allowed and begins where the last one ended, and it ends at
      `end`. */
  predicate Chain(moves: seq<AuditEntry>, end: StagedStatus) {
    && moves != []
    && moves[0].fromStatus == None && moves[0].toStatus == Some(PendingReview)
    && (forall k | 1 <= k < |moves| ::
          && moves[k].fromStatus == moves[k - 1].toStatus
          && moves[k].fromStatus.Some? && moves[k].toStatus.Some?
          && CanTransition(moves[k].fromStatus.value, moves[k].toStatus.value))
    && moves[|moves| - 1].toStatus == Some(end)
  }

  ghost predicate AuditOk(s: Store) {
    && (forall id | id in s.staged :: Chain(Moves(s.audit, id), s.staged[id].status))
    && (forall id | id !in s.staged :: Moves(s.audit, id) == [])
  }

  lemma MovesAppend(audit: seq<AuditEntry>, e: AuditEntry, id: Id)
    ensures Moves(audit + [e], id) == Moves(audit, id) + (if e.staged == id && e.toStatus.Some? then [e] else [])
  {
    assert (audit + [e])[..|audit|] == audit;
  }

  ghost predicate AuditStep(s: Store, t: Store) {
    || (t.audit == s.audit && t.staged == s.staged)
    || (|t.audit| == |s.audit| + 1 && t.audit == s.audit + [t.audit[|s.audit|]] && Told(s, t, t.audit[|s.audit|]))
  }

  lemma StageAuditStep(s: Store, a: Action)
    requires a.Stage?
    ensures AuditStep(s, Apply(s, a))
  {
  }

  lemma MoveAuditStep(s: Store, a: Action)
    requires a.Reject? || a.Publish? || a.Unpublish? || a.Archive?
    ensures AuditStep(s, Apply(s, a))
  {
  }

  lemma ApproveAuditStep(s: Store, a: Action)
    requires a.Approve?
    ensures AuditStep(s, Apply(s, a))
  {
  }

  /** Every step leaves the audit as it was, or appends one entry that tells what happened to one row's status. */
  lemma EveryAuditStep(s: Store, a: Action)
    ensures AuditStep(s, Apply(s, a))
  {
    if a.Stage? {
      StageAuditStep(s, a);
    } else if a.Approve? {
      ApproveAuditStep(s, a);
    } else if a.Reject? || a.Publish? || a.Unpublish? || a.Archive? {
      MoveAuditStep(s, a);
    }
  }

  ghost predicate Told(s: Store, t: Store, e: AuditEntry) {
    && e.staged in t.staged
    && (forall i | i in t.staged && i != e.staged :: i in s.staged && t.staged[i] == s.staged[i])
    && (forall i | i in s.staged :: i in t.staged)
    && (if e.staged !in s.staged then e.fromStatus == None && e.toStatus == Some(PendingReview)
                                      && t.staged[e.staged].status.PendingReview?
        else if e.toStatus.Some? then
          && e.fromStatus == Some(s.staged[e.staged].status) && e.toStatus == Some(t.staged[e.staged].status)
          && CanTransition(s.staged[e.staged].status, t.staged[e.staged].status)
        else t.staged[e.staged].status == s.staged[e.staged].status)
  }

  lemma ChainExtends(moves: seq<AuditEntry>, status: StagedStatus, e: AuditEntry, next: StagedStatus)
    requires Chain(moves, status)
    requires e.fromStatus == Some(status) && e.toStatus == Some(next) && CanTransition(status, next)
    ensures Chain(moves + [e], next)
  {
  }

  lemma StepKeepsAudit(s: Store, a: Action)
    requires AuditOk(s)
    ensures AuditOk(Apply(s, a))
    ensures s.audit <= Apply(s, a).audit
  {
    EveryAuditStep(s, a);
    var t := Apply(s, a);
    if t.audit != s.audit {
      ToldKeepsAudit(s, t, t.audit[|s.audit|]);
    }
  }

  lemma ToldKeepsAudit(s: Store, t: Store, e: AuditEntry)
    requires AuditOk(s) && t.audit == s.audit + [e] && Told(s, t, e)
    ensures AuditOk(t)
  {
    forall id | id in t.staged
      ensures Chain(Moves(t.audit, id), t.staged[id].status)
    {
      MovesAppend(s.audit, e, id);
      if id == e.staged && id in s.staged && e.toStatus.Some? {
        ChainExtends(Moves(s.audit, id), s.staged[id].status, e, t.staged[id].status);
      }
    }
    forall id | id !in t.staged
      ensures Moves(t.audit, id) == []
    {
      MovesAppend(s.audit, e, id);
    }
  }

  lemma {:induction false} RunKeepsAudit(s: Store, actions: seq<Action>, t: Store)
    requires AuditOk(s) && Runs(s, actions, t)
    ensures AuditOk(t) && s.audit <= t.audit
    decreases |actions|
  {
    if actions != [] {
      StepKeepsAudit(s, actions[0]);
      RunKeepsAudit(Apply(s, actions[0]), actions[1..], t);
    }
  }

  /** Replaying the audit of any staged row gives its current status, through allowed moves only; and the trail only
      grows. */
  lemma AuditReplays(before: seq<Action>, after: seq<Action>, s: Store, t: Store, id: Id)
    requires Runs(Empty, before, s) && Runs(s, after, t) && id in t.staged
    ensures Chain(Moves(t.audit, id), t.staged[id].status)
    ensures s.audit <= t.audit
  {
    RunKeepsAudit(Empty, before, s);
    RunKeepsAudit(s, after, t);
  }

  // ---- reviewed content is frozen ----------------------------------------------------------------

  predicate Frozen(before: Staged, after: Staged) {
    && !after.status.PendingReview?
    && after.draft == before.draft && after.contentHash == before.contentHash && after.productId == before.productId
    && (before.status.Archived? ==> after.status.Archived?)
  }

  lemma MoveKeepsReviewed(s: Store, a: Action, id: Id)
    requires (a.Reject? || a.Publish? || a.Unpublish? || a.Archive?) && id in s.staged
        && !s.staged[id].status.PendingReview?
    ensures id in Apply(s, a).staged && Frozen(s.staged[id], Apply(s, a).staged[id])
  {
  }

  lemma StepKeepsReviewed(s: Store, a: Action, id: Id)
    requires id in s.staged && !s.staged[id].status.PendingReview?
    ensures id in Apply(s, a).staged && Frozen(s.staged[id], Apply(s, a).staged[id])
  {
    if a.Reject? || a.Publish? || a.Unpublish? || a.Archive? {
      MoveKeepsReviewed(s, a, id);
    }
  }

  /** Once past pending review, neither re-scraping nor anything else changes the draft, its hash or its product again,
      and an archived row stays archived. */
  lemma {:induction false} ReviewedContentIsFrozen(s: Store, actions: seq<Action>, t: Store, id: Id)
    requires Runs(s, actions, t) && id in s.staged && !s.staged[id].status.PendingReview?
    ensures id in t.staged && Frozen(s.staged[id], t.staged[id])
    decreases |actions|
  {
    if actions != [] {
      StepKeepsReviewed(s, actions[0], id);
      ReviewedContentIsFrozen(Apply(s, actions[0]), actions[1..], t, id);
    }
  }
}
