/**
 Staged products, their human review and the catalogue products that come out of it
 (repositories/staged.py, repositories/products.py, schemas/ingestion_schema.py).
 */
module ReviewWorkflow {
  import opened Prelude

  type Id = nat

  // ---- the workflow ------------------------------------------------------------------------------

  datatype StagedStatus = PendingReview | Approved | Rejected | Published | Unpublished | Archived

  /** Anything not listed is an invalid transition. */
  predicate CanTransition(current: StagedStatus, target: StagedStatus) {
    match current
    case PendingReview => target.Approved? || target.Rejected?
    case Approved => target.Published? || target.Archived?
    case Published => target.Unpublished? || target.Archived?
    case Unpublished => target.Published? || target.Archived?
    case Rejected => target.Archived?
    case Archived => false
  }

  datatype ProductStatus = Active | Draft | OutOfStock | Withdrawn

  datatype DraftVariant = DraftVariant(name: Option<string>, imageUrl: Option<string>)

  /** The scraped draft: a free-form record in which any field may be missing. */
  datatype SourceDraft = SourceDraft(
    name: Option<string>, slug: Option<string>, cover: Option<string>, variants: Option<seq<DraftVariant>>,
    rest: string)

  datatype Staged = Staged(
    sourceId: string,
    dedupeKey: string,
    contentHash: string,
    latestHash: Option<string>,
    status: StagedStatus,
    rejectionReason: Option<string>,
    draft: SourceDraft,
    missingFields: seq<string>,
    stockKnown: bool,
    productId: Option<Id>,
    approvedPrice: Option<int>,
    approvedStock: Option<int>)

  datatype VariantFields = VariantFields(name: string, imageUrl: string, price: int, stock: int)

  datatype Variant = Variant(id: Id, active: bool, fields: VariantFields)

  datatype Product =
    Product(slug: string, name: string, status: ProductStatus, price: int, variants: seq<Variant>, revision: nat)

  /** A submitted variant; one that names an existing variant means that one. */
  datatype VariantInput = VariantInput(id: Option<Id>, fields: VariantFields)

  datatype ProductInput =
    ProductInput(slug: string, name: string, status: ProductStatus, price: int, variants: seq<VariantInput>)

  datatype AuditEntry = AuditEntry(
    staged: Id, action: string, fromStatus: Option<StagedStatus>, toStatus: Option<StagedStatus>, actor: string,
    note: Option<string>)

  datatype Store = Store(staged: map<Id, Staged>, products: map<Id, Product>, audit: seq<AuditEntry>)

  datatype Error =
    | NotFound | InvalidTransition(current: StagedStatus, target: StagedStatus) | InvalidDraft
    | SlugExists | ReviewRequired | ActorRequired | ProductUnavailable

  datatype Outcome = Done | Refused(error: Error)

  datatype StageOutcome = Created | Unchanged | Updated | SourceChanged

  // ---- helpers -----------------------------------------------------------------------------------

  /** What stripping removes: every Unicode white space character. */
  predicate IsSpace(c: char) {
    || '\t' <= c <= '\r' || '\U{1c}' <= c <= ' ' || c == '\U{85}' || c == '\U{a0}' || c == '\U{1680}'
    || '\U{2000}' <= c <= '\U{200a}' || c == '\U{2028}' || c == '\U{2029}' || c == '\U{202f}' || c == '\U{205f}'
    || c == '\U{3000}'
  }

  function Strip(s: string): (t: string)
    ensures |t| <= |s|
    ensures t != [] ==> !IsSpace(t[0]) && !IsSpace(t[|t| - 1])
  {
    if s == [] then []
    else if IsSpace(s[0]) then Strip(s[1..])
    else if IsSpace(s[|s| - 1]) then Strip(s[..|s| - 1])
    else s
  }

  /** The fields a catalogue product cannot do without are all there. */
  predicate DraftComplete(d: SourceDraft) {
    && d.name.Some? && d.slug.Some? && d.cover.Some? && d.variants.Some? && d.variants.value != []
    && forall v | v in d.variants.value :: v.name.Some? && v.imageUrl.Some?
  }

  function InputFrom(d: SourceDraft, price: int, stock: int): ProductInput
    requires DraftComplete(d)
  {
    ProductInput(d.slug.value, d.name.value, Draft, price,
                 seq(|d.variants.value|, i requires 0 <= i < |d.variants.value| =>
                   var v := d.variants.value[i];
                   VariantInput(None, VariantFields(v.name.value, v.imageUrl.value, price, stock))))
  }

  /** The columns of a submitted product; the i-th new variant gets the id `firstNew` + i. */
  function ProductOf(data: ProductInput, variants: seq<Variant>, revision: nat): Product {
    Product(data.slug, data.name, data.status, data.price, variants, revision)
  }

  function NewVariants(inputs: seq<VariantInput>, firstNew: Id): seq<Variant> {
    seq(|inputs|, i requires 0 <= i < |inputs| => Variant(firstNew + i, true, inputs[i].fields))
  }

  function ById(variants: seq<Variant>): map<Id, Variant> {
    if variants == [] then map[]
    else
      var last := variants[|variants| - 1];
      ById(variants[..|variants| - 1])[last.id := last]
  }

  /** The existing variants that the first n submitted ones have not claimed. */
  function Unclaimed(existing: map<Id, Variant>, inputs: seq<VariantInput>, n: nat): map<Id, Variant>
    requires n <= |inputs|
  {
    if n == 0 then existing
    else
      var left := Unclaimed(existing, inputs, n - 1);
      match inputs[n - 1].id case Some(id) => left - {id} case None => left
  }

  /** A known variant named for the first time is kept with its new fields; anything else becomes a new variant. */
  function VariantAt(existing: map<Id, Variant>, inputs: seq<VariantInput>, firstNew: Id, i: nat): Variant
    requires i < |inputs|
  {
    var left := Unclaimed(existing, inputs, i);
    if inputs[i].id.Some? && inputs[i].id.value in left
    then left[inputs[i].id.value].(fields := inputs[i].fields)
    else Variant(firstNew + i, true, inputs[i].fields)
  }

  function Merged(existing: map<Id, Variant>, inputs: seq<VariantInput>, firstNew: Id, n: nat): seq<Variant>
    requires n <= |inputs|
  {
    if n == 0 then []
    else Merged(existing, inputs, firstNew, n - 1) + [VariantAt(existing, inputs, firstNew, n - 1)]
  }

  predicate SlugTaken(products: map<Id, Product>, slug: string, holder: Option<Id>) {
    exists p | p in products :: products[p].slug == slug && Some(p) != holder
  }

  function Without(fields: seq<string>, drop: set<string>): seq<string> {
    if fields == [] then []
    else (if fields[0] in drop then [] else [fields[0]]) + Without(fields[1..], drop)
  }

  // ---- what each action does to the store --------------------------------------------------------

  function Logged(
    s: Store, id: Id, action: string, from_: Option<StagedStatus>, to_: Option<StagedStatus>, actor: string,
    note: Option<string>): Store
  {
    s.(audit := s.audit + [AuditEntry(id, action, from_, to_, actor, note)])
  }

  /** A permitted move: the row changes and the move is recorded. */
  function Moved(s: Store, id: Id, row: Staged, action: string, actor: string, note: Option<string>): Store
    requires id in s.staged
  {
    Logged(s.(staged := s.staged[id := row]), id, action, Some(s.staged[id].status), Some(row.status), actor, note)
  }

  predicate MayMove(s: Store, id: Id, target: StagedStatus) {
    id in s.staged && CanTransition(s.staged[id].status, target)
  }

  function WhyNot(s: Store, id: Id, target: StagedStatus): Error
    requires !MayMove(s, id, target)
  {
    if id !in s.staged then NotFound else InvalidTransition(s.staged[id].status, target)
  }

  predicate Live(products: map<Id, Product>, product: Option<Id>) {
    product.Some? && product.value in products && !products[product.value].status.Withdrawn?
  }

  /** Set the state of a linked product, never resurrecting an archived one. */
  function WithState(products: map<Id, Product>, product: Option<Id>, status: ProductStatus): map<Id, Product> {
    if Live(products, product)
    then
      var old_ := products[product.value];
      products[product.value := old_.(status := status, revision := old_.revision + 1)]
    else products
  }

  function AfterReject(s: Store, id: Id, reason: string, actor: string): (Store, Outcome) {
    var why := Strip(reason);
    if |why| < 3 then (s, Refused(InvalidDraft))
    else if !MayMove(s, id, Rejected) then (s, Refused(WhyNot(s, id, Rejected)))
    else (Moved(s, id, s.staged[id].(status := Rejected, rejectionReason := Some(why)), "reject", actor, Some(why)),
          Done)
  }

  /** `accepted`: whether the database's check constraints take the new product; they are tested before its slug's
      uniqueness. */
  function AfterApprove(
    s: Store, id: Id, price: int, stock: int, actor: string, newId: Id, firstNew: Id, accepted: bool): (Store, Outcome)
  {
    if price < 0 || stock < 0 then (s, Refused(InvalidDraft))
    else if !MayMove(s, id, Approved) then (s, Refused(WhyNot(s, id, Approved)))
    else
      var row := s.staged[id];
      if !DraftComplete(row.draft) then (s, Refused(InvalidDraft))
      else if !accepted then (s, Refused(InvalidDraft))
      else if SlugTaken(s.products, row.draft.slug.value, None) then (s, Refused(SlugExists))
      else
        var data := InputFrom(row.draft, price, stock);
        var created := ProductOf(data, NewVariants(data.variants, firstNew), 1);
        (Moved(s.(products := s.products[newId := created]), id,
               row.(status := Approved, productId := Some(newId), stockKnown := true, approvedPrice := Some(price),
                    approvedStock := Some(stock), missingFields := Without(row.missingFields, {"price", "stock"})),
               "approve", actor, None), Done)
  }

  function AfterPublish(s: Store, id: Id, actor: string): (Store, Outcome) {
    if actor == "" then (s, Refused(ActorRequired))
    else if !MayMove(s, id, Published) then (s, Refused(WhyNot(s, id, Published)))
    else if !Live(s.products, s.staged[id].productId) then (s, Refused(ProductUnavailable))
    else
      (Moved(s.(products := WithState(s.products, s.staged[id].productId, Active)), id,
             s.staged[id].(status := Published), "publish", actor, None), Done)
  }

  function AfterUnpublish(s: Store, id: Id, actor: string): (Store, Outcome) {
    if !MayMove(s, id, Unpublished) then (s, Refused(WhyNot(s, id, Unpublished)))
    else
      (Moved(s.(products := WithState(s.products, s.staged[id].productId, Draft)), id,
             s.staged[id].(status := Unpublished), "unpublish", actor, None), Done)
  }

  function AfterArchive(s: Store, id: Id, actor: string): (Store, Outcome) {
    if !MayMove(s, id, Archived) then (s, Refused(WhyNot(s, id, Archived)))
    else
      (Moved(s.(products := WithState(s.products, s.staged[id].productId, Withdrawn)), id,
             s.staged[id].(status := Archived), "archive", actor, None), Done)
  }

  predicate SameSource(row: Staged, sourceId: string, dedupeKey: string) {
    row.sourceId == sourceId && row.dedupeKey == dedupeKey
  }

  function NewStaged(
    sourceId: string, dedupeKey: string, hash: string, draft: SourceDraft, missing: seq<string>): Staged
  {
    Staged(sourceId, dedupeKey, hash, None, PendingReview, None, draft, missing, false, None, None, None)
  }

  /** Re-scraping an existing row: only a row still waiting for review takes the new content. */
  function AfterRescrape(
    s: Store, id: Id, hash: string, draft: SourceDraft, missing: seq<string>): (Store, StageOutcome)
    requires id in s.staged
  {
    var row := s.staged[id];
    if row.contentHash == hash then (s, Unchanged)
    else if row.status.PendingReview? then
      (Logged(s.(staged := s.staged[id := row.(contentHash := hash, draft := draft, missingFields := missing)]),
              id, "source_updated", None, None, "ingestion", None), Updated)
    else
      (Logged(s.(staged := s.staged[id := row.(latestHash := Some(hash))]),
              id, "source_changed", None, None, "ingestion", Some("Source changed after review; not applied")),
       SourceChanged)
  }

  function AfterFirstScrape(
    s: Store, newId: Id, sourceId: string, dedupeKey: string, hash: string, draft: SourceDraft,
    missing: seq<string>): Store
  {
    Logged(s.(staged := s.staged[newId := NewStaged(sourceId, dedupeKey, hash, draft, missing)]),
           newId, "staged", None, Some(PendingReview), "ingestion", None)
  }

  // ---- direct catalogue administration -----------------------------------------------------------

  /** The guard reads one staged row of the product, whichever the database returns first. */
  predicate Linked(s: Store, id: Id, product: Id) {
    id in s.staged && s.staged[id].productId == Some(product)
  }

  predicate ReviewPending(s: Store, product: Id, seen: Id) {
    Linked(s, seen, product) && !s.staged[seen].status.Published?
  }

  /** A row the guard could have read: some linked one, or anything if there is none. */
  ghost predicate CouldRead(s: Store, product: Id, seen: Id) {
    (exists id :: Linked(s, id, product)) ==> Linked(s, seen, product)
  }

  /** `enforce`: whether the guard is on, as it always is. */
  function AfterSetStatus(s: Store, product: Id, status: ProductStatus, enforce: bool, seen: Id): (Store, Outcome) {
    if enforce && status.Active? && ReviewPending(s, product, seen) then (s, Refused(ReviewRequired))
    else if product !in s.products then (s, Refused(NotFound))
    else
      var old_ := s.products[product];
      (s.(products := s.products[product := old_.(status := status, revision := old_.revision + 1)]), Done)
  }

  function AfterReplace(
    s: Store, product: Id, data: ProductInput, firstNew: Id, seen: Id, accepted: bool): (Store, Outcome)
  {
    if product !in s.products then (s, Refused(NotFound))
    else if data.status.Active? && ReviewPending(s, product, seen) then (s, Refused(ReviewRequired))
    else if data.variants == [] then (s, Refused(InvalidDraft))
    else if !accepted then (s, Refused(InvalidDraft))
    else if SlugTaken(s.products, data.slug, Some(product)) then (s, Refused(SlugExists))
    else
      var old_ := s.products[product];
      var variants := Merged(ById(old_.variants), data.variants, firstNew, |data.variants|);
      (s.(products := s.products[product := ProductOf(data, variants, old_.revision + 1)]), Done)
  }

  function AfterCreate(s: Store, newId: Id, data: ProductInput, firstNew: Id, accepted: bool): (Store, Outcome) {
    if data.variants == [] then (s, Refused(InvalidDraft))
    else if !accepted then (s, Refused(InvalidDraft))
    else if SlugTaken(s.products, data.slug, None) then (s, Refused(SlugExists))
    else (s.(products := s.products[newId := ProductOf(data, NewVariants(data.variants, firstNew), 1)]), Done)
  }

  /** The loop over the submitted variants: known ids are kept, everything else is new, what is not named is dropped. */
  method MergeVariants(variants: seq<Variant>, inputs: seq<VariantInput>, firstNew: Id) returns (kept: seq<Variant>)
    ensures kept == Merged(ById(variants), inputs, firstNew, |inputs|)
  {
    var existing := ById(variants);
    kept := [];
    for i := 0 to |inputs|
      invariant existing == Unclaimed(ById(variants), inputs, i)
      invariant kept == Merged(ById(variants), inputs, firstNew, i)
    {
      var submitted := inputs[i];
      if submitted.id.Some? && submitted.id.value in existing {
        kept := kept + [existing[submitted.id.value].(fields := submitted.fields)];
        existing := existing - {submitted.id.value};
      } else {
        assert submitted.id.Some? ==> existing - {submitted.id.value} == existing;
        kept := kept + [Variant(firstNew + i, true, submitted.fields)];
      }
    }
  }

  // ---- the tables, updated in place --------------------------------------------------------------

  class ReviewDesk {
    var staged: map<Id, Staged>
    var products: map<Id, Product>
    var audit: seq<AuditEntry>

    function Contents(): Store
      reads this
    {
      Store(staged, products, audit)
    }

    constructor ()
      ensures Contents() == Store(map[], map[], [])
    {
      staged, products, audit := map[], map[], [];
    }

    /** Append to the audit trail, which nothing ever rewrites. */
    method Audit(
      id: Id, action: string, from_: Option<StagedStatus>, to_: Option<StagedStatus>, actor: string,
      note: Option<string>)
      modifies this`audit
      ensures Contents() == Logged(old(Contents()), id, action, from_, to_, actor, note)
    {
      audit := audit + [AuditEntry(id, action, from_, to_, actor, note)];
    }

    /** Create a staged row for a source record not seen before, or judge the change of one that was. */
    method StageProduct(
      sourceId: string, dedupeKey: string, hash: string, draft: SourceDraft, missing: seq<string>, newId: Id)
      returns (id: Id, outcome: StageOutcome)
      requires newId !in staged
      modifies this
      ensures outcome.Created? <==>
        forall i | i in old(staged) :: old(staged)[i].sourceId != sourceId || old(staged)[i].dedupeKey != dedupeKey
      ensures outcome.Created? ==>
        && id == newId
        && Contents() == AfterFirstScrape(old(Contents()), newId, sourceId, dedupeKey, hash, draft, missing)
      ensures !outcome.Created? ==>
        && id in old(staged) && old(staged)[id].sourceId == sourceId && old(staged)[id].dedupeKey == dedupeKey
        && (Contents(), outcome) == AfterRescrape(old(Contents()), id, hash, draft, missing)
    {
      var existing := set i | i in staged && SameSource(staged[i], sourceId, dedupeKey);
      if existing == {} {
        assert forall i | i in staged && SameSource(staged[i], sourceId, dedupeKey) :: i in existing;
        staged := staged[newId := NewStaged(sourceId, dedupeKey, hash, draft, missing)];
        Audit(newId, "staged", None, Some(PendingReview), "ingestion", None);
        return newId, Created;
      }
      id :| id in existing;
      if staged[id].contentHash == hash {
        outcome := Unchanged;
      } else if staged[id].status.PendingReview? {
        staged := staged[id := staged[id].(contentHash := hash, draft := draft, missingFields := missing)];
        Audit(id, "source_updated", None, None, "ingestion", None);
        outcome := Updated;
      } else {
        staged := staged[id := staged[id].(latestHash := Some(hash))];
        Audit(id, "source_changed", None, None, "ingestion", Some("Source changed after review; not applied"));
        outcome := SourceChanged;
      }
    }

    /** Compare-and-set of the status, from the current one, together with its audit entry. */
    method Transition(id: Id, target: StagedStatus, action: string, actor: string, reason: Option<string>)
      returns (outcome: Outcome)
      modifies this`staged, this`audit
      ensures outcome.Done? <==> MayMove(old(Contents()), id, target)
      ensures outcome.Done? ==>
        var row := old(staged)[id].(status := target);
        Contents() == Moved(old(Contents()), id, if reason.Some? then row.(rejectionReason := reason) else row,
                            action, actor, reason)
      ensures outcome.Refused? ==> Contents() == old(Contents()) && outcome.error == WhyNot(Contents(), id, target)
    {
      if id !in staged {
        return Refused(NotFound);
      }
      var current := staged[id].status;
      if !CanTransition(current, target) {
        return Refused(InvalidTransition(current, target));
      }
      if reason.Some? {
        staged := staged[id := staged[id].(rejectionReason := reason)];
      }
      staged := staged[id := staged[id].(status := target)];
      Audit(id, action, Some(current), Some(target), actor, reason);
      outcome := Done;
    }

    method SetStateUnlessArchived(product: Id, status: ProductStatus) returns (changed: bool)
      modifies this`products
      ensures changed <==> Live(old(products), Some(product))
      ensures products == WithState(old(products), Some(product), status)
    {
      changed := product in products && !products[product].status.Withdrawn?;
      if changed {
        products := products[product :=
          products[product].(status := status, revision := products[product].revision + 1)];
      }
    }

    method Reject(id: Id, reason: string, actor: string) returns (outcome: Outcome)
      modifies this
      ensures (Contents(), outcome) == AfterReject(old(Contents()), id, reason, actor)
    {
      var why := Strip(reason);
      if |why| < 3 {
        return Refused(InvalidDraft);
      }
      outcome := Transition(id, Rejected, "reject", actor, Some(why));
    }

    /** One savepoint: a refused draft or a taken slug undoes everything. */
    method Approve(id: Id, price: int, stock: int, actor: string, newId: Id, firstNew: Id, accepted: bool)
      returns (outcome: Outcome)
      modifies this
      ensures (Contents(), outcome) == AfterApprove(old(Contents()), id, price, stock, actor, newId, firstNew, accepted)
    {
      if price < 0 || stock < 0 {
        return Refused(InvalidDraft);
      }
      if id !in staged {
        return Refused(NotFound);
      }
      var row := staged[id];
      if !CanTransition(row.status, Approved) {
        return Refused(InvalidTransition(row.status, Approved));
      }
      if !DraftComplete(row.draft) {
        return Refused(InvalidDraft);
      }
      var created := CreateProduct(newId, InputFrom(row.draft, price, stock), firstNew, accepted);
      if created.Refused? {
        return created;
      }
      staged := staged[id := row.(status := Approved, productId := Some(newId), stockKnown := true)];
      staged := staged[id := staged[id].(approvedPrice := Some(price), approvedStock := Some(stock))];
      staged := staged[id := staged[id].(missingFields := Without(row.missingFields, {"price", "stock"}))];
      assert staged == old(staged)[id := staged[id]];
      Audit(id, "approve", Some(row.status), Some(Approved), actor, None);
      outcome := Done;
    }

    /** The status moves first; a missing or archived product then rolls the savepoint back. */
    method Publish(id: Id, actor: string) returns (outcome: Outcome)
      modifies this
      ensures (Contents(), outcome) == AfterPublish(old(Contents()), id, actor)
    {
      if actor == "" {
        return Refused(ActorRequired);
      }
      var savedStaged, savedAudit := staged, audit;
      outcome := Transition(id, Published, "publish", actor, None);
      if outcome.Refused? {
        return;
      }
      var changed := false;
      if staged[id].productId.Some? {
        changed := SetStateUnlessArchived(staged[id].productId.value, Active);
      }
      if !changed {
        staged, audit := savedStaged, savedAudit;
        outcome := Refused(ProductUnavailable);
      }
    }

    method Unpublish(id: Id, actor: string) returns (outcome: Outcome)
      modifies this
      ensures (Contents(), outcome) == AfterUnpublish(old(Contents()), id, actor)
    {
      outcome := Transition(id, Unpublished, "unpublish", actor, None);
      if outcome.Done? && staged[id].productId.Some? {
        var changed := SetStateUnlessArchived(staged[id].productId.value, Draft);
      }
    }

    method Archive(id: Id, actor: string) returns (outcome: Outcome)
      modifies this
      ensures (Contents(), outcome) == AfterArchive(old(Contents()), id, actor)
    {
      outcome := Transition(id, Archived, "archive", actor, None);
      if outcome.Done? && staged[id].productId.Some? {
        var changed := SetStateUnlessArchived(staged[id].productId.value, Withdrawn);
      }
    }

    method CreateProduct(newId: Id, data: ProductInput, firstNew: Id, accepted: bool) returns (outcome: Outcome)
      modifies this`products
      ensures (Contents(), outcome) == AfterCreate(old(Contents()), newId, data, firstNew, accepted)
    {
      if data.variants == [] {
        return Refused(InvalidDraft);
      }
      if !accepted {
        return Refused(InvalidDraft);
      }
      if SlugTaken(products, data.slug, None) {
        return Refused(SlugExists);
      }
      products := products[newId := ProductOf(data, NewVariants(data.variants, firstNew), 1)];
      outcome := Done;
    }

    /** Direct change of a product's state; activation is refused while the review row read is unpublished. */
    method SetStatus(product: Id, status: ProductStatus, enforce: bool) returns (outcome: Outcome, ghost seen: Id)
      modifies this`products
      ensures CouldRead(old(Contents()), product, seen)
      ensures (Contents(), outcome) == AfterSetStatus(old(Contents()), product, status, enforce, seen)
    {
      var pending;
      pending, seen := HasUnpublishedReview(product);
      if enforce && status.Active? && pending {
        return Refused(ReviewRequired), seen;
      }
      if product !in products {
        return Refused(NotFound), seen;
      }
      products := products[product := products[product].(status := status, revision := products[product].revision + 1)];
      outcome := Done;
    }

    method ReplaceProduct(product: Id, data: ProductInput, firstNew: Id, accepted: bool)
      returns (outcome: Outcome, ghost seen: Id)
      modifies this`products
      ensures CouldRead(old(Contents()), product, seen)
      ensures (Contents(), outcome) == AfterReplace(old(Contents()), product, data, firstNew, seen, accepted)
    {
      var pending;
      pending, seen := HasUnpublishedReview(product);
      if product !in products {
        return Refused(NotFound), seen;
      }
      if data.status.Active? && pending {
        return Refused(ReviewRequired), seen;
      }
      if data.variants == [] {
        return Refused(InvalidDraft), seen;
      }
      if !accepted {
        return Refused(InvalidDraft), seen;
      }
      if SlugTaken(products, data.slug, Some(product)) {
        return Refused(SlugExists), seen;
      }
      var variants := MergeVariants(products[product].variants, data.variants, firstNew);
      products := products[product := ProductOf(data, variants, products[product].revision + 1)];
      outcome := Done;
    }

    /** Reads a single linked row, whichever comes first. */
    method HasUnpublishedReview(product: Id) returns (pending: bool, ghost seen: Id)
      ensures CouldRead(Contents(), product, seen)
      ensures pending <==> ReviewPending(Contents(), product, seen)
      ensures pending ==> exists id :: Linked(Contents(), id, product) && !staged[id].status.Published?
      ensures !pending ==> forall id | Linked(Contents(), id, product) :: exists other ::
                Linked(Contents(), other, product) && staged[other].status.Published?
    {
      var linked := set id | id in staged && staged[id].productId == Some(product);
      if linked == {} {
        assert forall id | id in staged && staged[id].productId == Some(product) :: id in linked;
        pending, seen := false, 0;
      } else {
        var first :| first in linked;
        pending, seen := !staged[first].status.Published?, first;
      }
    }
  }
}
