/** What each action of the review desk leaves behind, row by row and column by column, and when it is refused. */
module ReviewOutcomes {
  import opened Prelude
  import opened ReviewWorkflow
  import VariantTheorems

  // ---- moving through the review -----------------------------------------------------------------

  /** The nine moves there are. */
  predicate Permitted(current: StagedStatus, target: StagedStatus) {
    (current, target) in {
      (PendingReview, Approved), (PendingReview, Rejected),
      (Approved, Published), (Published, Unpublished), (Unpublished, Published),
      (Approved, Archived), (Published, Archived), (Unpublished, Archived), (Rejected, Archived)
    }
  }

  /** Why a row cannot move to the target, if it cannot. */
  function Hindrance(s: Store, id: Id, target: StagedStatus): Option<Error> {
    if id !in s.staged then Some(NotFound)
    else if !Permitted(s.staged[id].status, target) then Some(InvalidTransition(s.staged[id].status, target))
    else None
  }

  /** The row becomes the given one, and the move is recorded with its actor. */
  predicate RowMoved(s: Store, t: Store, id: Id, row: Staged, action: string, actor: string, note: Option<string>)
    requires id in s.staged
  {
    && t.staged == s.staged[id := row]
    && t.audit == s.audit + [AuditEntry(id, action, Some(s.staged[id].status), Some(row.status), actor, note)]
  }

  /** A product that is there and not withdrawn takes the state, as its next revision; nothing else changes. */
  predicate ProductPut(before: map<Id, Product>, after: map<Id, Product>, product: Option<Id>, status: ProductStatus) {
    if product.Some? && product.value in before && before[product.value].status != Withdrawn
    then
      var was := before[product.value];
      after == before[product.value := was.(status := status, revision := was.revision + 1)]
    else after == before
  }

  /** What is refused changes nothing. */
  predicate RefusedWith(s: Store, result: (Store, Outcome), error: Error) {
    result == (s, Refused(error))
  }

  /** A publication needs a name behind it, a permitted move and a product that is not withdrawn; it then makes exactly
      that product active. */
  lemma PublishOutcome(s: Store, id: Id, actor: string)
    ensures var result := AfterPublish(s, id, actor);
            if actor == "" then RefusedWith(s, result, ActorRequired)
            else if Hindrance(s, id, Published).Some? then RefusedWith(s, result, Hindrance(s, id, Published).value)
            else
              var row := s.staged[id];
              if row.productId.None? || row.productId.value !in s.products
                 || s.products[row.productId.value].status == Withdrawn
              then RefusedWith(s, result, ProductUnavailable)
              else
                && result.1 == Done
                && RowMoved(s, result.0, id, row.(status := Published), "publish", actor, None)
                && ProductPut(s.products, result.0.products, row.productId, Active)
                && result.0.products[row.productId.value].status == Active
  {
  }

  /** Taking back makes the product a draft again, and archiving withdraws it; a withdrawn product stays withdrawn. */
  lemma TakeBackOutcome(s: Store, id: Id, actor: string)
    ensures var result := AfterUnpublish(s, id, actor);
            if Hindrance(s, id, Unpublished).Some?
            then RefusedWith(s, result, Hindrance(s, id, Unpublished).value)
            else
              && result.1 == Done
              && RowMoved(s, result.0, id, s.staged[id].(status := Unpublished), "unpublish", actor, None)
              && ProductPut(s.products, result.0.products, s.staged[id].productId, Draft)
    ensures var result := AfterArchive(s, id, actor);
            if Hindrance(s, id, Archived).Some?
            then RefusedWith(s, result, Hindrance(s, id, Archived).value)
            else
              && result.1 == Done
              && RowMoved(s, result.0, id, s.staged[id].(status := Archived), "archive", actor, None)
              && ProductPut(s.products, result.0.products, s.staged[id].productId, Withdrawn)
  {
  }

  /** White space is these twenty-nine characters, given by their code points. */
  lemma SpaceCharacters(c: char)
    ensures IsSpace(c) <==> c as int in {
      9, 10, 11, 12, 13, 28, 29, 30, 31, 32, 133, 160, 5760,
      8192, 8193, 8194, 8195, 8196, 8197, 8198, 8199, 8200, 8201, 8202, 8232, 8233, 8239, 8287, 12288
    }
  {
  }

  /** Stripping takes white space off both ends and nothing else. */
  lemma {:induction false} StripTakesOnlySpace(s: string) returns (front: string, back: string)
    ensures s == front + Strip(s) + back
    ensures forall c | c in front + back :: IsSpace(c)
    decreases |s|
  {
    if s == [] {
      front, back := [], [];
    } else if IsSpace(s[0]) {
      front, back := StripTakesOnlySpace(s[1..]);
      front := [s[0]] + front;
    } else if IsSpace(s[|s| - 1]) {
      front, back := StripTakesOnlySpace(s[..|s| - 1]);
      back := back + [s[|s| - 1]];
    } else {
      front, back := [], [];
    }
  }

  /** A rejection needs a reason of three characters, and keeps it with the row and in the trail. */
  lemma RejectOutcome(s: Store, id: Id, reason: string, actor: string)
    ensures var result := AfterReject(s, id, reason, actor);
            if |Strip(reason)| < 3 then RefusedWith(s, result, InvalidDraft)
            else if Hindrance(s, id, Rejected).Some? then RefusedWith(s, result, Hindrance(s, id, Rejected).value)
            else
              && result.1 == Done
              && RowMoved(s, result.0, id,
                          s.staged[id].(status := Rejected, rejectionReason := Some(Strip(reason))),
                          "reject", actor, Some(Strip(reason)))
              && result.0.products == s.products
  {
  }

  // ---- approval ----------------------------------------------------------------------------------

  /** The variant of the draft, as approved: new, on sale, at the given price and stock. */
  predicate VariantApproved(v: Variant, draft: DraftVariant, id: Id, price: int, stock: int) {
    && v.id == id && v.active
    && draft.name == Some(v.fields.name) && draft.imageUrl == Some(v.fields.imageUrl)
    && v.fields.price == price && v.fields.stock == stock
  }

  /** The product an approval makes of the draft: not public yet, every variant at the given price and stock. */
  predicate ProductApproved(product: Product, draft: SourceDraft, price: int, stock: int, firstNew: Id) {
    && product.status == Draft && product.price == price && product.revision == 1
    && draft.name == Some(product.name) && draft.slug == Some(product.slug)
    && draft.variants.Some? && |product.variants| == |draft.variants.value| > 0
    && forall k | 0 <= k < |product.variants| ::
      VariantApproved(product.variants[k], draft.variants.value[k], firstNew + k, price, stock)
  }

  /** The row as approved: linked, priced, and no longer missing what was just given. */
  ghost predicate RowApproved(before: Staged, after: Staged, product: Id, price: int, stock: int) {
    && after == before.(status := Approved, productId := Some(product), stockKnown := true,
                        approvedPrice := Some(price), approvedStock := Some(stock),
                        missingFields := after.missingFields)
    && "price" !in after.missingFields && "stock" !in after.missingFields
    && (forall field | field != "price" && field != "stock" ::
          field in after.missingFields <==> field in before.missingFields)
  }

  lemma {:induction false} WithoutKeepsTheRest(fields: seq<string>, drop: set<string>, field: string)
    ensures field in Without(fields, drop) <==> field in fields && field !in drop
  {
    if fields != [] {
      WithoutKeepsTheRest(fields[1..], drop, field);
      assert fields == [fields[0]] + fields[1..];
    }
  }

  /** A draft lacks something that a product cannot do without. */
  predicate Lacks(draft: SourceDraft) {
    || draft.name.None? || draft.slug.None? || draft.cover.None? || draft.variants.None? || draft.variants.value == []
    || exists v :: v in draft.variants.value && (v.name.None? || v.imageUrl.None?)
  }

  predicate SlugInUse(s: Store, slug: string) {
    exists p | p in s.products :: s.products[p].slug == slug
  }

  /** An approval is refused with the first thing wrong, in this order; otherwise it adds one product, made of the
      draft, and links the row to it. */
  lemma ApproveOutcome(
    s: Store, id: Id, price: int, stock: int, actor: string, newId: Id, firstNew: Id, accepted: bool)
    ensures var result := AfterApprove(s, id, price, stock, actor, newId, firstNew, accepted);
            if price < 0 || stock < 0 then RefusedWith(s, result, InvalidDraft)
            else if Hindrance(s, id, Approved).Some? then RefusedWith(s, result, Hindrance(s, id, Approved).value)
            else
              var draft := s.staged[id].draft;
              if Lacks(draft) || !accepted then RefusedWith(s, result, InvalidDraft)
              else if SlugInUse(s, draft.slug.value) then RefusedWith(s, result, SlugExists)
              else
                && result.1 == Done && id in result.0.staged && newId in result.0.products
                && RowMoved(s, result.0, id, result.0.staged[id], "approve", actor, None)
                && RowApproved(s.staged[id], result.0.staged[id], newId, price, stock)
                && result.0.products == s.products[newId := result.0.products[newId]]
                && ProductApproved(result.0.products[newId], draft, price, stock, firstNew)
  {
    if id in s.staged {
      var draft := s.staged[id].draft;
      assert DraftComplete(draft) <==> !Lacks(draft);
      assert draft.slug.Some? ==> (SlugTaken(s.products, draft.slug.value, None) <==> SlugInUse(s, draft.slug.value));
      forall field
        ensures field in Without(s.staged[id].missingFields, {"price", "stock"})
           <==> field in s.staged[id].missingFields && field != "price" && field != "stock"
      {
        WithoutKeepsTheRest(s.staged[id].missingFields, {"price", "stock"}, field);
      }
    }
  }

  // ---- ingestion ---------------------------------------------------------------------------------

  /** A source record seen for the first time waits for review, with nothing decided about it. */
  lemma FirstScrapeOutcome(
    s: Store, id: Id, sourceId: string, dedupeKey: string, hash: string, draft: SourceDraft, missing: seq<string>)
    ensures var t := AfterFirstScrape(s, id, sourceId, dedupeKey, hash, draft, missing);
            && t.staged.Keys == s.staged.Keys + {id} && t.products == s.products
            && (forall i | i in s.staged && i != id :: t.staged[i] == s.staged[i])
            && var row := t.staged[id];
            && row.status == PendingReview && row.productId == None && row.rejectionReason == None
            && row.sourceId == sourceId && row.dedupeKey == dedupeKey && row.contentHash == hash
            && row.latestHash == None && row.draft == draft && row.missingFields == missing && !row.stockKnown
            && row.approvedPrice == None && row.approvedStock == None
            && t.audit == s.audit + [AuditEntry(id, "staged", None, Some(PendingReview), "ingestion", None)]
  {
  }

  /** Only a row that still waits for review takes changed content; a reviewed one just notes that its source moved
      on. */
  lemma RescrapeOutcome(s: Store, id: Id, hash: string, draft: SourceDraft, missing: seq<string>)
    requires id in s.staged
    ensures var (t, outcome) := AfterRescrape(s, id, hash, draft, missing);
            var row := s.staged[id];
            && t.products == s.products
            && (row.contentHash == hash ==> outcome == Unchanged && t == s)
            && (row.contentHash != hash && row.status == PendingReview ==>
                  && outcome == Updated
                  && t.staged == s.staged[id := row.(contentHash := hash, draft := draft, missingFields := missing)]
                  && t.audit == s.audit + [AuditEntry(id, "source_updated", None, None, "ingestion", None)])
            && (row.contentHash != hash && row.status != PendingReview ==>
                  && outcome == SourceChanged
                  && t.staged == s.staged[id := row.(latestHash := Some(hash))]
                  && t.audit == s.audit + [AuditEntry(id, "source_changed", None, None, "ingestion",
                                                      Some("Source changed after review; not applied"))])
  {
  }

  // ---- direct administration ---------------------------------------------------------------------

  /** The review row that was read belongs to the product and is not published. */
  predicate Pending(s: Store, product: Id, seen: Id) {
    seen in s.staged && s.staged[seen].productId == Some(product) && s.staged[seen].status != Published
  }

  /** An administrator may set any state, but cannot activate a product while the review row read is unpublished. */
  lemma SetStatusOutcome(s: Store, product: Id, status: ProductStatus, seen: Id)
    ensures var result := AfterSetStatus(s, product, status, true, seen);
            if status == Active && Pending(s, product, seen) then RefusedWith(s, result, ReviewRequired)
            else if product !in s.products then RefusedWith(s, result, NotFound)
            else
              var was := s.products[product];
              && result.1 == Done && result.0.staged == s.staged && result.0.audit == s.audit
              && result.0.products == s.products[product := was.(status := status, revision := was.revision + 1)]
  {
  }

  /** A created product holds what was submitted, every variant of it new. */
  lemma CreateOutcome(s: Store, newId: Id, data: ProductInput, firstNew: Id, accepted: bool)
    ensures var result := AfterCreate(s, newId, data, firstNew, accepted);
            if data.variants == [] || !accepted then RefusedWith(s, result, InvalidDraft)
            else if SlugInUse(s, data.slug) then RefusedWith(s, result, SlugExists)
            else
              && result.1 == Done && result.0.staged == s.staged && result.0.audit == s.audit
              && newId in result.0.products
              && result.0.products == s.products[newId := result.0.products[newId]]
              && var made := result.0.products[newId];
              && made.slug == data.slug && made.name == data.name && made.status == data.status
              && made.price == data.price && made.revision == 1 && |made.variants| == |data.variants|
              && forall k | 0 <= k < |data.variants| ::
                made.variants[k] == Variant(firstNew + k, true, data.variants[k].fields)
  {
    assert SlugTaken(s.products, data.slug, None) <==> SlugInUse(s, data.slug);
  }

  /** The submitted variant names a variant of the product that no earlier one has named. */
  predicate NamesAFreeOne(variants: seq<Variant>, inputs: seq<VariantInput>, k: nat)
    requires k < |inputs|
  {
    && inputs[k].id.Some?
    && (exists v :: v in variants && v.id == inputs[k].id.value)
    && forall j | 0 <= j < k :: inputs[j].id != inputs[k].id
  }

  /** It then keeps that variant with its activity; any other becomes a new, active one. */
  predicate KeptOrNew(variants: seq<Variant>, inputs: seq<VariantInput>, firstNew: Id, k: nat, after: Variant)
    requires k < |inputs|
  {
    if NamesAFreeOne(variants, inputs, k)
    then exists v :: v in variants && inputs[k].id == Some(v.id) && after == Variant(v.id, v.active, inputs[k].fields)
    else after == Variant(firstNew + k, true, inputs[k].fields)
  }

  lemma MergedAreKeptOrNew(variants: seq<Variant>, inputs: seq<VariantInput>, firstNew: Id, k: nat)
    requires k < |inputs|
    ensures var merged := Merged(ById(variants), inputs, firstNew, |inputs|);
            |merged| == |inputs| && KeptOrNew(variants, inputs, firstNew, k, merged[k])
  {
    VariantTheorems.MergedAt(ById(variants), inputs, firstNew, |inputs|, k);
    if inputs[k].id.Some? {
      var id := inputs[k].id.value;
      VariantTheorems.UnclaimedIs(ById(variants), inputs, k, id);
      VariantTheorems.ByIdIs(variants, id);
    }
  }

  /** A replacement is refused with the first thing wrong, in this order; otherwise the product holds what was
      submitted. */
  lemma ReplaceOutcome(s: Store, product: Id, data: ProductInput, firstNew: Id, seen: Id, accepted: bool)
    ensures var result := AfterReplace(s, product, data, firstNew, seen, accepted);
            if product !in s.products then RefusedWith(s, result, NotFound)
            else if data.status == Active && Pending(s, product, seen) then RefusedWith(s, result, ReviewRequired)
            else if data.variants == [] || !accepted then RefusedWith(s, result, InvalidDraft)
            else if exists p | p in s.products && p != product :: s.products[p].slug == data.slug
            then RefusedWith(s, result, SlugExists)
            else
              && result.1 == Done && result.0.staged == s.staged && result.0.audit == s.audit
              && product in result.0.products
              && result.0.products == s.products[product := result.0.products[product]]
              && var was, made := s.products[product], result.0.products[product];
              && made.slug == data.slug && made.name == data.name && made.status == data.status
              && made.price == data.price && made.revision == was.revision + 1 && |made.variants| == |data.variants|
              && forall k | 0 <= k < |data.variants| ::
                KeptOrNew(was.variants, data.variants, firstNew, k, made.variants[k])
  {
    assert SlugTaken(s.products, data.slug, Some(product)) <==>
           exists p | p in s.products && p != product :: s.products[p].slug == data.slug;
    if product in s.products {
      VariantTheorems.MergedLength(ById(s.products[product].variants), data.variants, firstNew, |data.variants|);
      forall k | 0 <= k < |data.variants|
        ensures var merged := Merged(ById(s.products[product].variants), data.variants, firstNew, |data.variants|);
                && |merged| == |data.variants|
                && KeptOrNew(s.products[product].variants, data.variants, firstNew, k, merged[k])
      {
        MergedAreKeptOrNew(s.products[product].variants, data.variants, firstNew, k);
      }
    }
  }
}
