/** What becomes of a product's variants over every run of the review desk. */
module VariantTheorems {
  import opened Prelude
  import opened ReviewWorkflow
  import opened ReviewTheorems

  predicate DistinctVariants(variants: seq<Variant>) {
    forall i, j | 0 <= i < j < |variants| :: variants[i].id != variants[j].id
  }

  // ---- merging submitted variants into existing ones ---------------------------------------------

  predicate AllBelow(existing: map<Id, Variant>, firstNew: Id) {
    forall id | id in existing :: id < firstNew && existing[id].id == id
  }

  /** The existing variant is named among the first n submitted ones. */
  predicate Named(inputs: seq<VariantInput>, id: Id, n: nat)
    requires n <= |inputs|
  {
    exists i | 0 <= i < n :: inputs[i].id == Some(id)
  }

  lemma {:induction false} UnclaimedIs(existing: map<Id, Variant>, inputs: seq<VariantInput>, n: nat, id: Id)
    requires n <= |inputs|
    ensures id in Unclaimed(existing, inputs, n) <==> id in existing && !Named(inputs, id, n)
    ensures id in Unclaimed(existing, inputs, n) ==> Unclaimed(existing, inputs, n)[id] == existing[id]
  {
    if n > 0 {
      UnclaimedIs(existing, inputs, n - 1, id);
      assert Named(inputs, id, n) <==> Named(inputs, id, n - 1) || inputs[n - 1].id == Some(id);
    }
  }

  lemma {:induction false} MergedLength(existing: map<Id, Variant>, inputs: seq<VariantInput>, firstNew: Id, n: nat)
    requires n <= |inputs|
    ensures |Merged(existing, inputs, firstNew, n)| == n
  {
    if n > 0 {
      MergedLength(existing, inputs, firstNew, n - 1);
    }
  }

  lemma {:induction false} MergedAt(existing: map<Id, Variant>, inputs: seq<VariantInput>, firstNew: Id, n: nat, i: nat)
    requires i < n <= |inputs|
    ensures |Merged(existing, inputs, firstNew, n)| == n
    ensures Merged(existing, inputs, firstNew, n)[i] == VariantAt(existing, inputs, firstNew, i)
    decreases n
  {
    if i < n - 1 {
      MergedAt(existing, inputs, firstNew, n - 1, i);
    } else if n > 1 {
      MergedAt(existing, inputs, firstNew, n - 1, 0);
    }
  }

  /** What a submitted variant becomes: the existing one it is the first to name, or a new one. */
  lemma VariantBecomes(existing: map<Id, Variant>, inputs: seq<VariantInput>, firstNew: Id, i: nat)
    requires i < |inputs| && AllBelow(existing, firstNew)
    ensures var v := VariantAt(existing, inputs, firstNew, i);
            && v.fields == inputs[i].fields
            && (v.id in existing ==> inputs[i].id == Some(v.id))
            && (v.id in existing ==> v.active == existing[v.id].active && !Named(inputs, v.id, i))
            && (v.id !in existing ==> v.id == firstNew + i)
            && (inputs[i].id.Some? && inputs[i].id.value in existing && !Named(inputs, inputs[i].id.value, i) ==>
                  v.id == inputs[i].id.value)
  {
    if inputs[i].id.Some? {
      UnclaimedIs(existing, inputs, i, inputs[i].id.value);
    }
  }

  lemma MergedIsProper(existing: map<Id, Variant>, inputs: seq<VariantInput>, firstNew: Id)
    requires AllBelow(existing, firstNew)
    ensures var merged := Merged(existing, inputs, firstNew, |inputs|);
            && |merged| == |inputs|
            && (forall i | 0 <= i < |inputs| :: merged[i].fields == inputs[i].fields)
            && DistinctVariants(merged)
            && (forall i | 0 <= i < |inputs| :: merged[i].id in existing || merged[i].id >= firstNew)
  {
    var merged := Merged(existing, inputs, firstNew, |inputs|);
    forall i | 0 <= i < |inputs|
      ensures |merged| == |inputs| && merged[i] == VariantAt(existing, inputs, firstNew, i)
    {
      MergedAt(existing, inputs, firstNew, |inputs|, i);
    }
    forall i, j | 0 <= i < j < |inputs|
      ensures merged[i].id != merged[j].id
    {
      VariantBecomes(existing, inputs, firstNew, i);
      VariantBecomes(existing, inputs, firstNew, j);
    }
    forall i | 0 <= i < |inputs|
      ensures merged[i].fields == inputs[i].fields && (merged[i].id in existing || merged[i].id >= firstNew)
    {
      VariantBecomes(existing, inputs, firstNew, i);
    }
  }

  lemma FirstNamed(inputs: seq<VariantInput>, id: Id, n: nat) returns (i: nat)
    requires n <= |inputs| && Named(inputs, id, n)
    ensures i < n && inputs[i].id == Some(id) && !Named(inputs, id, i)
  {
    i := 0;
    while inputs[i].id != Some(id)
      invariant i < n && !Named(inputs, id, i) && Named(inputs, id, n)
      decreases n - i
    {
      assert forall k | 0 <= k < i + 1 :: inputs[k].id != Some(id);
      i := i + 1;
    }
  }

  lemma NamedAreMerged(existing: map<Id, Variant>, inputs: seq<VariantInput>, firstNew: Id, id: Id)
    requires AllBelow(existing, firstNew) && id in existing
    ensures var merged := Merged(existing, inputs, firstNew, |inputs|);
            && ((exists v :: v in merged && v.id == id) <==> Named(inputs, id, |inputs|))
            && (forall v | v in merged && v.id == id :: v.active == existing[id].active)
  {
    var merged := Merged(existing, inputs, firstNew, |inputs|);
    forall v | v in merged && v.id == id
      ensures Named(inputs, id, |inputs|) && v.active == existing[id].active
    {
      var i :| 0 <= i < |merged| && merged[i] == v;
      MergedLength(existing, inputs, firstNew, |inputs|);
      MergedAt(existing, inputs, firstNew, |inputs|, i);
      VariantBecomes(existing, inputs, firstNew, i);
    }
    if Named(inputs, id, |inputs|) {
      var i := FirstNamed(inputs, id, |inputs|);
      MergedAt(existing, inputs, firstNew, |inputs|, i);
      VariantBecomes(existing, inputs, firstNew, i);
      assert merged[i] in merged;
    }
  }

  lemma {:induction false} ByIdIs(variants: seq<Variant>, id: Id)
    ensures id in ById(variants) <==> exists v :: v in variants && v.id == id
    ensures id in ById(variants) ==> ById(variants)[id] in variants && ById(variants)[id].id == id
  {
    if variants != [] {
      var init, last := variants[..|variants| - 1], variants[|variants| - 1];
      assert variants == init + [last];
      ByIdIs(init, id);
      if last.id == id {
        assert last in variants;
      }
    }
  }

  lemma ByIdFinds(variants: seq<Variant>, v: Variant)
    requires DistinctVariants(variants) && v in variants
    ensures v.id in ById(variants) && ById(variants)[v.id] == v
  {
    ByIdIs(variants, v.id);
  }

  lemma ByIdIsBelow(variants: seq<Variant>, firstNew: Id)
    requires forall v | v in variants :: v.id < firstNew
    ensures AllBelow(ById(variants), firstNew)
  {
    forall id | id in ById(variants)
      ensures id < firstNew && ById(variants)[id].id == id
    {
      ByIdIs(variants, id);
    }
  }

  // ---- every run ---------------------------------------------------------------------------------

  function VariantIds(variants: seq<Variant>): set<Id> {
    set v | v in variants :: v.id
  }

  /** A variant id belongs to one variant of one product. */
  ghost predicate VariantsOk(products: map<Id, Product>) {
    && (forall p | p in products :: DistinctVariants(products[p].variants))
    && (forall p, q | p in products && q in products && p != q ::
          VariantIds(products[p].variants) !! VariantIds(products[q].variants))
  }

  /** A product's variants change to old ones of its own and new ones. */
  lemma ChangeKeepsVariants(s: Store, p: Id, product: Product, firstNew: Id)
    requires VariantsOk(s.products) && NewIds(s, firstNew) && DistinctVariants(product.variants)
    requires forall v | v in product.variants ::
      v.id >= firstNew || (p in s.products && v.id in VariantIds(s.products[p].variants))
    ensures VariantsOk(s.products[p := product])
  {
    forall q | q in s.products && q != p
      ensures VariantIds(product.variants) !! VariantIds(s.products[q].variants)
    {
      assert forall v | v in s.products[q].variants :: v.id < firstNew;
    }
  }

  lemma NewVariantsAreNew(inputs: seq<VariantInput>, firstNew: Id)
    ensures DistinctVariants(NewVariants(inputs, firstNew))
    ensures forall v | v in NewVariants(inputs, firstNew) :: v.id >= firstNew
  {
  }

  lemma MergedKeepsVariants(s: Store, p: Id, inputs: seq<VariantInput>, firstNew: Id)
    requires p in s.products && NewIds(s, firstNew)
    ensures var merged := Merged(ById(s.products[p].variants), inputs, firstNew, |inputs|);
            && DistinctVariants(merged)
            && forall v | v in merged :: v.id >= firstNew || v.id in VariantIds(s.products[p].variants)
  {
    var existing := ById(s.products[p].variants);
    ByIdIsBelow(s.products[p].variants, firstNew);
    MergedIsProper(existing, inputs, firstNew);
    var merged := Merged(existing, inputs, firstNew, |inputs|);
    forall v | v in merged
      ensures v.id >= firstNew || v.id in VariantIds(s.products[p].variants)
    {
      ByIdIs(s.products[p].variants, v.id);
    }
  }

  predicate SameVariants(before: map<Id, Product>, after: map<Id, Product>) {
    after.Keys == before.Keys && forall p | p in before :: after[p].variants == before[p].variants
  }

  lemma SameVariantsStayOk(before: map<Id, Product>, after: map<Id, Product>)
    requires VariantsOk(before) && SameVariants(before, after)
    ensures VariantsOk(after)
  {
  }

  /** Staging, rejecting, changing states and archiving touch no variant. */
  lemma QuietActions(s: Store, a: Action)
    requires !a.Approve? && !a.Create? && !a.Replace?
    ensures SameVariants(s.products, Apply(s, a).products)
  {
  }

  lemma StepKeepsVariants(s: Store, a: Action)
    requires VariantsOk(s.products) && Possible(s, a)
    ensures VariantsOk(Apply(s, a).products)
  {
    var t := Apply(s, a);
    if a.Approve? && t.products != s.products {
      NewVariantsAreNew(InputFrom(s.staged[a.id].draft, a.price, a.stock).variants, a.firstNew);
      ChangeKeepsVariants(s, a.newId, t.products[a.newId], a.firstNew);
    } else if a.Create? && t.products != s.products {
      NewVariantsAreNew(a.data.variants, a.firstNew);
      ChangeKeepsVariants(s, a.newId, t.products[a.newId], a.firstNew);
    } else if a.Replace? && t.products != s.products {
      MergedKeepsVariants(s, a.product, a.data.variants, a.firstNew);
      ChangeKeepsVariants(s, a.product, t.products[a.product], a.firstNew);
    } else if !a.Approve? && !a.Create? && !a.Replace? {
      QuietActions(s, a);
      SameVariantsStayOk(s.products, t.products);
    }
  }

  lemma {:induction false} RunKeepsVariants(s: Store, actions: seq<Action>, t: Store)
    requires VariantsOk(s.products) && Runs(s, actions, t)
    ensures VariantsOk(t.products)
    decreases |actions|
  {
    if actions != [] {
      StepKeepsVariants(s, actions[0]);
      RunKeepsVariants(Apply(s, actions[0]), actions[1..], t);
    }
  }

  /** After any run, no two variants share an id, within a product or across products. */
  lemma VariantIdsAreUnique(actions: seq<Action>, t: Store)
    requires Runs(Empty, actions, t)
    ensures VariantsOk(t.products)
  {
    RunKeepsVariants(Empty, actions, t);
  }

  /** The replacement goes through. */
  predicate Replaces(s: Store, a: Action) {
    a.Replace? && AfterReplace(s, a.product, a.data, a.firstNew, a.seen, a.accepted).1.Done?
  }

  /** A replacement follows the submitted order and fields and never uses an id twice. */
  lemma ReplacementIsProper(s: Store, a: Action)
    requires Possible(s, a) && Replaces(s, a)
    ensures var variants := Apply(s, a).products[a.product].variants;
            && |variants| == |a.data.variants|
            && (forall i | 0 <= i < |variants| :: variants[i].fields == a.data.variants[i].fields)
            && DistinctVariants(variants)
  {
    ByIdIsBelow(s.products[a.product].variants, a.firstNew);
    MergedIsProper(ById(s.products[a.product].variants), a.data.variants, a.firstNew);
  }

  /** Exactly the variants of the product that are named survive, as active as before. */
  lemma NamedVariantsSurvive(s: Store, a: Action, v: Variant)
    requires VariantsOk(s.products) && Possible(s, a) && Replaces(s, a) && v in s.products[a.product].variants
    ensures var variants := Apply(s, a).products[a.product].variants;
            && ((exists m :: m in variants && m.id == v.id) <==> Named(a.data.variants, v.id, |a.data.variants|))
            && (forall m | m in variants && m.id == v.id :: m.active == v.active)
  {
    var old_ := s.products[a.product].variants;
    ByIdIsBelow(old_, a.firstNew);
    ByIdFinds(old_, v);
    NamedAreMerged(ById(old_), a.data.variants, a.firstNew, v.id);
  }
}
