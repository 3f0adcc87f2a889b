/** What a hit is: the constraints of a query, one by one, on the products and variants that searches return. */
module CatalogMatching {
  import opened Prelude
  import opened Ordering
  import opened CatalogQuery
  import opened CatalogText
  import opened CatalogSearch
  import opened HybridFusion
  import opened HybridTheorems

  // ---- the constraints ---------------------------------------------------------------------------

  /** One variant meets everything asked of variants. An unknown colour is never taken for a wanted one, nor for one
      that is not excluded; prices compare in rupees only. */
  predicate VariantFits(q: ParsedQuery, v: Variant) {
    && v.active
    && (q.colors != {} ==> exists c :: c in q.colors && c in v.colors)
    && (q.excludeColors != {} ==> v.colors != {} && forall c | c in v.colors :: c !in q.excludeColors)
    && (q.minPrice.Some? ==> v.currency == "PKR" && q.minPrice.value <= v.price)
    && (q.maxPrice.Some? ==> v.currency == "PKR" && v.price <= q.maxPrice.value)
    && (q.inStock ==> v.stock >= 1)
  }

  /** The product meets everything asked of products. */
  predicate ProductFits(q: ParsedQuery, p: Product) {
    && q.unsupported == [] && p.active
    && (q.categories == {} || p.category in q.categories)
    && (q.materials == {} || exists m :: m in q.materials && m in p.materials)
    && forall i | 0 <= i < |q.text| :: q.text[i] in ProductWords(p)
  }

  function FittingIds(q: ParsedQuery, variants: seq<Variant>): seq<nat> {
    if variants == [] then []
    else if VariantFits(q, variants[0]) then [variants[0].id] + FittingIds(q, variants[1..])
    else FittingIds(q, variants[1..])
  }

  lemma Overlaps(a: set<string>, b: set<string>)
    ensures a * b != {} <==> exists c :: c in b && c in a
  {
    if a * b != {} {
      var c :| c in a * b;
      assert c in b && c in a;
    } else {
      forall c
        ensures !(c in b && c in a)
      {
        assert c !in a * b;
      }
    }
  }

  lemma VariantOkFits(q: ParsedQuery, v: Variant)
    ensures VariantOk(q, v) <==> VariantFits(q, v)
  {
    Overlaps(v.colors, q.colors);
    Overlaps(v.colors, q.excludeColors);
  }

  lemma {:induction false} MatchingFits(q: ParsedQuery, variants: seq<Variant>)
    ensures MatchingVariants(q, variants) == FittingIds(q, variants)
  {
    if variants != [] {
      VariantOkFits(q, variants[0]);
      MatchingFits(q, variants[1..]);
    }
  }

  lemma {:induction false} FittingIdsAre(q: ParsedQuery, variants: seq<Variant>, id: nat)
    ensures id in FittingIds(q, variants) <==> exists v :: v in variants && v.id == id && VariantFits(q, v)
  {
    if variants != [] {
      FittingIdsAre(q, variants[1..], id);
      assert variants == [variants[0]] + variants[1..];
    }
  }

  /** The product is a hit. */
  predicate Fits(q: ParsedQuery, p: Product) {
    ProductFits(q, p) && FittingIds(q, p.variants) != []
  }

  /** A product is a hit exactly when it fits and one variant alone does, and lists exactly its fitting variants. */
  lemma EvaluateFits(q: ParsedQuery, p: Product)
    ensures Evaluate(q, p) == if Fits(q, p) then Some(Hit(p, FittingIds(q, p.variants))) else None
  {
    MatchingFits(q, p.variants);
    Overlaps(p.materials, q.materials);
    assert TextOk(q, p) <==> forall i | 0 <= i < |q.text| :: q.text[i] in ProductWords(p);
  }

  /** The hits of the products that fit, in their order. */
  function FittingHits(q: ParsedQuery, products: seq<Product>): seq<Hit> {
    if products == [] then []
    else if Fits(q, products[0])
    then [Hit(products[0], FittingIds(q, products[0].variants))] + FittingHits(q, products[1..])
    else FittingHits(q, products[1..])
  }

  lemma {:induction false} HitsFit(q: ParsedQuery, products: seq<Product>)
    ensures HitsOf(q, products) == FittingHits(q, products)
  {
    if products != [] {
      EvaluateFits(q, products[0]);
      HitsFit(q, products[1..]);
    }
  }

  lemma {:induction false} FittingHitsAre(q: ParsedQuery, products: seq<Product>, h: Hit)
    ensures h in FittingHits(q, products)
       <==> h.product in products && Fits(q, h.product) && h.variantIds == FittingIds(q, h.product.variants)
  {
    if products != [] {
      FittingHitsAre(q, products[1..], h);
      assert products == [products[0]] + products[1..];
    }
  }

  /** What a returned hit means, constraint by constraint. */
  ghost predicate Sound(q: ParsedQuery, h: Hit) {
    && ProductFits(q, h.product)
    && h.variantIds != []
    && (forall id :: id in h.variantIds <==> exists v :: v in h.product.variants && v.id == id && VariantFits(q, v))
    && h.variantIds == FittingIds(q, h.product.variants)
  }

  lemma FittingIsSound(q: ParsedQuery, h: Hit)
    requires Fits(q, h.product) && h.variantIds == FittingIds(q, h.product.variants)
    ensures Sound(q, h)
  {
    forall id
      ensures id in h.variantIds <==> exists v :: v in h.product.variants && v.id == id && VariantFits(q, v)
    {
      FittingIdsAre(q, h.product.variants, id);
    }
  }

  lemma FitsByVariant(q: ParsedQuery, p: Product, v: Variant)
    requires ProductFits(q, p) && v in p.variants && VariantFits(q, v)
    ensures Fits(q, p)
  {
    FittingIdsAre(q, p.variants, v.id);
  }

  // ---- on the pages that searches return ---------------------------------------------------------

  lemma HitIsSound(q: ParsedQuery, products: seq<Product>, h: Hit)
    requires h in HitsOf(q, products)
    ensures h.product in products && Sound(q, h)
  {
    HitsFit(q, products);
    FittingHitsAre(q, products, h);
    FittingIsSound(q, h);
  }

  lemma FitIsHit(q: ParsedQuery, products: seq<Product>, p: Product, v: Variant)
    requires p in products && ProductFits(q, p) && v in p.variants && VariantFits(q, v)
    ensures Hit(p, FittingIds(q, p.variants)) in HitsOf(q, products)
  {
    FitsByVariant(q, p, v);
    HitsFit(q, products);
    FittingHitsAre(q, products, Hit(p, FittingIds(q, p.variants)));
  }

  /** A page of search: every hit on it meets every constraint, and a product read that meets them is on it unless the
      page was full. The page lists the products read that fit, in the order they were read. */
  method SearchedPage(q: ParsedQuery, products: seq<Product>, limit: int, after: Option<Key>, batch: int, maxScan: int)
    returns (hits: seq<Hit>, next: Option<Key>, ghost read: seq<Product>)
    requires batch >= 1 && DistinctIds(products)
    ensures |read| <= Max(maxScan, 0) && |hits| <= 50
    ensures forall p | p in read :: p in products && p.active
    ensures hits <= FittingHits(q, read)
    ensures |hits| == Min(|FittingHits(q, read)|, if limit < 1 then 1 else Min(limit, 50))
    ensures forall h | h in hits :: h.product in products && Sound(q, h)
  {
    hits, next, read := SearchPage(q, products, limit, after, batch, maxScan);
    HitsFit(q, read);
    forall p | p in read
      ensures p in products && p.active
    {
      assert p in Rest(q, products, after);
      CandidateIsProduct(q, products, after, p);
    }
    forall h | h in hits
      ensures h.product in products && Sound(q, h)
    {
      HitIsSound(q, read, h);
    }
  }

  lemma CandidateIsProduct(q: ParsedQuery, products: seq<Product>, after: Option<Key>, p: Product)
    requires p in Rest(q, products, after)
    ensures p in products && p.active
  {
    FilterMembers(Catalogue(products), (p: Product) => MayMatch(q, p) && After(after, p), p);
    SortKeepsMembers(products, Newer, p);
  }

  /** The reference ranking: exactly the products that fit, newest first, the greater id first among equals. */
  lemma RankIsRight(q: ParsedQuery, products: seq<Product>)
    requires DistinctIds(products)
    ensures forall h :: h in Rank(q, products)
                   <==> h.product in products && Fits(q, h.product) && h.variantIds == FittingIds(q, h.product.variants)
    ensures forall i, j | 0 <= i < j < |Rank(q, products)| ::
              var a, b := Rank(q, products)[i].product.key, Rank(q, products)[j].product.key;
              a.created > b.created || (a.created == b.created && a.id > b.id)
  {
    HitsFit(q, Catalogue(products));
    forall h
      ensures h in Rank(q, products)
         <==> h.product in products && Fits(q, h.product) && h.variantIds == FittingIds(q, h.product.variants)
    {
      FittingHitsAre(q, Catalogue(products), h);
      SortKeepsMembers(products, Newer, h.product);
    }
    CatalogueOrdered(products);
    HitsInOrder(q, Catalogue(products));
  }

  lemma {:induction false} HitsInOrder(q: ParsedQuery, products: seq<Product>)
    requires Ordered(products, Newer)
    ensures forall i, j | 0 <= i < j < |FittingHits(q, products)| ::
              var a, b := FittingHits(q, products)[i].product.key, FittingHits(q, products)[j].product.key;
              a.created > b.created || (a.created == b.created && a.id > b.id)
  {
    if products != [] {
      HitsInOrder(q, products[1..]);
      forall h | h in FittingHits(q, products[1..])
        ensures Newer(products[0], h.product)
      {
        FittingHitsAre(q, products[1..], h);
        var k :| 0 <= k < |products[1..]| && products[1..][k] == h.product;
        assert products[k + 1] == h.product;
      }
    }
  }

  /** Hybrid search applies the same constraints, words apart: the eligible hits are those of the candidates read. */
  lemma EligibleFit(q: ParsedQuery, products: seq<Product>, maxScan: int)
    ensures Eligible(q, products, maxScan)
         == FittingHits(q.(text := []), FirstN(Rest(q.(text := []), products, None), maxScan))
  {
    HitsFit(q.(text := []), FirstN(Rest(q.(text := []), products, None), maxScan));
  }

  /** Whatever hybrid search fuses is in the catalogue and meets every constraint except the words. */
  lemma FusedHitsFit(
    q: ParsedQuery, products: seq<Product>, semantic: Option<Semantic>, kLexical: nat, kSemantic: nat, maxScan: int,
    fused: seq<Fused>, f: Fused)
    requires IsFusion(fused, LexicalRanking(q, Eligible(q, products, maxScan), kLexical),
                      SemanticBranch(Eligible(q, products, maxScan), semantic, kSemantic))
    requires f in fused
    ensures f.hit.product in products && Sound(q.(text := []), f.hit)
  {
    FusedAreEligible(q, products, semantic, kLexical, kSemantic, maxScan, fused, f);
    EvaluateFits(q.(text := []), f.hit.product);
    FittingIsSound(q.(text := []), f.hit);
  }

  // ---- the prefilter -----------------------------------------------------------------------------

  predicate MayFit(q: ParsedQuery, v: Variant) {
    && v.active
    && (q.minPrice.Some? ==> v.currency == "PKR" && q.minPrice.value <= v.price)
    && (q.maxPrice.Some? ==> v.currency == "PKR" && v.price <= q.maxPrice.value)
    && (q.inStock ==> v.stock >= 1)
  }

  /** The prefilter, clause by clause. It knows nothing of colours and materials, and of words only the ASCII ones. */
  lemma PrefilterPasses(q: ParsedQuery, p: Product)
    ensures MayMatch(q, p) <==>
      && p.active
      && (q.categories == {} || p.category in q.categories)
      && ((q.minPrice == None && q.maxPrice == None && !q.inStock) || exists v :: v in p.variants && MayFit(q, v))
      && (forall t | t in q.text && (forall c | c in t :: c < 128 as char) ::
            exists c | c in p.columns :: IContains(c, t))
  {
    assert forall t :: IsAscii(t) <==> forall c | c in t :: c < 128 as char;
    assert q.minPrice.Some? || q.maxPrice.Some? || q.inStock ==> forall v :: VariantMay(q, v) <==> MayFit(q, v);
  }

  // ---- hybrid pages ------------------------------------------------------------------------------

  /** So every hit of every page of hybrid search is in the catalogue and meets every constraint except the words. */
  lemma FusedPageFits(
    q: ParsedQuery, products: seq<Product>, semantic: Option<Semantic>, kLexical: nat, kSemantic: nat, maxScan: int,
    fused: seq<Fused>, limit: nat, after: Option<Position>, h: Hit)
    requires IsFusion(fused, LexicalRanking(q, Eligible(q, products, maxScan), kLexical),
                      SemanticBranch(Eligible(q, products, maxScan), semantic, kSemantic))
    requires limit >= 1 && h in HitsIn(FusedPage(fused, limit, after).0)
    ensures h.product in products && Sound(q.(text := []), h)
  {
    var page := FusedPage(fused, limit, after).0;
    var i :| 0 <= i < |page| && page[i].hit == h;
    FilterMembers(fused, (f: Fused) => Behind(f, after), page[i]);
    assert page[i] in Remaining(fused, after);
    FusedHitsFit(q, products, semantic, kLexical, kSemantic, maxScan, fused, page[i]);
  }
}
