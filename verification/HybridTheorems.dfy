/** What fused search promises: true rankings, dominance despite rounding, and exact paging. */
module HybridTheorems {
  import opened Prelude
  import opened Ordering
  import opened CatalogQuery
  import opened CatalogSearch
  import opened HybridFusion

  // ---- scores ------------------------------------------------------------------------------------

  predicate RankOk(rank: Option<nat>) {
    rank.Some? ==> 1 <= rank.value <= MAX_BRANCH
  }

  /** No worse in a branch: an earlier or equal rank, absence counting as the last. */
  predicate NoWorse(a: Option<nat>, b: Option<nat>) {
    b.Some? ==> a.Some? && a.value <= b.value
  }

  predicate Better(a: Option<nat>, b: Option<nat>) {
    NoWorse(a, b) && a != b
  }

  lemma ShareBounds(r: nat)
    requires 1 <= r <= MAX_BRANCH
    ensures Share(Some(r)) * (RRF_K + r) as real == SCALE as real
    ensures 3_000_000_000.0 < Share(Some(r)) < 17_000_000_000.0
  {
    var d := (RRF_K + r) as real;
    assert 61.0 <= d <= 260.0;
    assert Share(Some(r)) == SCALE as real / d;
  }

  lemma Multiplied(t: real, c: real, d: real)
    requires t >= 0.0 && c <= d
    ensures t * c <= t * d
  {
  }

  lemma SmallProduct(d: real, c: real)
    requires d <= 2.0 && 0.0 < c <= 260.0
    ensures d * c <= 520.0
  {
    Multiplied(c, d, 2.0);
    assert c * d == d * c;
  }

  /** Quotients of one dividend by divisors at least one apart. */
  lemma Gap(s: real, t: real, c: real, d: real)
    requires s * c == t * d && c + 1.0 <= d && 0.0 < c <= 260.0 && t > 3_000_000_000.0
    ensures s - t > 2.0
  {
    Multiplied(t, c + 1.0, d);
    assert t * (c + 1.0) == t * c + t;
    assert (s - t) * c == s * c - t * c;
    assert (s - t) * c >= t;
    assert s - t <= 2.0 ==> (s - t) * c <= 520.0 by {
      if s - t <= 2.0 {
        SmallProduct(s - t, c);
      }
    }
  }

  /** Within the configured branch sizes, one rank is worth far more than rounding can hide. */
  lemma BetterShare(a: Option<nat>, b: Option<nat>)
    requires RankOk(a) && RankOk(b) && Better(a, b)
    ensures Share(a) > Share(b) + 2.0
  {
    var x := a.value;
    ShareBounds(x);
    if b.Some? {
      var y := b.value;
      ShareBounds(y);
      Gap(Share(a), Share(b), (RRF_K + x) as real, (RRF_K + y) as real);
    }
  }

  lemma NoWorseShare(a: Option<nat>, b: Option<nat>)
    requires RankOk(a) && RankOk(b) && NoWorse(a, b)
    ensures Share(a) >= Share(b)
  {
    if a != b {
      BetterShare(a, b);
    }
  }

  /** Strictly better in one branch and no worse in the other means a strictly higher rounded score. */
  lemma Dominance(l1: Option<nat>, s1: Option<nat>, l2: Option<nat>, s2: Option<nat>)
    requires RankOk(l1) && RankOk(s1) && RankOk(l2) && RankOk(s2)
    requires NoWorse(l1, l2) && NoWorse(s1, s2) && (l1 != l2 || s1 != s2)
    ensures Score(l1, s1) > Score(l2, s2)
  {
    NoWorseShare(l1, l2);
    NoWorseShare(s1, s2);
    if l1 != l2 {
      BetterShare(l1, l2);
    } else {
      BetterShare(s1, s2);
    }
    assert Share(l1) + Share(s1) > Share(l2) + Share(s2) + 2.0;
  }

  /** A score of proper ranks lies strictly between zero and one. */
  lemma RanksScoreProperly(l: Option<nat>, s: Option<nat>)
    requires RankOk(l) && RankOk(s) && (l.Some? || s.Some?)
    ensures 0 < Score(l, s) < SCALE
  {
    if l.Some? {
      ShareBounds(l.value);
    }
    if s.Some? {
      ShareBounds(s.value);
    }
  }

  /** An item of the fused list is ranked in a branch and scored by its ranks. */
  lemma ItemScore(fused: seq<Fused>, lexical: seq<Hit>, semantic: seq<Hit>, i: nat)
    requires IsFusion(fused, lexical, semantic) && i < |fused|
    ensures fused[i].score == Score(RankIn(lexical, fused[i].Id()), RankIn(semantic, fused[i].Id()))
    ensures RankIn(lexical, fused[i].Id()).Some? || RankIn(semantic, fused[i].Id()).Some?
  {
    assert fused[i] in fused;
  }

  /** Every score in a fused list lies strictly between 0 and 1, as reading a cursor back requires. */
  lemma ScoreIsProper(fused: seq<Fused>, lexical: seq<Hit>, semantic: seq<Hit>, i: nat)
    requires IsFusion(fused, lexical, semantic) && i < |fused|
    requires |lexical| <= MAX_BRANCH && |semantic| <= MAX_BRANCH
    ensures 0 < fused[i].score < SCALE
  {
    ItemScore(fused, lexical, semantic, i);
    RanksScoreProperly(RankIn(lexical, fused[i].Id()), RankIn(semantic, fused[i].Id()));
  }

  lemma DominantScore(lexical: seq<Hit>, semantic: seq<Hit>, a: nat, b: nat)
    requires |lexical| <= MAX_BRANCH && |semantic| <= MAX_BRANCH
    requires a != b && (RankIn(lexical, a).Some? || RankIn(semantic, a).Some?)
    requires NoWorse(RankIn(lexical, a), RankIn(lexical, b)) && NoWorse(RankIn(semantic, a), RankIn(semantic, b))
    ensures Score(RankIn(lexical, a), RankIn(semantic, a)) > Score(RankIn(lexical, b), RankIn(semantic, b))
  {
    if RankIn(lexical, a).Some? && RankIn(lexical, a) == RankIn(lexical, b) {
      SameRankSameId(lexical, a, b);
    }
    if RankIn(semantic, a).Some? && RankIn(semantic, a) == RankIn(semantic, b) {
      SameRankSameId(semantic, a, b);
    }
    Dominance(RankIn(lexical, a), RankIn(semantic, a), RankIn(lexical, b), RankIn(semantic, b));
  }

  /** So a product that is no worse than another in either branch always precedes it in the fused list: two products
      never share a rank, hence it is better in some branch. */
  lemma DominantPrecedes(fused: seq<Fused>, lexical: seq<Hit>, semantic: seq<Hit>, i: nat, j: nat)
    requires IsFusion(fused, lexical, semantic)
    requires |lexical| <= MAX_BRANCH && |semantic| <= MAX_BRANCH
    requires i < |fused| && j < |fused| && i != j
    requires NoWorse(RankIn(lexical, fused[i].Id()), RankIn(lexical, fused[j].Id()))
    requires NoWorse(RankIn(semantic, fused[i].Id()), RankIn(semantic, fused[j].Id()))
    ensures i < j
  {
    ItemScore(fused, lexical, semantic, i);
    ItemScore(fused, lexical, semantic, j);
    assert FusedId(fused[i]) != FusedId(fused[j]);
    DominantScore(lexical, semantic, fused[i].Id(), fused[j].Id());
    assert i > j ==> AboveOrder(fused[j], fused[i]);
  }

  lemma SameRankSameId(branch: seq<Hit>, a: nat, b: nat)
    requires RankIn(branch, a).Some? && RankIn(branch, a) == RankIn(branch, b)
    ensures a == b
  {
  }

  // ---- the two branches --------------------------------------------------------------------------

  const HitId: Hit -> nat := (h: Hit) => h.product.key.id

  /** `top` is what is left of the candidates after keeping the k best: strictly ordered, complete, and nothing left out
      beats it. */
  ghost predicate IsTop(top: seq<Hit>, candidates: seq<Hit>, k: nat, before: (Hit, Hit) -> bool) {
    && Ordered(top, before)
    && |top| == Min(k, |candidates|)
    && (forall h | h in top :: h in candidates)
    && (forall h, t | h in candidates && h !in top && t in top :: before(t, h))
  }

  /** Two stable sorts order distinct hits strictly by both keys, and lose none of them. */
  lemma TwoSortsOrder(candidates: seq<Hit>, first: (Hit, Hit) -> bool)
    requires StrictWeak(first) && Distinct(candidates, HitId)
    ensures Ordered(Sort(Sort(candidates, NewerHit), first), Then(first, NewerHit))
  {
    var byKey := Sort(candidates, NewerHit);
    SortSorts(candidates, NewerHit);
    SortKeepsDistinct(candidates, NewerHit, HitId);
    StableSort(byKey, first, NewerHit);
    SortKeepsDistinct(byKey, first, HitId);
    var all := Sort(byKey, first);
    forall i, j | 0 <= i < j < |all|
      ensures Then(first, NewerHit)(all[i], all[j])
    {
      assert !Then(first, NewerHit)(all[j], all[i]) && HitId(all[i]) != HitId(all[j]);
    }
  }

  lemma TwoSortsKeep(candidates: seq<Hit>, first: (Hit, Hit) -> bool)
    ensures |Sort(Sort(candidates, NewerHit), first)| == |candidates|
    ensures forall h :: h in Sort(Sort(candidates, NewerHit), first) <==> h in candidates
  {
    SortKeepsElements(candidates, NewerHit);
    SortKeepsElements(Sort(candidates, NewerHit), first);
    forall h
      ensures h in Sort(Sort(candidates, NewerHit), first) <==> h in candidates
    {
      SortKeepsMembers(candidates, NewerHit, h);
      SortKeepsMembers(Sort(candidates, NewerHit), first, h);
    }
  }

  /** The first k of an ordered list beat all the others. */
  lemma CutIsTop(all: seq<Hit>, candidates: seq<Hit>, k: nat, before: (Hit, Hit) -> bool)
    requires Ordered(all, before) && |all| == |candidates|
    requires forall h :: h in all <==> h in candidates
    ensures IsTop(FirstN(all, k), candidates, k, before)
  {
    var top := FirstN(all, k);
    forall h, t | h in candidates && h !in top && t in top
      ensures before(t, h)
    {
      var i :| 0 <= i < |top| && top[i] == t;
      var j :| 0 <= j < |all| && all[j] == h;
      assert forall m | 0 <= m < |top| :: top[m] == all[m] && top[m] in top;
    }
  }

  /** Two stable sorts and a cut are one cut of one lexicographic order. */
  lemma TwoSortsAreOne(candidates: seq<Hit>, first: (Hit, Hit) -> bool, k: nat)
    requires StrictWeak(first) && Distinct(candidates, HitId)
    ensures IsTop(FirstN(Sort(Sort(candidates, NewerHit), first), k), candidates, k, Then(first, NewerHit))
  {
    TwoSortsOrder(candidates, first);
    TwoSortsKeep(candidates, first);
    CutIsTop(Sort(Sort(candidates, NewerHit), first), candidates, k, Then(first, NewerHit));
  }

  /** The lexical branch is the top k by overlap, newest first among equals. */
  lemma LexicalIsTop(q: ParsedQuery, hits: seq<Hit>, k: nat)
    requires Distinct(hits, HitId)
    ensures IsTop(LexicalRanking(q, hits, k),
                  if q.text == [] then hits else Filter(hits, (h: Hit) => Overlap(q, h) > 0),
                  k, Then(MoreOverlap(q), NewerHit))
  {
    FilterKeepsDistinct(hits, (h: Hit) => Overlap(q, h) > 0, HitId);
    TwoSortsAreOne(if q.text == [] then hits else Filter(hits, (h: Hit) => Overlap(q, h) > 0), MoreOverlap(q), k);
  }

  /** Distance as the sort key of candidates that all have one. */
  function DistanceOf(distances: Distances, h: Hit): real {
    if h.product.key.id in distances then distances[h.product.key.id] else 0.0
  }

  lemma {:induction false} InsertAgrees(x: Hit, xs: seq<Hit>, one: (Hit, Hit) -> bool, two: (Hit, Hit) -> bool)
    requires forall y | y in xs :: one(y, x) <==> two(y, x)
    ensures Insert(x, xs, one) == Insert(x, xs, two)
  {
    if xs != [] && one(xs[0], x) {
      assert forall y | y in xs[1..] :: y in xs;
      InsertAgrees(x, xs[1..], one, two);
    }
  }

  lemma {:induction false} SortAgrees(xs: seq<Hit>, one: (Hit, Hit) -> bool, two: (Hit, Hit) -> bool)
    requires forall x, y | x in xs && y in xs :: one(x, y) <==> two(x, y)
    ensures Sort(xs, one) == Sort(xs, two)
  {
    if xs != [] {
      assert forall y | y in xs[1..] :: y in xs;
      SortAgrees(xs[1..], one, two);
      forall y | y in Sort(xs[1..], one)
        ensures one(y, xs[0]) <==> two(y, xs[0])
      {
        SortKeepsMembers(xs[1..], one, y);
      }
      InsertAgrees(xs[0], Sort(xs[1..], one), one, two);
    }
  }

  /** The semantic branch is the top k of the hits with a distance, nearest first, newest first among equals. */
  lemma SemanticIsTop(hits: seq<Hit>, distances: Distances, k: nat)
    requires Distinct(hits, HitId)
    ensures IsTop(SemanticRanking(hits, distances, k), Filter(hits, (h: Hit) => h.product.key.id in distances), k,
                  Then((a: Hit, b: Hit) => DistanceOf(distances, a) < DistanceOf(distances, b), NewerHit))
  {
    var found := Filter(hits, (h: Hit) => h.product.key.id in distances);
    var nearer := (a: Hit, b: Hit) => DistanceOf(distances, a) < DistanceOf(distances, b);
    FilterKeepsDistinct(hits, (h: Hit) => h.product.key.id in distances, HitId);
    forall h | h in Sort(found, NewerHit)
      ensures h.product.key.id in distances
    {
      SortKeepsMembers(found, NewerHit, h);
      FilterMembers(hits, (h: Hit) => h.product.key.id in distances, h);
    }
    SortAgrees(Sort(found, NewerHit), Nearer(distances), nearer);
    TwoSortsAreOne(found, nearer, k);
  }

  // ---- paging ------------------------------------------------------------------------------------

  lemma {:induction false} OrderedListsAreEqual(xs: seq<Fused>, ys: seq<Fused>)
    requires Ordered(xs, AboveOrder) && Ordered(ys, AboveOrder)
    requires forall f :: f in xs <==> f in ys
    ensures xs == ys
  {
    assert ys != [] ==> ys[0] in ys;
    if xs != [] {
      assert xs[0] in ys;
      assert ys[0] in xs;
      assert xs[0] == ys[0];
      forall f
        ensures f in xs[1..] <==> f in ys[1..]
      {
        TailMembers(xs, f);
        TailMembers(ys, f);
      }
      OrderedListsAreEqual(xs[1..], ys[1..]);
    }
  }

  lemma TailMembers(xs: seq<Fused>, f: Fused)
    requires xs != [] && Ordered(xs, AboveOrder)
    ensures f in xs[1..] <==> f in xs && f != xs[0]
  {
    if f in xs[1..] {
      var i :| 0 <= i < |xs[1..]| && xs[1..][i] == f;
      assert AboveOrder(xs[0], xs[i + 1]);
    }
    assert xs == [xs[0]] + xs[1..];
  }

  /** On frozen data every request fuses the same list. */
  lemma FusionIsUnique(f1: seq<Fused>, f2: seq<Fused>, lexical: seq<Hit>, semantic: seq<Hit>)
    requires IsFusion(f1, lexical, semantic) && IsFusion(f2, lexical, semantic)
    ensures f1 == f2
  {
    OrderedListsAreEqual(f1, f2);
  }

  /** Resuming behind the k-th item leaves exactly the items behind it. */
  lemma RemainingAfter(fused: seq<Fused>, after: Option<Position>, k: nat)
    requires Ordered(fused, AboveOrder) && 1 <= k <= |Remaining(fused, after)|
    ensures Remaining(fused, Some(PositionOf(Remaining(fused, after)[k - 1]))) == Remaining(fused, after)[k..]
  {
    var rest := Remaining(fused, after);
    var next := Some(PositionOf(rest[k - 1]));
    FilterOrdered(fused, (f: Fused) => Behind(f, after), AboveOrder);
    FilterMembers(fused, (f: Fused) => Behind(f, after), rest[k - 1]);
    FilterFilter(fused, (f: Fused) => Behind(f, after), (f: Fused) => Behind(f, next), (f: Fused) => Behind(f, next));
    forall i | 0 <= i < |rest|
      ensures Behind(rest[i], next) <==> i >= k
    {
      if i < k - 1 {
        assert AboveOrder(rest[i], rest[k - 1]);
      } else if i > k - 1 {
        assert AboveOrder(rest[k - 1], rest[i]);
      }
    }
    FilterSuffix(rest, k, (f: Fused) => Behind(f, next));
  }

  ghost function CollectFused(fused: seq<Fused>, limit: nat, after: Option<Position>): seq<Fused>
    requires limit >= 1 && Ordered(fused, AboveOrder)
    decreases |Remaining(fused, after)|
  {
    var (page, next) := FusedPage(fused, limit, after);
    if next.None? then page
    else
      RemainingAfter(fused, after, limit);
      page + CollectFused(fused, limit, next)
  }

  /** Following positions until there is none returns what remained, without loss or repeat. */
  lemma {:induction false} FusedPagesAreExact(fused: seq<Fused>, limit: nat, after: Option<Position>)
    requires limit >= 1 && Ordered(fused, AboveOrder)
    ensures CollectFused(fused, limit, after) == Remaining(fused, after)
    decreases |Remaining(fused, after)|
  {
    var (page, next) := FusedPage(fused, limit, after);
    if next.Some? {
      RemainingAfter(fused, after, limit);
      FusedPagesAreExact(fused, limit, next);
      assert Remaining(fused, after) == page + Remaining(fused, after)[limit..];
    }
  }

  /** From the start, the pages are the whole fused list. */
  lemma AllFusedPages(fused: seq<Fused>, lexical: seq<Hit>, semantic: seq<Hit>, limit: nat)
    requires limit >= 1 && IsFusion(fused, lexical, semantic)
    ensures CollectFused(fused, limit, None) == fused
  {
    FusedPagesAreExact(fused, limit, None);
    FilterSuffix(fused, 0, (f: Fused) => Behind(f, None));
  }

  // ---- eligibility -------------------------------------------------------------------------------

  lemma {:induction false} HitsAreMatches(q: ParsedQuery, products: seq<Product>, h: Hit)
    requires h in HitsOf(q, products)
    ensures h.product in products && Evaluate(q, h.product) == Some(h)
  {
    var head := match Evaluate(q, products[0]) case Some(hit) => [hit] case None => [];
    assert HitsOf(q, products) == head + HitsOf(q, products[1..]);
    if h !in head {
      HitsAreMatches(q, products[1..], h);
      assert products == [products[0]] + products[1..];
    }
  }

  lemma {:induction false} HitsKeepDistinct(q: ParsedQuery, products: seq<Product>)
    requires DistinctIds(products)
    ensures Distinct(HitsOf(q, products), HitId)
  {
    if products != [] {
      assert forall i | 0 <= i < |products[1..]| :: products[1..][i] == products[i + 1];
      HitsKeepDistinct(q, products[1..]);
      forall h | h in HitsOf(q, products[1..])
        ensures HitId(h) != IdOf(products[0])
      {
        HitsAreMatches(q, products[1..], h);
        var j :| 0 <= j < |products[1..]| && products[1..][j] == h.product;
        assert IdOf(products[j + 1]) != IdOf(products[0]);
      }
    }
  }

  /** The eligible hits are distinct, so both rankings of them are true top lists. */
  lemma EligibleAreDistinct(q: ParsedQuery, products: seq<Product>, maxScan: int)
    requires DistinctIds(products)
    ensures Distinct(Eligible(q, products, maxScan), HitId)
  {
    var filters := q.(text := []);
    SortKeepsDistinct(products, Newer, IdOf);
    FilterKeepsDistinct(Catalogue(products), (p: Product) => MayMatch(filters, p) && After(None, p), IdOf);
    HitsKeepDistinct(filters, FirstN(Rest(filters, products, None), maxScan));
  }

  lemma LexicalIsEligible(q: ParsedQuery, hits: seq<Hit>, k: nat, h: Hit)
    requires h in LexicalRanking(q, hits, k)
    ensures h in hits
  {
    var words := (h: Hit) => Overlap(q, h) > 0;
    TwoSortsKeep(if q.text == [] then hits else Filter(hits, words), MoreOverlap(q));
    FilterMembers(hits, words, h);
  }

  lemma SemanticIsEligible(hits: seq<Hit>, distances: Distances, k: nat, h: Hit)
    requires h in SemanticRanking(hits, distances, k)
    ensures h in hits
  {
    var known := (h: Hit) => h.product.key.id in distances;
    TwoSortsKeep(Filter(hits, known), Nearer(distances));
    FilterMembers(hits, known, h);
  }

  lemma BranchesAreEligible(
    q: ParsedQuery, hits: seq<Hit>, semantic: Option<Semantic>, kLexical: nat, kSemantic: nat, h: Hit)
    requires h in LexicalRanking(q, hits, kLexical) || h in SemanticBranch(hits, semantic, kSemantic)
    ensures h in hits
  {
    if h in LexicalRanking(q, hits, kLexical) {
      LexicalIsEligible(q, hits, kLexical, h);
    } else {
      SemanticIsEligible(hits, semantic.value(hits, kSemantic), kSemantic, h);
    }
  }

  /** Neither a word nor a vector makes a product eligible: whatever is fused passes every hard filter of the query,
      with the variants that satisfy it, and comes from the catalogue. */
  lemma FusedAreEligible(
    q: ParsedQuery, products: seq<Product>, semantic: Option<Semantic>, kLexical: nat, kSemantic: nat, maxScan: int,
    fused: seq<Fused>, f: Fused)
    requires IsFusion(fused, LexicalRanking(q, Eligible(q, products, maxScan), kLexical),
                      SemanticBranch(Eligible(q, products, maxScan), semantic, kSemantic))
    requires f in fused
    ensures Evaluate(q.(text := []), f.hit.product) == Some(f.hit) && f.hit.product in products
  {
    var filters := q.(text := []);
    var hits := Eligible(q, products, maxScan);
    BranchesAreEligible(q, hits, semantic, kLexical, kSemantic, f.hit);
    HitsAreMatches(filters, FirstN(Rest(filters, products, None), maxScan), f.hit);
    FilterMembers(Catalogue(products), (p: Product) => MayMatch(filters, p) && After(None, p), f.hit.product);
    SortKeepsMembers(products, Newer, f.hit.product);
  }
}
