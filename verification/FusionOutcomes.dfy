/** What a fused list says in numbers, and what order its branches and the list itself stand in. */
module FusionOutcomes {
  import opened Prelude
  import opened Ordering
  import opened CatalogQuery
  import opened CatalogSearch
  import opened HybridFusion
  import opened HybridTheorems

  // ---- ranks -------------------------------------------------------------------------------------

  /** The product stands at this place of the branch for the first time; places count from zero, ranks from one. */
  predicate FirstAt(branch: seq<Hit>, id: nat, place: nat) {
    && place < |branch| && branch[place].product.key.id == id
    && forall k | 0 <= k < place :: branch[k].product.key.id != id
  }

  predicate Absent(branch: seq<Hit>, id: nat) {
    forall k | 0 <= k < |branch| :: branch[k].product.key.id != id
  }

  lemma {:induction false} FirstPlaceIsRank(branch: seq<Hit>, id: nat, place: nat)
    requires FirstAt(branch, id, place)
    ensures RankIn(branch, id) == Some(place + 1)
  {
    if place > 0 {
      assert branch[0].product.key.id != id;
      FirstPlaceIsRank(branch[1..], id, place - 1);
    }
  }

  lemma {:induction false} RankIsFirstPlace(branch: seq<Hit>, id: nat)
    ensures RankIn(branch, id).None? <==> Absent(branch, id)
    ensures RankIn(branch, id).Some? ==> FirstAt(branch, id, RankIn(branch, id).value - 1)
  {
    if branch != [] && branch[0].product.key.id != id {
      RankIsFirstPlace(branch[1..], id);
      assert forall k | 1 <= k < |branch| :: branch[k] == branch[1..][k - 1];
    }
  }

  // ---- scores ------------------------------------------------------------------------------------

  const TRILLION := 1_000_000_000_000.0

  /** The integer nearest to t / p. */
  predicate NearestTo(score: int, t: real, p: real) {
    -p / 2.0 <= score as real * p - t <= p / 2.0
  }

  lemma RoundedIsNearest(score: int, x: real, t: real, p: real)
    requires x - 0.5 <= score as real <= x + 0.5 && p > 0.0 && x * p == t
    ensures NearestTo(score, t, p)
  {
    assert (score as real - x) * p <= 0.5 * p;
    assert (score as real - x) * p >= -0.5 * p;
  }

  lemma ShareTimes(rank: nat)
    requires rank >= 1
    ensures Share(Some(rank)) * (60.0 + rank as real) == TRILLION
  {
    assert (RRF_K + rank) as real == 60.0 + rank as real;
  }

  lemma TwoShares(x: real, y: real, a: real, b: real)
    requires x * a == TRILLION && y * b == TRILLION
    ensures (x + y) * (a * b) == TRILLION * (a + b)
  {
    assert (x + y) * (a * b) == (x * a) * b + (y * b) * a;
  }

  lemma TwoRanksScore(l: nat, r: nat)
    requires l >= 1 && r >= 1
    ensures var a, b := 60.0 + l as real, 60.0 + r as real;
            NearestTo(Score(Some(l), Some(r)), TRILLION * (a + b), a * b)
  {
    var a, b := 60.0 + l as real, 60.0 + r as real;
    ShareTimes(l);
    ShareTimes(r);
    TwoShares(Share(Some(l)), Share(Some(r)), a, b);
    assert a * b > 0.0;
    RoundedIsNearest(Score(Some(l), Some(r)), Share(Some(l)) + Share(Some(r)), TRILLION * (a + b), a * b);
  }

  lemma OneRankScores(r: nat)
    requires r >= 1
    ensures NearestTo(Score(Some(r), None), TRILLION, 60.0 + r as real)
    ensures NearestTo(Score(None, Some(r)), TRILLION, 60.0 + r as real)
  {
    ShareTimes(r);
    assert Share(None) == 0.0;
    RoundedIsNearest(Score(Some(r), None), Share(Some(r)), TRILLION, 60.0 + r as real);
    RoundedIsNearest(Score(None, Some(r)), Share(Some(r)), TRILLION, 60.0 + r as real);
  }

  lemma ScoreFromPlaces(
    fused: seq<Fused>, lexical: seq<Hit>, semantic: seq<Hit>, n: nat, l: Option<nat>, r: Option<nat>)
    requires IsFusion(fused, lexical, semantic) && n < |fused|
    requires if l.Some? then l.value >= 1 && FirstAt(lexical, fused[n].Id(), l.value - 1)
             else Absent(lexical, fused[n].Id())
    requires if r.Some? then r.value >= 1 && FirstAt(semantic, fused[n].Id(), r.value - 1)
             else Absent(semantic, fused[n].Id())
    ensures fused[n].score == Score(l, r)
  {
    var id := fused[n].Id();
    ItemScore(fused, lexical, semantic, n);
    if l.Some? {
      FirstPlaceIsRank(lexical, id, l.value - 1);
    } else {
      RankIsFirstPlace(lexical, id);
    }
    if r.Some? {
      FirstPlaceIsRank(semantic, id, r.value - 1);
    } else {
      RankIsFirstPlace(semantic, id);
    }
  }

  /** A product at the i-th place of one branch and the j-th of the other, from one, scores 10^12 times
      1 / (60 + i) + 1 / (60 + j), to the nearest integer. */
  lemma ScoreOfTwo(fused: seq<Fused>, lexical: seq<Hit>, semantic: seq<Hit>, n: nat, i: nat, j: nat)
    requires IsFusion(fused, lexical, semantic) && n < |fused| && i >= 1 && j >= 1
    requires FirstAt(lexical, fused[n].Id(), i - 1) && FirstAt(semantic, fused[n].Id(), j - 1)
    ensures var a, b := 60.0 + i as real, 60.0 + j as real;
            NearestTo(fused[n].score, 1_000_000_000_000.0 * (a + b), a * b)
  {
    ScoreFromPlaces(fused, lexical, semantic, n, Some(i), Some(j));
    TwoRanksScore(i, j);
  }

  /** In one branch only, it scores 10^12 / (60 + i), to the nearest integer. */
  lemma ScoreOfOne(fused: seq<Fused>, lexical: seq<Hit>, semantic: seq<Hit>, n: nat, i: nat)
    requires IsFusion(fused, lexical, semantic) && n < |fused| && i >= 1
    requires (FirstAt(lexical, fused[n].Id(), i - 1) && Absent(semantic, fused[n].Id()))
          || (Absent(lexical, fused[n].Id()) && FirstAt(semantic, fused[n].Id(), i - 1))
    ensures NearestTo(fused[n].score, 1_000_000_000_000.0, 60.0 + i as real)
  {
    OneRankScores(i);
    if Absent(semantic, fused[n].Id()) {
      ScoreFromPlaces(fused, lexical, semantic, n, Some(i), None);
    } else {
      ScoreFromPlaces(fused, lexical, semantic, n, None, Some(i));
    }
  }

  /** The fused list holds each product of either branch, and nothing else, once. */
  lemma FusedAreRanked(fused: seq<Fused>, lexical: seq<Hit>, semantic: seq<Hit>, id: nat)
    requires IsFusion(fused, lexical, semantic)
    ensures (exists n :: 0 <= n < |fused| && fused[n].Id() == id) <==> !Absent(lexical, id) || !Absent(semantic, id)
    ensures forall n, m | 0 <= n < m < |fused| :: fused[n].Id() != fused[m].Id()
  {
    RankIsFirstPlace(lexical, id);
    RankIsFirstPlace(semantic, id);
    if RankIn(lexical, id).Some? || RankIn(semantic, id).Some? {
      var f := Scored(EntryFor(lexical, semantic, id).value);
      assert f.Id() == id;
      assert f in fused;
    }
    forall n | 0 <= n < |fused| && fused[n].Id() == id
      ensures RankIn(lexical, id).Some? || RankIn(semantic, id).Some?
    {
      ItemScore(fused, lexical, semantic, n);
    }
    forall n, m | 0 <= n < m < |fused|
      ensures fused[n].Id() != fused[m].Id()
    {
      assert FusedId(fused[n]) != FusedId(fused[m]);
    }
  }

  /** Higher scores first; among equals the newer product, then the greater id. */
  lemma FusedOrder(fused: seq<Fused>, lexical: seq<Hit>, semantic: seq<Hit>, n: nat, m: nat)
    requires IsFusion(fused, lexical, semantic) && n < m < |fused|
    ensures var a, b := fused[n].hit.product.key, fused[m].hit.product.key;
            || fused[n].score > fused[m].score
            || (fused[n].score == fused[m].score
                && (a.created > b.created || (a.created == b.created && a.id > b.id)))
  {
    assert AboveOrder(fused[n], fused[m]);
  }

  /** Neither branch weighs more than the other: exchanging them changes no score. */
  lemma BranchesWeighTheSame(one: seq<Fused>, two: seq<Fused>, lexical: seq<Hit>, semantic: seq<Hit>, n: nat, m: nat)
    requires IsFusion(one, lexical, semantic) && IsFusion(two, semantic, lexical)
    requires n < |one| && m < |two| && one[n].Id() == two[m].Id()
    ensures one[n].score == two[m].score
  {
    ItemScore(one, lexical, semantic, n);
    ItemScore(two, semantic, lexical, m);
  }

  /** So two products with each other's ranks tie, and the newer one stands first. */
  lemma SwappedRanksTie(
    fused: seq<Fused>, lexical: seq<Hit>, semantic: seq<Hit>, n: nat, m: nat, i: nat, j: nat)
    requires IsFusion(fused, lexical, semantic) && n < m < |fused| && i >= 1 && j >= 1
    requires FirstAt(lexical, fused[n].Id(), i - 1) && FirstAt(semantic, fused[n].Id(), j - 1)
    requires FirstAt(lexical, fused[m].Id(), j - 1) && FirstAt(semantic, fused[m].Id(), i - 1)
    ensures fused[n].score == fused[m].score
    ensures var a, b := fused[n].hit.product.key, fused[m].hit.product.key;
            a.created > b.created || (a.created == b.created && a.id > b.id)
  {
    ScoreFromPlaces(fused, lexical, semantic, n, Some(i), Some(j));
    ScoreFromPlaces(fused, lexical, semantic, m, Some(j), Some(i));
    FusedOrder(fused, lexical, semantic, n, m);
  }

  // ---- the branches ------------------------------------------------------------------------------

  /** How many different words of the query the product has. */
  function SharedWords(q: ParsedQuery, p: Product): nat {
    |set t | t in q.text && t in ProductWords(p)|
  }

  predicate NewerKey(a: Key, b: Key) {
    a.created > b.created || (a.created == b.created && a.id > b.id)
  }

  lemma OverlapIsShared(q: ParsedQuery, h: Hit)
    ensures Overlap(q, h) == SharedWords(q, h.product)
  {
    assert ProductWords(h.product) * (set t | t in q.text) == set t | t in q.text && t in ProductWords(h.product);
  }

  /** More query words first, then the newer; without words, the newer. */
  predicate BetterWords(q: ParsedQuery, a: Hit, b: Hit) {
    || SharedWords(q, a.product) > SharedWords(q, b.product)
    || (SharedWords(q, a.product) == SharedWords(q, b.product) && NewerKey(a.product.key, b.product.key))
  }

  lemma WordlessShareNothing(q: ParsedQuery, a: Hit, b: Hit)
    ensures q.text == [] ==> SharedWords(q, a.product) == SharedWords(q, b.product) == 0
  {
    if q.text == [] {
      assert (set t | t in q.text && t in ProductWords(a.product)) == {};
      assert (set t | t in q.text && t in ProductWords(b.product)) == {};
    }
  }

  lemma BeforeIsBetter(q: ParsedQuery, a: Hit, b: Hit)
    requires Then(MoreOverlap(q), NewerHit)(a, b)
    ensures BetterWords(q, a, b)
  {
    OverlapIsShared(q, a);
    OverlapIsShared(q, b);
    WordlessShareNothing(q, a, b);
  }

  function Worded(q: ParsedQuery, hits: seq<Hit>): seq<Hit> {
    if q.text == [] then hits else Filter(hits, (h: Hit) => Overlap(q, h) > 0)
  }

  lemma WordedHits(q: ParsedQuery, hits: seq<Hit>, h: Hit)
    ensures h in Worded(q, hits) <==> h in hits && (q.text == [] || SharedWords(q, h.product) >= 1)
  {
    FilterMembers(hits, (h: Hit) => Overlap(q, h) > 0, h);
    OverlapIsShared(q, h);
  }

  lemma CutIsFull(all: seq<Hit>, k: nat, h: Hit)
    requires h in all && h !in FirstN(all, k)
    ensures |FirstN(all, k)| == k
  {
  }

  /** The lexical branch: hits with at least one query word, or all when the query has none; in order, the better ones
      first; and only the worst left out, when there are more than k. */
  lemma LexicalBranch(q: ParsedQuery, hits: seq<Hit>, k: nat)
    requires Distinct(hits, HitId)
    ensures forall h | h in LexicalRanking(q, hits, k) :: h in hits && (q.text != [] ==> SharedWords(q, h.product) >= 1)
    ensures forall i, j | 0 <= i < j < |LexicalRanking(q, hits, k)| ::
              BetterWords(q, LexicalRanking(q, hits, k)[i], LexicalRanking(q, hits, k)[j])
    ensures |LexicalRanking(q, hits, k)| <= k
  {
    var branch := LexicalRanking(q, hits, k);
    LexicalIsTop(q, hits, k);
    forall h | h in branch
      ensures h in hits && (q.text != [] ==> SharedWords(q, h.product) >= 1)
    {
      assert h in Worded(q, hits);
      WordedHits(q, hits, h);
    }
    forall i, j | 0 <= i < j < |branch|
      ensures BetterWords(q, branch[i], branch[j])
    {
      BeforeIsBetter(q, branch[i], branch[j]);
    }
  }

  lemma LexicalLeavesOut(q: ParsedQuery, hits: seq<Hit>, k: nat, h: Hit, i: nat)
    requires Distinct(hits, HitId) && h in hits && (q.text != [] ==> SharedWords(q, h.product) >= 1)
    requires h !in LexicalRanking(q, hits, k)
    ensures |LexicalRanking(q, hits, k)| == k && (i < k ==> BetterWords(q, LexicalRanking(q, hits, k)[i], h))
  {
    var branch := LexicalRanking(q, hits, k);
    WordedHits(q, hits, h);
    LexicalIsTop(q, hits, k);
    TwoSortsKeep(Worded(q, hits), MoreOverlap(q));
    CutIsFull(Sort(Sort(Worded(q, hits), NewerHit), MoreOverlap(q)), k, h);
    if i < k {
      assert branch[i] in branch;
      BeforeIsBetter(q, branch[i], h);
    }
  }

  /** Nearer first, then newer. */
  predicate BetterDistance(distances: Distances, a: Hit, b: Hit)
    requires a.product.key.id in distances && b.product.key.id in distances
  {
    var x, y := distances[a.product.key.id], distances[b.product.key.id];
    x < y || (x == y && NewerKey(a.product.key, b.product.key))
  }

  lemma SemanticHit(hits: seq<Hit>, distances: Distances, k: nat, h: Hit)
    requires Distinct(hits, HitId) && h in SemanticRanking(hits, distances, k)
    ensures h in hits && h.product.key.id in distances
  {
    SemanticIsTop(hits, distances, k);
    FilterMembers(hits, (h: Hit) => h.product.key.id in distances, h);
  }

  /** The semantic branch: hits with a distance, the nearer first, the newer among equals. */
  lemma SemanticOrder(hits: seq<Hit>, distances: Distances, k: nat, i: nat, j: nat)
    requires Distinct(hits, HitId) && i < j < |SemanticRanking(hits, distances, k)|
    ensures var branch := SemanticRanking(hits, distances, k);
            && branch[i].product.key.id in distances && branch[j].product.key.id in distances
            && BetterDistance(distances, branch[i], branch[j])
  {
    var branch := SemanticRanking(hits, distances, k);
    SemanticIsTop(hits, distances, k);
    SemanticHit(hits, distances, k, branch[i]);
    SemanticHit(hits, distances, k, branch[j]);
  }

  lemma SemanticIsFull(hits: seq<Hit>, distances: Distances, k: nat, h: Hit)
    requires h in hits && h.product.key.id in distances && h !in SemanticRanking(hits, distances, k)
    ensures h in Filter(hits, (h: Hit) => h.product.key.id in distances) && |SemanticRanking(hits, distances, k)| == k
  {
    var known := (h: Hit) => h.product.key.id in distances;
    FilterMembers(hits, known, h);
    TwoSortsKeep(Filter(hits, known), Nearer(distances));
    CutIsFull(Sort(Sort(Filter(hits, known), NewerHit), Nearer(distances)), k, h);
  }

  lemma SemanticLeavesOut(hits: seq<Hit>, distances: Distances, k: nat, h: Hit, i: nat)
    requires Distinct(hits, HitId)
    requires h in hits && h.product.key.id in distances && h !in SemanticRanking(hits, distances, k)
    ensures var branch := SemanticRanking(hits, distances, k);
            && |branch| == k
            && (i < k ==> branch[i].product.key.id in distances && BetterDistance(distances, branch[i], h))
  {
    var branch := SemanticRanking(hits, distances, k);
    SemanticIsTop(hits, distances, k);
    SemanticIsFull(hits, distances, k, h);
    if i < k {
      assert branch[i] in branch;
      SemanticHit(hits, distances, k, branch[i]);
    }
  }

  /** The semantic branch is left out exactly when there is nothing to ask or nobody to ask; otherwise it is what the
      answered distances make of the eligible hits. */
  lemma SemanticBranchOutcome(hits: seq<Hit>, semantic: Option<Semantic>, k: nat, h: Hit)
    requires Distinct(hits, HitId)
    ensures semantic == None ==> SemanticBranch(hits, semantic, k) == []
    ensures semantic.Some? && h in hits && h.product.key.id in semantic.value(hits, k) ==>
      h in SemanticBranch(hits, semantic, k) || |SemanticBranch(hits, semantic, k)| == k
    ensures h in SemanticBranch(hits, semantic, k) ==>
      semantic.Some? && h in hits && h.product.key.id in semantic.value(hits, k)
  {
    if semantic.Some? && hits != [] {
      var distances := semantic.value(hits, k);
      if h in SemanticRanking(hits, distances, k) {
        SemanticHit(hits, distances, k, h);
      } else if h in hits && h.product.key.id in distances {
        SemanticIsFull(hits, distances, k, h);
      }
    }
  }

  // ---- rounding and pages ------------------------------------------------------------------------

  /** Halfway between two integers the even one is taken. */
  lemma TiesGoToEven(n: int)
    ensures Round(n as real + 0.5) == if n % 2 == 0 then n else n + 1
  {
  }

  /** The item stands behind the position in the fused order. */
  predicate Follows(f: Fused, after: Option<Position>) {
    || after.None?
    || f.score < after.value.score
    || (f.score == after.value.score && NewerKey(after.value.key, f.hit.product.key))
  }

  lemma RemainingFollow(fused: seq<Fused>, after: Option<Position>, f: Fused)
    ensures f in Remaining(fused, after) <==> f in fused && Follows(f, after)
  {
    FilterMembers(fused, (f: Fused) => Behind(f, after), f);
  }

  /** What a page leaves behind comes after all that is on it, and the page is then full and names its last item as the
      place to go on from. */
  lemma LeftForLater(fused: seq<Fused>, limit: nat, after: Option<Position>, f: Fused)
    requires limit >= 1 && Ordered(fused, AboveOrder)
    requires f in fused && Follows(f, after) && f !in FusedPage(fused, limit, after).0
    ensures var (page, next) := FusedPage(fused, limit, after);
            && |page| == limit && next.Some?
            && next.value == Position(page[limit - 1].score, page[limit - 1].hit.product.key)
            && Follows(f, next)
  {
    var rest := Remaining(fused, after);
    RemainingFollow(fused, after, f);
    FilterOrdered(fused, (f: Fused) => Behind(f, after), AboveOrder);
    var k :| 0 <= k < |rest| && rest[k] == f;
    assert k >= limit;
    assert AboveOrder(rest[limit - 1], f);
  }

  /** A page of the fused list holds at most the limit of items behind the position; it says where to go on exactly when
      it leaves something behind. */
  lemma FusedPageOutcome(fused: seq<Fused>, limit: nat, after: Option<Position>)
    requires limit >= 1 && Ordered(fused, AboveOrder)
    ensures var (page, next) := FusedPage(fused, limit, after);
            && |page| <= limit
            && (forall f | f in page :: f in fused && Follows(f, after))
            && (next.Some? <==> exists f :: f in fused && Follows(f, after) && f !in page)
  {
    var (page, next) := FusedPage(fused, limit, after);
    var rest := Remaining(fused, after);
    forall f | f in page
      ensures f in fused && Follows(f, after)
    {
      RemainingFollow(fused, after, f);
    }
    if f :| f in fused && Follows(f, after) && f !in page {
      LeftForLater(fused, limit, after, f);
    }
    if next.Some? {
      RemainingFollow(fused, after, rest[limit]);
      FilterOrdered(fused, (f: Fused) => Behind(f, after), AboveOrder);
      assert forall i | 0 <= i < limit :: AboveOrder(rest[i], rest[limit]);
      assert rest[limit] !in page;
    }
  }
}
