/** Lexical and semantic candidates fused by reciprocal ranks, and paged over the fused order (search/hybrid.py). */
module HybridFusion {
  import opened Prelude
  import opened Ordering
  import opened CatalogQuery
  import opened CatalogSearch

  const RRF_K := 60
  const MAX_BRANCH := 200          // upper bound of both configured branch sizes
  const SCALE := 1_000_000_000_000 // twelve decimal places

  // ---- scores ------------------------------------------------------------------------------------

  /** Nearest integer, halves to even. */
  function Round(x: real): (n: int)
    ensures n as real - 0.5 <= x <= n as real + 0.5
  {
    var low := x.Floor;
    var part := x - low as real;
    if part < 0.5 then low else if part > 0.5 then low + 1 else if low % 2 == 0 then low else low + 1
  }

  /** A branch's share of a score, in units of the twelfth decimal; an absent branch adds nothing. */
  function Share(rank: Option<nat>): real {
    match rank
    case Some(r) => SCALE as real / (RRF_K + r) as real
    case None => 0.0
  }

  /** rrf_score, in units of the twelfth decimal it is rounded to. */
  function Score(lexical: Option<nat>, semantic: Option<nat>): int {
    Round(Share(lexical) + Share(semantic))
  }

  // ---- rankings ----------------------------------------------------------------------------------

  const NewerHit: (Hit, Hit) -> bool := (a: Hit, b: Hit) => b.product.key.Less(a.product.key)

  function Overlap(q: ParsedQuery, h: Hit): nat {
    |ProductWords(h.product) * (set t | t in q.text)|
  }

  function MoreOverlap(q: ParsedQuery): (Hit, Hit) -> bool {
    (a: Hit, b: Hit) => if q.text == [] then false else Overlap(q, a) > Overlap(q, b)
  }

  /** Hits with at least one query word, or all of them when there are none: catalogue order, then a stable sort by
      overlap. */
  function LexicalRanking(q: ParsedQuery, hits: seq<Hit>, k: nat): seq<Hit> {
    var scored := if q.text == [] then hits else Filter(hits, (h: Hit) => Overlap(q, h) > 0);
    FirstN(Sort(Sort(scored, NewerHit), MoreOverlap(q)), k)
  }

  type Distances = map<nat, real>

  function Nearer(distances: Distances): (Hit, Hit) -> bool {
    (a: Hit, b: Hit) =>
      a.product.key.id in distances && b.product.key.id in distances
      && distances[a.product.key.id] < distances[b.product.key.id]
  }

  /** Hits with a known distance, nearest first, catalogue order breaking ties. */
  function SemanticRanking(hits: seq<Hit>, distances: Distances, k: nat): seq<Hit> {
    var found := Filter(hits, (h: Hit) => h.product.key.id in distances);
    FirstN(Sort(Sort(found, NewerHit), Nearer(distances)), k)
  }

  // ---- fusion ------------------------------------------------------------------------------------

  /** One-based rank of a product in a branch: its first position. */
  function RankIn(branch: seq<Hit>, id: nat): (rank: Option<nat>)
    ensures rank.None? <==> forall h | h in branch :: h.product.key.id != id
    ensures rank.Some? ==> 1 <= rank.value <= |branch| && branch[rank.value - 1].product.key.id == id
  {
    if branch == [] then None
    else if branch[0].product.key.id == id then Some(1)
    else match RankIn(branch[1..], id)
         case Some(r) => assert branch[1..][r - 1] == branch[r]; Some(r + 1)
         case None => None
  }

  datatype Fused = Fused(score: int, hit: Hit)
  {
    function Id(): nat { hit.product.key.id }
  }

  /** Higher score first, then catalogue order. */
  predicate Above(a: Fused, b: Fused) {
    a.score > b.score || (a.score == b.score && b.hit.product.key.Less(a.hit.product.key))
  }

  const AboveOrder: (Fused, Fused) -> bool := (a: Fused, b: Fused) => Above(a, b)

  datatype Entry = Entry(hit: Hit, lexical: Option<nat>, semantic: Option<nat>)

  /** The entry an id should get: the hit of its first sighting and its first rank in each branch. */
  function EntryFor(lexical: seq<Hit>, semantic: seq<Hit>, id: nat): Option<Entry> {
    match (RankIn(lexical, id), RankIn(semantic, id))
    case (None, None) => None
    case (Some(l), s) => Some(Entry(lexical[l - 1], Some(l), s))
    case (None, Some(s)) => Some(Entry(semantic[s - 1], None, Some(s)))
  }

  function Lookup(ranks: map<nat, Entry>, id: nat): Option<Entry> {
    if id in ranks then Some(ranks[id]) else None
  }

  /** The dictionary built so far: an entry for each id of either branch. */
  ghost predicate Tabulates(ranks: map<nat, Entry>, lexical: seq<Hit>, semantic: seq<Hit>) {
    forall id :: Lookup(ranks, id) == EntryFor(lexical, semantic, id)
  }

  lemma {:induction false} RankInAppend(branch: seq<Hit>, h: Hit, id: nat)
    ensures RankIn(branch + [h], id) ==
            if RankIn(branch, id).Some? then RankIn(branch, id)
            else if h.product.key.id == id then Some(|branch| + 1) else None
  {
    if branch == [] {
      assert branch + [h] == [h];
      assert RankIn([h][1..], id) == None;
    } else {
      assert (branch + [h])[1..] == branch[1..] + [h];
      RankInAppend(branch[1..], h, id);
    }
  }

  /** Which branch is being entered into the table. */
  datatype Slot = LexicalSlot | SemanticSlot

  /** setdefault, then the rank if the slot is still empty. */
  function Noted(ranks: map<nat, Entry>, slot: Slot, hit: Hit, rank: nat): map<nat, Entry> {
    var id := hit.product.key.id;
    var entry := if id in ranks then ranks[id] else Entry(hit, None, None);
    match slot
    case LexicalSlot => ranks[id := if entry.lexical.None? then entry.(lexical := Some(rank)) else entry]
    case SemanticSlot => ranks[id := if entry.semantic.None? then entry.(semantic := Some(rank)) else entry]
  }

  lemma NotedLexicalAt(ranks: map<nat, Entry>, before: seq<Hit>, h: Hit, id: nat)
    requires Lookup(ranks, id) == EntryFor(before, [], id)
    ensures Lookup(Noted(ranks, LexicalSlot, h, |before| + 1), id) == EntryFor(before + [h], [], id)
  {
    RankInAppend(before, h, id);
  }

  lemma NotedSemanticAt(ranks: map<nat, Entry>, lexical: seq<Hit>, before: seq<Hit>, h: Hit, id: nat)
    requires Lookup(ranks, id) == EntryFor(lexical, before, id)
    ensures Lookup(Noted(ranks, SemanticSlot, h, |before| + 1), id) == EntryFor(lexical, before + [h], id)
  {
    RankInAppend(before, h, id);
  }

  lemma NotedLexical(ranks: map<nat, Entry>, lexical: seq<Hit>, i: nat)
    requires i < |lexical| && Tabulates(ranks, lexical[..i], [])
    ensures Tabulates(Noted(ranks, LexicalSlot, lexical[i], i + 1), lexical[..i + 1], [])
  {
    var now, noted := lexical[..i + 1], Noted(ranks, LexicalSlot, lexical[i], i + 1);
    assert now == lexical[..i] + [lexical[i]];
    forall id: nat
      ensures Lookup(noted, id) == EntryFor(now, [], id)
    {
      NotedLexicalAt(ranks, lexical[..i], lexical[i], id);
    }
  }

  lemma NotedSemantic(ranks: map<nat, Entry>, lexical: seq<Hit>, semantic: seq<Hit>, i: nat)
    requires i < |semantic| && Tabulates(ranks, lexical, semantic[..i])
    ensures Tabulates(Noted(ranks, SemanticSlot, semantic[i], i + 1), lexical, semantic[..i + 1])
  {
    var now, noted := semantic[..i + 1], Noted(ranks, SemanticSlot, semantic[i], i + 1);
    assert now == semantic[..i] + [semantic[i]];
    forall id: nat
      ensures Lookup(noted, id) == EntryFor(lexical, now, id)
    {
      NotedSemanticAt(ranks, lexical, semantic[..i], semantic[i], id);
    }
  }

  function Scored(e: Entry): Fused {
    Fused(Score(e.lexical, e.semantic), e.hit)
  }

  const FusedId: Fused -> nat := (f: Fused) => f.Id()

  /** What `fuse` returns: each id of the two branches once, with the score of its ranks, strictly ordered. */
  ghost predicate IsFusion(fused: seq<Fused>, lexical: seq<Hit>, semantic: seq<Hit>) {
    && Ordered(fused, AboveOrder)
    && Distinct(fused, FusedId)
    && (forall f :: f in fused <==>
          EntryFor(lexical, semantic, f.Id()).Some? && f == Scored(EntryFor(lexical, semantic, f.Id()).value))
  }

  method Fuse(lexical: seq<Hit>, semantic: seq<Hit>) returns (fused: seq<Fused>)
    ensures IsFusion(fused, lexical, semantic)
  {
    var ranks: map<nat, Entry> := map[];
    for i := 0 to |lexical|
      invariant Tabulates(ranks, lexical[..i], [])
    {
      NotedLexical(ranks, lexical, i);
      ranks := Noted(ranks, LexicalSlot, lexical[i], i + 1);
    }
    assert lexical[..|lexical|] == lexical;
    for i := 0 to |semantic|
      invariant Tabulates(ranks, lexical, semantic[..i])
    {
      NotedSemantic(ranks, lexical, semantic, i);
      ranks := Noted(ranks, SemanticSlot, semantic[i], i + 1);
    }
    assert semantic[..|semantic|] == semantic;
    forall id | id in ranks
      ensures ranks[id].hit.product.key.id == id
    {
      assert Lookup(ranks, id) == EntryFor(lexical, semantic, id);
    }
    var scored := ScoreAll(ranks);
    fused := Sort(scored, AboveOrder);
    SortOrders(scored, AboveOrder, FusedId);
    SortKeepsDistinct(scored, AboveOrder, FusedId);
    forall f
      ensures f in fused <==>
        EntryFor(lexical, semantic, f.Id()).Some? && f == Scored(EntryFor(lexical, semantic, f.Id()).value)
    {
      SortKeepsMembers(scored, AboveOrder, f);
      assert Lookup(ranks, f.Id()) == EntryFor(lexical, semantic, f.Id());
    }
  }

  /** One scored item for each value of the table. */
  method ScoreAll(ranks: map<nat, Entry>) returns (scored: seq<Fused>)
    requires forall id | id in ranks :: ranks[id].hit.product.key.id == id
    ensures Distinct(scored, FusedId)
    ensures forall f :: f in scored <==> f.Id() in ranks && f == Scored(ranks[f.Id()])
  {
    scored := [];
    var todo := ranks.Keys;
    while todo != {}
      invariant todo <= ranks.Keys
      invariant Distinct(scored, FusedId)
      invariant forall f :: f in scored <==> f.Id() in ranks && f.Id() !in todo && f == Scored(ranks[f.Id()])
      decreases |todo|
    {
      var id :| id in todo;
      assert forall f | f in scored :: f.Id() != id;
      todo := todo - {id};
      scored := scored + [Scored(ranks[id])];
    }
  }

  // ---- retrieval ---------------------------------------------------------------------------------

  /** Every product passing the exact filters among the first `maxScan` candidates, in catalogue order. */
  method EligibleHits(q: ParsedQuery, products: seq<Product>, batch: int, maxScan: int)
    returns (hits: seq<Hit>, ghost read: seq<Product>)
    requires batch >= 1 && DistinctIds(products)
    ensures |read| <= Max(maxScan, 0) && read == FirstN(Rest(q, products, None), maxScan)
    ensures hits == HitsOf(q, read)
  {
    ghost var rest := Rest(q, products, None);
    hits, read := [], [];
    var scanned, last := 0, None;
    while scanned < maxScan
      invariant scanned == |read| <= Max(maxScan, 0)
      invariant Scanned(q, rest, None, read, hits, last)
    {
      var n := Min(batch, maxScan - scanned);
      var rows := Fetch(q, products, last, n);
      ghost var start := scanned;
      FetchIsNext(q, products, None, read, hits, last, n);
      for i := 0 to |rows|
        invariant scanned == |read| == start + i
        invariant Scanned(q, rest, None, read, hits, last)
      {
        var product := rows[i];
        assert product == rest[scanned];
        ScanNext(q, rest, None, read, hits, last, product);
        read := read + [product];
        scanned := scanned + 1;
        last := Some(product.key);
        var found := Evaluate(q, product);
        if found.Some? {
          hits := hits + [found.value];
        }
      }
      if |rows| < n {
        assert read == FirstN(rest, maxScan);
        return;
      }
    }
    assert read == FirstN(rest, maxScan);
  }

  /** The place of a fused item: its score and key, carried by the cursor. */
  datatype Position = Position(score: int, key: Key)

  function PositionOf(f: Fused): Position {
    Position(f.score, f.hit.product.key)
  }

  predicate Behind(f: Fused, after: Option<Position>) {
    after.Some? ==>
      || f.score < after.value.score
      || (f.score == after.value.score && f.hit.product.key.Less(after.value.key))
  }

  function Remaining(fused: seq<Fused>, after: Option<Position>): seq<Fused> {
    Filter(fused, (f: Fused) => Behind(f, after))
  }

  /** One page of a fused list. */
  function FusedPage(fused: seq<Fused>, limit: nat, after: Option<Position>): (seq<Fused>, Option<Position>)
    requires limit >= 1
  {
    var rest := Remaining(fused, after);
    var page := FirstN(rest, limit);
    (page, if |rest| > limit then Some(PositionOf(page[|page| - 1])) else None)
  }

  function HitsIn(page: seq<Fused>): seq<Hit> {
    seq(|page|, i requires 0 <= i < |page| => page[i].hit)
  }

  /** The branches a request fuses. The semantic branch is left out when it is unavailable or nothing is eligible. */
  function Eligible(q: ParsedQuery, products: seq<Product>, maxScan: int): seq<Hit> {
    var filters := q.(text := []);
    HitsOf(filters, FirstN(Rest(filters, products, None), maxScan))
  }

  type Semantic = (seq<Hit>, nat) -> Distances

  function SemanticBranch(hits: seq<Hit>, semantic: Option<Semantic>, k: nat): seq<Hit> {
    if semantic.Some? && hits != [] then SemanticRanking(hits, semantic.value(hits, k), k) else []
  }

  /** A page of the fusion of the two branches of the eligible hits. */
  method HybridPage(
    q: ParsedQuery, products: seq<Product>, semantic: Option<Semantic>, limit: int, after: Option<Position>,
    kLexical: nat, kSemantic: nat, maxScan: int, batch: int)
    returns (hits: seq<Hit>, next: Option<Position>, ghost fused: seq<Fused>)
    requires batch >= 1 && DistinctIds(products)
    ensures q.unsupported != [] ==> hits == [] && next == None
    ensures q.unsupported == [] ==>
      && IsFusion(fused, LexicalRanking(q, Eligible(q, products, maxScan), kLexical),
                  SemanticBranch(Eligible(q, products, maxScan), semantic, kSemantic))
      && hits == HitsIn(FusedPage(fused, Clamp(limit), after).0)
      && next == FusedPage(fused, Clamp(limit), after).1
  {
    if q.unsupported != [] {
      return [], None, [];
    }
    var top := Clamp(limit);
    var eligible, _ := EligibleHits(q.(text := []), products, batch, maxScan);
    var lexical := LexicalRanking(q, eligible, kLexical);
    var near := SemanticBranch(eligible, semantic, kSemantic);
    var all := Fuse(lexical, near);
    var rest := Remaining(all, after);
    var page := FirstN(rest, top);
    hits := HitsIn(page);
    next := if |rest| > top then Some(PositionOf(page[|page| - 1])) else None;
    fused := all;
  }
}
