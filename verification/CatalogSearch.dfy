/** Exact matching and the bounded, resumable scan (catalog/search.py, repositories/products.py). */
module CatalogSearch {
  import opened Prelude
  import opened Ordering
  import opened CatalogQuery
  import opened CatalogText

  const CURRENCY := "PKR"
  const MAX_LIMIT := 50

  /** `colors` are the canonical colours recognised in the variant's colour text. */
  datatype Variant = Variant(id: nat, active: bool, colors: set<string>, currency: string, price: int, stock: int)

  /** `materials` are the canonical materials of the product's material text; `columns` its texts as stored;
      `otherWords` the words they normalise to when some text is not ASCII. */
  datatype Product = Product(
    key: Key,
    active: bool,
    category: string,
    materials: set<string>,
    columns: seq<string>,
    otherWords: set<string>,
    variants: seq<Variant>)

  datatype Hit = Hit(product: Product, variantIds: seq<nat>)

  // ---- matching ----------------------------------------------------------------------------------

  predicate PriceWithin(q: ParsedQuery, price: int) {
    (q.minPrice.Some? ==> price >= q.minPrice.value) && (q.maxPrice.Some? ==> price <= q.maxPrice.value)
  }

  predicate VariantOk(q: ParsedQuery, v: Variant) {
    if !v.active then false
    else if (q.colors != {} || q.excludeColors != {})
            && (|| v.colors == {} || (q.colors != {} && v.colors * q.colors == {})
                || v.colors * q.excludeColors != {}) then false
    else if (q.minPrice.Some? || q.maxPrice.Some?) && (v.currency != CURRENCY || !PriceWithin(q, v.price)) then false
    else !q.inStock || v.stock > 0
  }

  function ProductWords(p: Product): set<string> {
    if AllAscii(p.columns) then WordsOf(p.columns) else p.otherWords
  }

  predicate TextOk(q: ParsedQuery, p: Product) {
    var words := ProductWords(p);
    forall t | t in q.text :: t in words
  }

  function MatchingVariants(q: ParsedQuery, variants: seq<Variant>): (ids: seq<nat>)
    ensures ids != [] <==> exists v :: v in variants && VariantOk(q, v)
  {
    if variants == [] then []
    else (if VariantOk(q, variants[0]) then [variants[0].id] else []) + MatchingVariants(q, variants[1..])
  }

  function Evaluate(q: ParsedQuery, p: Product): Option<Hit> {
    if q.unsupported != [] || !p.active then None
    else if q.categories != {} && p.category !in q.categories then None
    else if q.materials != {} && p.materials * q.materials == {} then None
    else if !TextOk(q, p) then None
    else
      var ids := MatchingVariants(q, p.variants);
      if ids != [] then Some(Hit(p, ids)) else None
  }

  function HitsOf(q: ParsedQuery, products: seq<Product>): (hits: seq<Hit>)
    ensures |hits| <= |products|
  {
    if products == [] then []
    else (match Evaluate(q, products[0]) case Some(hit) => [hit] case None => []) + HitsOf(q, products[1..])
  }

  // ---- catalogue order and the reference ranking -------------------------------------------------

  /** Newest first, the id breaking ties. */
  const Newer: (Product, Product) -> bool := (a: Product, b: Product) => b.key.Less(a.key)

  const IdOf: Product -> nat := (p: Product) => p.key.id

  /** A table of products: the id is its primary key. */
  ghost predicate DistinctIds(products: seq<Product>) {
    Distinct(products, IdOf)
  }

  function Catalogue(products: seq<Product>): seq<Product> {
    Sort(products, Newer)
  }

  /** The one-line specification of search: every matching product of the whole catalogue, in catalogue order. */
  function Rank(q: ParsedQuery, products: seq<Product>): seq<Hit> {
    HitsOf(q, Catalogue(products))
  }

  // ---- the database prefilter --------------------------------------------------------------------

  predicate VariantMay(q: ParsedQuery, v: Variant) {
    && v.active
    && (q.minPrice.Some? || q.maxPrice.Some? ==> v.currency == CURRENCY)
    && PriceWithin(q, v.price)
    && (q.inStock ==> v.stock > 0)
  }

  /** Words in other scripts are normalised outside the database, so only ASCII words narrow the candidates. */
  predicate ColumnsHold(q: ParsedQuery, p: Product) {
    forall t | t in q.text && IsAscii(t) :: exists c | c in p.columns :: IContains(c, t)
  }

  predicate MayMatch(q: ParsedQuery, p: Product) {
    && p.active
    && (q.categories != {} ==> p.category in q.categories)
    && (q.minPrice.Some? || q.maxPrice.Some? || q.inStock ==> exists v | v in p.variants :: VariantMay(q, v))
    && ColumnsHold(q, p)
  }

  predicate After(after: Option<Key>, p: Product) {
    after.None? || p.key.Less(after.value)
  }

  /** Everything a scan resumed at `after` could still read. */
  function Rest(q: ParsedQuery, products: seq<Product>, after: Option<Key>): seq<Product> {
    Filter(Catalogue(products), (p: Product) => MayMatch(q, p) && After(after, p))
  }

  /** search_batch: the next n candidates in catalogue order. */
  function Fetch(q: ParsedQuery, products: seq<Product>, after: Option<Key>, n: int): seq<Product> {
    FirstN(Rest(q, products, after), n)
  }

  // ---- one page ----------------------------------------------------------------------------------

  function Clamp(limit: int): (l: nat)
    ensures 1 <= l <= MAX_LIMIT
  {
    Max(1, Min(limit, MAX_LIMIT))
  }

  /** A page over the candidates `rest`, in one look: the hits among the first `maxScan` of them, cut at the limit.
      It resumes after the last returned hit when there are more, after the last candidate read when only the
      scan budget ran out, and nowhere when the candidates ran out. */
  function Page(
    q: ParsedQuery, rest: seq<Product>, limit: nat, maxScan: int, after: Option<Key>): (seq<Hit>, Option<Key>)
    requires limit >= 1
  {
    if q.unsupported != [] then ([], None)
    else if maxScan <= 0 then ([], after)
    else
      var window := FirstN(rest, maxScan);
      var found := HitsOf(q, window);
      if |found| > limit then (found[..limit], Some(found[limit - 1].product.key))
      else if |rest| < maxScan then (found, None)
      else (found, Some(window[|window| - 1].key))
  }

  lemma {:induction false} HitsOfAppend(q: ParsedQuery, a: seq<Product>, b: seq<Product>)
    ensures HitsOf(q, a + b) == HitsOf(q, a) + HitsOf(q, b)
  {
    if a == [] {
      assert a + b == b;
    } else {
      assert (a + b)[1..] == a[1..] + b;
      HitsOfAppend(q, a[1..], b);
    }
  }

  lemma CatalogueOrdered(products: seq<Product>)
    requires DistinctIds(products)
    ensures Ordered(Catalogue(products), Newer)
  {
    SortOrders(products, Newer, IdOf);
  }

  lemma RestOrdered(q: ParsedQuery, products: seq<Product>, after: Option<Key>)
    requires DistinctIds(products)
    ensures Ordered(Rest(q, products, after), Newer)
  {
    CatalogueOrdered(products);
    FilterOrdered(Catalogue(products), (p: Product) => MayMatch(q, p) && After(after, p), Newer);
  }

  /** Resuming after the k-th candidate leaves exactly the candidates behind it. */
  lemma RestAfter(q: ParsedQuery, products: seq<Product>, after: Option<Key>, k: nat)
    requires DistinctIds(products) && 1 <= k <= |Rest(q, products, after)|
    ensures Rest(q, products, Some(Rest(q, products, after)[k - 1].key)) == Rest(q, products, after)[k..]
  {
    RestOrdered(q, products, after);
    var rest := Rest(q, products, after);
    var next := Some(rest[k - 1].key);
    FilterMembers(Catalogue(products), (p: Product) => MayMatch(q, p) && After(after, p), rest[k - 1]);
    assert rest[k - 1] in rest;
    FilterFilter(Catalogue(products), (p: Product) => MayMatch(q, p) && After(after, p),
                 (p: Product) => After(next, p), (p: Product) => MayMatch(q, p) && After(next, p));
    forall i | 0 <= i < |rest|
      ensures After(next, rest[i]) <==> i >= k
    {
      if i < k - 1 {
        assert Newer(rest[i], rest[k - 1]);
      } else if i > k - 1 {
        assert Newer(rest[k - 1], rest[i]);
      }
    }
    FilterSuffix(rest, k, (p: Product) => After(next, p));
  }

  /** What the scan knows after reading some candidates. */
  ghost predicate Scanned(
    q: ParsedQuery, rest: seq<Product>, after: Option<Key>, read: seq<Product>, hits: seq<Hit>, last: Option<Key>)
  {
    && read <= rest
    && hits == HitsOf(q, read)
    && last == if read == [] then after else Some(read[|read| - 1].key)
  }

  lemma ScanNext(
    q: ParsedQuery, rest: seq<Product>, after: Option<Key>, read: seq<Product>, hits: seq<Hit>, last: Option<Key>,
    product: Product)
    requires Scanned(q, rest, after, read, hits, last) && |read| < |rest| && product == rest[|read|]
    ensures Evaluate(q, product).Some? ==>
              Scanned(q, rest, after, read + [product], hits + [Evaluate(q, product).value], Some(product.key))
    ensures Evaluate(q, product).None? ==> Scanned(q, rest, after, read + [product], hits, Some(product.key))
  {
    HitsOfAppend(q, read, [product]);
    assert HitsOf(q, [product][1..]) == [];
  }

  /** Once the hits read so far overflow the page, reading on changes neither them nor the page. */
  lemma OverflowIsPage(
    q: ParsedQuery, rest: seq<Product>, limit: nat, maxScan: int, after: Option<Key>, read: seq<Product>,
    hits: seq<Hit>, last: Option<Key>)
    requires Scanned(q, rest, after, read, hits, last) && |read| <= maxScan && 1 <= limit < |hits|
    requires q.unsupported == []
    ensures Page(q, rest, limit, maxScan, after) == (hits[..limit], Some(hits[limit - 1].product.key))
    ensures hits[..limit] == FirstN(HitsOf(q, read), limit)
  {
    var window := FirstN(rest, maxScan);
    assert window == read + window[|read|..];
    HitsOfAppend(q, read, window[|read|..]);
    assert HitsOf(q, window)[..limit] == hits[..limit];
  }

  lemma ExhaustedIsPage(
    q: ParsedQuery, rest: seq<Product>, limit: nat, maxScan: int, after: Option<Key>, read: seq<Product>,
    hits: seq<Hit>, last: Option<Key>)
    requires Scanned(q, rest, after, read, hits, last) && |read| == |rest| && |read| < maxScan
    requires 1 <= limit && |hits| <= limit && q.unsupported == []
    ensures Page(q, rest, limit, maxScan, after) == (hits, None)
    ensures hits == FirstN(HitsOf(q, read), limit)
  {
    assert read == rest;
  }

  lemma SpentIsPage(
    q: ParsedQuery, rest: seq<Product>, limit: nat, maxScan: int, after: Option<Key>, read: seq<Product>,
    hits: seq<Hit>, last: Option<Key>)
    requires Scanned(q, rest, after, read, hits, last) && 1 <= limit && |hits| <= limit && q.unsupported == []
    requires |read| == Max(maxScan, 0)
    ensures Page(q, rest, limit, maxScan, after) == (hits, last)
    ensures hits == FirstN(HitsOf(q, read), limit)
  {
    if maxScan > 0 {
      assert FirstN(rest, maxScan) == read;
    }
  }

  /** A fetch resumed behind the candidates read returns those that follow. */
  lemma FetchIsNext(
    q: ParsedQuery, products: seq<Product>, after: Option<Key>, read: seq<Product>, hits: seq<Hit>,
    last: Option<Key>, n: nat)
    requires DistinctIds(products) && Scanned(q, Rest(q, products, after), after, read, hits, last)
    ensures var rest := Rest(q, products, after);
            Fetch(q, products, last, n) == rest[|read|..Min(|read| + n, |rest|)]
  {
    if read != [] {
      RestAfter(q, products, after, |read|);
    }
    assert Rest(q, products, last) == Rest(q, products, after)[|read|..];
  }

  /** The scan: batch after batch, product after product, until the page overflows, the candidates run out or the
      budget is spent. Whatever the batch size, it computes the page, from the candidates it read and no more of them
      than the budget. */
  method SearchPage(q: ParsedQuery, products: seq<Product>, limit: int, after: Option<Key>, batch: int, maxScan: int)
    returns (hits: seq<Hit>, next: Option<Key>, ghost read: seq<Product>)
    requires batch >= 1
    requires DistinctIds(products)
    ensures |read| <= Max(maxScan, 0) && read <= Rest(q, products, after)
    ensures hits == FirstN(HitsOf(q, read), Clamp(limit))
    ensures hits == Page(q, Rest(q, products, after), Clamp(limit), maxScan, after).0
    ensures next == Page(q, Rest(q, products, after), Clamp(limit), maxScan, after).1
  {
    var top := Clamp(limit);
    if q.unsupported != [] {
      return [], None, [];
    }
    ghost var rest := Rest(q, products, after);
    hits, read := [], [];
    var scanned, last := 0, after;
    while scanned < maxScan
      invariant scanned == |read| <= Max(maxScan, 0)
      invariant Scanned(q, rest, after, read, hits, last) && |hits| <= top
    {
      var n := Min(batch, maxScan - scanned);
      var rows := Fetch(q, products, last, n);
      ghost var start := scanned;
      FetchIsNext(q, products, after, read, hits, last, n);
      for i := 0 to |rows|
        invariant scanned == |read| == start + i
        invariant Scanned(q, rest, after, read, hits, last) && |hits| <= top
      {
        var product := rows[i];
        assert product == rest[scanned];
        ScanNext(q, rest, after, read, hits, last, product);
        read := read + [product];
        scanned := scanned + 1;
        last := Some(product.key);
        var found := Evaluate(q, product);
        if found.Some? {
          hits := hits + [found.value];
          if |hits| > top {
            OverflowIsPage(q, rest, top, maxScan, after, read, hits, last);
            return hits[..top], Some(hits[top - 1].product.key), read;
          }
        }
      }
      if |rows| < n {
        ExhaustedIsPage(q, rest, top, maxScan, after, read, hits, last);
        return hits, None, read;
      }
    }
    SpentIsPage(q, rest, top, maxScan, after, read, hits, last);
    next := last;
  }
}
