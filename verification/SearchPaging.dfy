/** Following the cursors of a search from start to end, against the one-line specification `Rank`. */
module SearchPaging {
  import opened Prelude
  import opened Ordering
  import opened CatalogQuery
  import opened CatalogText
  import opened CatalogSearch

  // ---- following cursors -------------------------------------------------------------------------

  /** The page ends at the k-th candidate: it returns the hits up to there and resumes behind it. */
  ghost predicate EndsAt(q: ParsedQuery, products: seq<Product>, limit: nat, maxScan: int, after: Option<Key>, k: nat)
    requires limit >= 1
  {
    var rest := Rest(q, products, after);
    var (hits, next) := Page(q, rest, limit, maxScan, after);
    && 1 <= k <= |rest|
    && next == Some(rest[k - 1].key)
    && Rest(q, products, next) == rest[k..]
    && hits == HitsOf(q, rest[..k])
  }

  /** Every page that hands out a cursor has moved past at least one candidate. */
  lemma PageAdvances(q: ParsedQuery, products: seq<Product>, limit: nat, maxScan: int, after: Option<Key>)
    requires limit >= 1 && maxScan >= 1 && DistinctIds(products)
    requires Page(q, Rest(q, products, after), limit, maxScan, after).1.Some?
    ensures exists k :: EndsAt(q, products, limit, maxScan, after, k)
  {
    var rest := Rest(q, products, after);
    var window := FirstN(rest, maxScan);
    var k: nat;
    if |HitsOf(q, window)| > limit {
      k := PrefixWithHits(q, window, limit);
      assert rest[..k] == window[..k];
    } else {
      k := |window|;
      assert rest[..k] == window;
    }
    RestAfter(q, products, after, k);
    assert EndsAt(q, products, limit, maxScan, after, k);
  }

  lemma HitsOfPrefix(q: ParsedQuery, products: seq<Product>, k: nat)
    requires 1 <= k <= |products|
    ensures HitsOf(q, products[..k]) == HitsOf(q, products[..1]) + HitsOf(q, products[1..][..k - 1])
    ensures HitsOf(q, products) == HitsOf(q, products[..1]) + HitsOf(q, products[1..])
  {
    assert products[..1][1..] == [];
    assert products[..k][1..] == products[1..][..k - 1];
  }

  lemma HitsOfOne(q: ParsedQuery, p: Product)
    ensures |HitsOf(q, [p])| <= 1 && forall h | h in HitsOf(q, [p]) :: h.product == p
  {
    assert [p][1..] == [];
  }

  /** The shortest prefix with the first n hits ends at the n-th. */
  lemma {:induction false} PrefixWithHits(q: ParsedQuery, products: seq<Product>, n: nat) returns (k: nat)
    requires 1 <= n <= |HitsOf(q, products)|
    ensures 1 <= k <= |products|
    ensures HitsOf(q, products[..k]) == HitsOf(q, products)[..n]
    ensures HitsOf(q, products)[n - 1].product == products[k - 1]
  {
    var head := HitsOf(q, products[..1]);
    HitsOfPrefix(q, products, 1);
    HitsOfOne(q, products[0]);
    assert products[..1] == [products[0]];
    if n == 1 && head != [] {
      k := 1;
    } else {
      var rest := HitsOf(q, products[1..]);
      k := PrefixWithHits(q, products[1..], n - |head|);
      assert (head + rest)[..n] == head + rest[..n - |head|];
      HitsOfPrefix(q, products, k + 1);
      k := k + 1;
    }
  }

  /** All pages in a row, following cursors until there is none. */
  ghost function Collect(q: ParsedQuery, products: seq<Product>, limit: nat, maxScan: int, after: Option<Key>): seq<Hit>
    requires limit >= 1 && maxScan >= 1 && DistinctIds(products)
    decreases |Rest(q, products, after)|
  {
    var (hits, next) := Page(q, Rest(q, products, after), limit, maxScan, after);
    if next.None? then hits
    else
      PageAdvances(q, products, limit, maxScan, after);
      hits + Collect(q, products, limit, maxScan, next)
  }

  /** How many requests that takes. */
  ghost function Requests(q: ParsedQuery, products: seq<Product>, limit: nat, maxScan: int, after: Option<Key>): nat
    requires limit >= 1 && maxScan >= 1 && DistinctIds(products)
    decreases |Rest(q, products, after)|
  {
    var (hits, next) := Page(q, Rest(q, products, after), limit, maxScan, after);
    if next.None? then 1
    else
      PageAdvances(q, products, limit, maxScan, after);
      1 + Requests(q, products, limit, maxScan, next)
  }

  /** The pages, whatever their size and scan budget, hold the hits among the candidates once each and in order. */
  lemma {:induction false} PagesCoverCandidates(
    q: ParsedQuery, products: seq<Product>, limit: nat, maxScan: int, after: Option<Key>)
    requires limit >= 1 && maxScan >= 1 && DistinctIds(products)
    ensures Collect(q, products, limit, maxScan, after) == HitsOf(q, Rest(q, products, after))
    ensures 1 <= Requests(q, products, limit, maxScan, after) <= |Rest(q, products, after)| + 1
    decreases |Rest(q, products, after)|
  {
    var rest := Rest(q, products, after);
    var (hits, next) := Page(q, rest, limit, maxScan, after);
    if next.Some? {
      PageAdvances(q, products, limit, maxScan, after);
      var k: nat :| EndsAt(q, products, limit, maxScan, after, k);
      PagesCoverCandidates(q, products, limit, maxScan, next);
      HitsSplit(q, rest, k);
    } else {
      LastPage(q, rest, limit, maxScan, after);
    }
  }

  lemma HitsSplit(q: ParsedQuery, rest: seq<Product>, k: nat)
    requires k <= |rest|
    ensures HitsOf(q, rest) == HitsOf(q, rest[..k]) + HitsOf(q, rest[k..])
  {
    HitsOfAppend(q, rest[..k], rest[k..]);
    assert rest == rest[..k] + rest[k..];
  }

  /** A page without a cursor is the whole remainder. */
  lemma LastPage(q: ParsedQuery, rest: seq<Product>, limit: nat, maxScan: int, after: Option<Key>)
    requires limit >= 1 && maxScan >= 1 && Page(q, rest, limit, maxScan, after).1.None?
    ensures Page(q, rest, limit, maxScan, after).0 == HitsOf(q, rest)
  {
    if q.unsupported != [] {
      NothingMatchesUnsupported(q, rest);
    }
  }

  lemma {:induction false} NothingMatchesUnsupported(q: ParsedQuery, products: seq<Product>)
    requires q.unsupported != []
    ensures HitsOf(q, products) == []
  {
    if products != [] {
      NothingMatchesUnsupported(q, products[1..]);
    }
  }

  lemma PageWithinLimit(q: ParsedQuery, rest: seq<Product>, limit: int, maxScan: int, after: Option<Key>)
    ensures |Page(q, rest, Clamp(limit), maxScan, after).0| <= Clamp(limit) <= MAX_LIMIT
  {
  }

  // ---- the prefilter -----------------------------------------------------------------------------

  /** Apart from its free-text clause the prefilter admits every match. */
  lemma MatchesAreCandidates(q: ParsedQuery, p: Product)
    requires Evaluate(q, p).Some?
    ensures MayMatch(q, p) <==> ColumnsHold(q, p)
  {
    var v :| v in p.variants && VariantOk(q, v);
    assert q.minPrice.Some? || q.maxPrice.Some? || q.inStock ==> VariantMay(q, v);
  }

  lemma {:induction false} HitMembers(q: ParsedQuery, products: seq<Product>, p: Product)
    ensures (exists h :: h in HitsOf(q, products) && h.product == p) <==> p in products && Evaluate(q, p).Some?
  {
    if products != [] {
      HitMembers(q, products[1..], p);
      var head := match Evaluate(q, products[0]) case Some(hit) => [hit] case None => [];
      assert HitsOf(q, products) == head + HitsOf(q, products[1..]);
      assert products == [products[0]] + products[1..];
      if p == products[0] && Evaluate(q, p).Some? {
        assert head[0] in HitsOf(q, products);
      }
    }
  }

  lemma {:induction false} FilterKeepsHits(q: ParsedQuery, products: seq<Product>, keep: Product -> bool)
    requires forall p | p in products && Evaluate(q, p).Some? :: keep(p)
    ensures HitsOf(q, Filter(products, keep)) == HitsOf(q, products)
  {
    if products != [] {
      FilterKeepsHits(q, products[1..], keep);
      var rest := Filter(products[1..], keep);
      assert ([products[0]] + rest)[1..] == rest;
    }
  }

  /** Exactly when every matching product's stored columns hold every ASCII word of the query, paging through the
      prefiltered scan returns the whole ranking. */
  lemma PagingIsExactIff(q: ParsedQuery, products: seq<Product>, limit: nat, maxScan: int)
    requires limit >= 1 && maxScan >= 1 && DistinctIds(products)
    ensures Collect(q, products, limit, maxScan, None) == Rank(q, products)
       <==> forall p | p in products && Evaluate(q, p).Some? :: ColumnsHold(q, p)
  {
    PagesCoverCandidates(q, products, limit, maxScan, None);
    var keep := (p: Product) => MayMatch(q, p) && After(None, p);
    if forall p | p in products && Evaluate(q, p).Some? :: ColumnsHold(q, p) {
      forall p | p in Catalogue(products) && Evaluate(q, p).Some?
        ensures keep(p)
      {
        SortKeepsMembers(products, Newer, p);
        MatchesAreCandidates(q, p);
      }
      FilterKeepsHits(q, Catalogue(products), keep);
    } else {
      var p :| p in products && Evaluate(q, p).Some? && !ColumnsHold(q, p);
      SortKeepsMembers(products, Newer, p);
      HitMembers(q, Catalogue(products), p);
      HitMembers(q, Rest(q, products, None), p);
      MatchesAreCandidates(q, p);
      FilterMembers(Catalogue(products), keep, p);
    }
  }

  /** A query without free words, such as every hybrid search makes, always pages through its whole ranking. */
  lemma TextFreePagingIsExact(q: ParsedQuery, products: seq<Product>, limit: nat, maxScan: int)
    requires limit >= 1 && maxScan >= 1 && DistinctIds(products) && q.text == []
    ensures Collect(q, products, limit, maxScan, None) == Rank(q, products)
    ensures Requests(q, products, limit, maxScan, None) <= |products| + 1
  {
    PagingIsExactIff(q, products, limit, maxScan);
    PagesCoverCandidates(q, products, limit, maxScan, None);
    SortKeepsElements(products, Newer);
    FilterShrinks(Catalogue(products), (p: Product) => MayMatch(q, p) && After(None, p));
  }

  lemma {:induction false} FilterShrinks<T(!new)>(xs: seq<T>, keep: T -> bool)
    ensures |Filter(xs, keep)| <= |xs|
  {
    if xs != [] {
      FilterShrinks(xs[1..], keep);
    }
  }

  // ---- which texts the prefilter can be trusted with ---------------------------------------------

  /** ASCII texts in which no comma stands between a digit and exactly three digits. */
  predicate PlainTexts(p: Product) {
    AllAscii(p.columns) && forall c | c in p.columns :: NoThousands(c)
  }

  /** What a catalogue editor can do: a catalogue of plain texts is searched exactly, whatever is asked. */
  lemma PlainCatalogueIsExact(q: ParsedQuery, products: seq<Product>, limit: nat, maxScan: int)
    requires limit >= 1 && maxScan >= 1 && DistinctIds(products)
    requires forall p | p in products :: PlainTexts(p)
    ensures Collect(q, products, limit, maxScan, None) == Rank(q, products)
  {
    forall p | p in products && Evaluate(q, p).Some?
      ensures ColumnsHold(q, p)
    {
      forall t | t in q.text
        ensures exists c | c in p.columns :: IContains(c, t)
      {
        PlainTextsHoldTheirWords(p.columns, t);
      }
    }
    PagingIsExactIff(q, products, limit, maxScan);
  }

  function ForWord(t: string): ParsedQuery {
    ParsedQuery({}, {}, {}, {}, None, None, false, [t], [])
  }

  const CommaName := "Shawl 4,000"

  lemma CommaNameIsNormalised()
    ensures Normalised(CommaName) == "shawl" + " 4000"
  {
    var low := Lower(CommaName);
    assert low[0] == 's' && low[1] == 'h' && low[2] == 'a' && low[3] == 'w' && low[4] == 'l' && low[5] == ' ';
    assert low[6] == '4' && low[7] == ',' && low[8] == '0' && low[9] == '0' && low[10] == '0';
    assert low == "shawl 4,000";
    CommaRemoved(low, 7, 11);
  }

  lemma SecondWord()
    ensures Words(" 4000") == ["4000"]
  {
    assert WordLength(" 4000") == 0 && " 4000"[1..] == "4000" + "";
    FirstWord("4000", "");
  }

  lemma CommaNameIsPresent()
    ensures AllAscii([CommaName]) && Present([CommaName]) == [CommaName]
  {
  }

  lemma CommaNameWords()
    ensures AllAscii([CommaName]) && WordsOf([CommaName]) == {"shawl", "4000"}
  {
    CommaNameIsPresent();
    CommaNameIsNormalised();
    FirstWord("shawl", " 4000");
    SecondWord();
  }

  lemma FoundLetters(column: string, token: string, i: nat, k: nat)
    requires FoundAt(column, token, i) && k < |token|
    ensures LowerChar(column[i + k]) == LowerChar(token[k])
  {
    assert Lower(column[i..i + |token|])[k] == LowerChar(column[i + k]);
    assert Lower(token)[k] == LowerChar(token[k]);
  }

  /** The only 4 is followed by the comma. */
  lemma CommaHides(i: nat)
    ensures !FoundAt(CommaName, "4000", i)
  {
    assert CommaName[7] == ',';
    if FoundAt(CommaName, "4000", i) {
      FoundLetters(CommaName, "4000", i, 0);
      FoundLetters(CommaName, "4000", i, 1);
    }
  }

  /** A matching product the prefilter drops: the comma of its name is removed when the name is normalised into words,
      but not in the stored column that the database searches. */
  lemma ThousandsCommaIsMissed()
    ensures var p := Product(Key(0, 0), true, "shawls", {}, [CommaName], {}, [Variant(0, true, {}, CURRENCY, 4000, 1)]);
            && Evaluate(ForWord("4000"), p).Some?
            && !MayMatch(ForWord("4000"), p)
            && Collect(ForWord("4000"), [p], 20, 2000, None) != Rank(ForWord("4000"), [p])
  {
    var q, v := ForWord("4000"), Variant(0, true, {}, CURRENCY, 4000, 1);
    var p := Product(Key(0, 0), true, "shawls", {}, [CommaName], {}, [v]);
    CommaNameWords();
    assert v in p.variants && VariantOk(q, v);
    assert Evaluate(q, p).Some?;
    assert IsAscii("4000") && "4000" in q.text;
    forall i: nat
      ensures !FoundAt(CommaName, "4000", i)
    {
      CommaHides(i);
    }
    assert !ColumnsHold(q, p);
    PagingIsExactIff(q, [p], 20, 2000);
    assert p in [p];
  }
}
