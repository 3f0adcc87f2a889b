/** Searching for what someone typed: the parser in front of the scan. */
module TypedSearch {
  import opened Prelude
  import opened CatalogQuery
  import opened CatalogText
  import opened CatalogSearch
  import opened SearchPaging
  import opened QueryParser

  function Parsed(tokens: Tokens, vocab: Vocabulary): ParsedQuery
    requires vocab.Valid()
  {
    SegmentedNumbersParse(tokens, vocab);
    Meaning(Meaningful(SegmentItems(tokens, vocab)))
  }

  // ---- free words are tokens the vocabulary does not know ----------------------------------------

  lemma {:induction false} TextsAreItems(items: Items, n: nat, t: string) returns (i: nat)
    requires n <= |items| && t in Texts(items, n)
    ensures i < n && items[i].value == t && (items[i].kind.Word? || items[i].kind.Num?)
  {
    if t in Texts(items, n - 1) {
      i := TextsAreItems(items, n - 1, t);
    } else {
      i := n - 1;
    }
  }

  lemma {:induction false} FlattenHolds(parts: seq<Tokens>, k: nat, t: string)
    requires k < |parts| && t in parts[k]
    ensures t in Flatten(parts)
  {
    if k > 0 {
      FlattenHolds(parts[1..], k - 1, t);
    }
  }

  lemma FreeWordsAreUnknown(tokens: Tokens, vocab: Vocabulary, t: string)
    requires vocab.Valid() && t in Parsed(tokens, vocab).text
    ensures t in tokens && [t] !in vocab.terms
  {
    var all, phrases := SegmentItems(tokens, vocab), Phrases(tokens, vocab);
    var items := Meaningful(all);
    var i := TextsAreItems(items, |items|, t);
    MeaningfulMembers(all, items[i]);
    var k :| 0 <= k < |all| && all[k] == items[i];
    ItemsNamePhrases(tokens, vocab);
    PhrasesAreGreedy(tokens, vocab, k);
    assert phrases[k] !in vocab.terms;
    assert phrases[k] == [t];
    FlattenHolds(phrases, k, t);
    PhrasesCoverTokens(tokens, vocab);
  }

  lemma OneItemMeans(item: Item)
    requires item.kind.Word? || (item.kind.Num? && IsNumber(item.value))
    ensures NumbersParse([item]) && Meaning([item]) == ForWord(item.value)
  {
    var items := [item];
    assert !IsOp(items, -1) && !IsOp(items, 1);
    assert !StatesPrice(items, 0);
    assert Clauses(items, 0) == [] && Clauses(items, 1) == [];
    assert Texts(items, 0) == [] && Texts(items, 1) == [item.value];
    assert NumberReasons(items, 0) == [] && NumberReasons(items, 1) == [];
    assert LeftoverReasons(items, 0) == [] && LeftoverReasons(items, 1) == [];
  }

  /** A word the vocabulary does not know, typed alone, asks for just that word. */
  lemma UnknownWordParses(t: string, vocab: Vocabulary)
    requires vocab.Valid() && [t] !in vocab.terms
    ensures Parsed([t], vocab) == ForWord(t)
  {
    assert [t][..1] == [t] && [t][1..] == [];
    assert SegmentItems([t], vocab) == [Unknown(t)];
    assert Meaningful([Unknown(t)]) == [Unknown(t)] by {
      assert [Unknown(t)][1..] == [];
    }
    OneItemMeans(Unknown(t));
  }

  // ---- when everything that can be typed is answered exactly -------------------------------------

  /** Some query without further constraints could return the product. */
  predicate Offered(p: Product) {
    p.active && exists v | v in p.variants :: v.active
  }

  /** Every ASCII word of the product that can be asked for as such is in some stored text of it. */
  predicate WordsAreStored(p: Product, vocab: Vocabulary) {
    forall t | t in ProductWords(p) && Askable(t, vocab) :: exists c | c in p.columns :: IContains(c, t)
  }

  predicate Askable(t: string, vocab: Vocabulary) {
    IsAscii(t) && IsToken(t) && [t] !in vocab.terms
  }

  /** What tokenising yields: an ASCII token is what it normalises to. */
  predicate Tokenised(tokens: Tokens) {
    forall t | t in tokens && IsAscii(t) :: IsToken(t)
  }

  lemma TypedIsTokenised(text: string)
    ensures Tokenised(Words(Normalised(text)))
  {
    forall t | t in Words(Normalised(text))
      ensures IsToken(t)
    {
      WordsAreTokens(text, t);
    }
  }

  ghost predicate PagesExactly(
    tokens: Tokens, vocab: Vocabulary, products: seq<Product>, limit: nat, maxScan: int)
    requires vocab.Valid() && limit >= 1 && maxScan >= 1 && DistinctIds(products)
  {
    Collect(Parsed(tokens, vocab), products, limit, maxScan, None) == Rank(Parsed(tokens, vocab), products)
  }

  lemma StoredWordsHold(tokens: Tokens, vocab: Vocabulary, p: Product)
    requires vocab.Valid() && Tokenised(tokens) && Evaluate(Parsed(tokens, vocab), p).Some?
    requires Offered(p) ==> WordsAreStored(p, vocab)
    ensures ColumnsHold(Parsed(tokens, vocab), p)
  {
    var q := Parsed(tokens, vocab);
    var v :| v in p.variants && VariantOk(q, v);
    assert Offered(p);
    forall t | t in q.text && IsAscii(t)
      ensures exists c | c in p.columns :: IContains(c, t)
    {
      FreeWordsAreUnknown(tokens, vocab, t);
      assert Askable(t, vocab);
    }
  }

  lemma ForWordFinds(p: Product, t: string)
    requires Offered(p) && t in ProductWords(p)
    ensures Evaluate(ForWord(t), p).Some?
  {
    var v :| v in p.variants && v.active;
    assert VariantOk(ForWord(t), v);
  }

  /** A word that is not stored, typed alone, is answered inexactly. */
  lemma UnstoredWordIsMissed(vocab: Vocabulary, products: seq<Product>, p: Product, limit: nat, maxScan: int)
    returns (t: string)
    requires vocab.Valid() && limit >= 1 && maxScan >= 1 && DistinctIds(products)
    requires p in products && Offered(p) && !WordsAreStored(p, vocab)
    ensures IsAscii(t) && IsToken(t) && !PagesExactly([t], vocab, products, limit, maxScan)
  {
    t :| t in ProductWords(p) && Askable(t, vocab) && !exists c | c in p.columns :: IContains(c, t);
    UnknownWordParses(t, vocab);
    ForWordFinds(p, t);
    assert t in ForWord(t).text;
    assert !ColumnsHold(ForWord(t), p);
    PagingIsExactIff(ForWord(t), products, limit, maxScan);
  }

  lemma StoredWordsPage(
    tokens: Tokens, vocab: Vocabulary, products: seq<Product>, limit: nat, maxScan: int)
    requires vocab.Valid() && limit >= 1 && maxScan >= 1 && DistinctIds(products) && Tokenised(tokens)
    requires forall p | p in products && Offered(p) :: WordsAreStored(p, vocab)
    ensures PagesExactly(tokens, vocab, products, limit, maxScan)
  {
    forall p | p in products && Evaluate(Parsed(tokens, vocab), p).Some?
      ensures ColumnsHold(Parsed(tokens, vocab), p)
    {
      StoredWordsHold(tokens, vocab, p);
    }
    PagingIsExactIff(Parsed(tokens, vocab), products, limit, maxScan);
  }

  /** Everything that can be typed pages through its whole ranking exactly when every product on offer has each askable
      word of it in its stored texts; and single words typed alone already tell. */
  lemma EveryQueryPagesIff(vocab: Vocabulary, products: seq<Product>, limit: nat, maxScan: int)
    requires vocab.Valid() && limit >= 1 && maxScan >= 1 && DistinctIds(products)
    ensures (forall tokens | Tokenised(tokens) :: PagesExactly(tokens, vocab, products, limit, maxScan))
       <==> forall p | p in products && Offered(p) :: WordsAreStored(p, vocab)
    ensures (forall t | IsAscii(t) && IsToken(t) :: PagesExactly([t], vocab, products, limit, maxScan))
       <==> forall p | p in products && Offered(p) :: WordsAreStored(p, vocab)
  {
    if forall p | p in products && Offered(p) :: WordsAreStored(p, vocab) {
      forall tokens | Tokenised(tokens)
        ensures PagesExactly(tokens, vocab, products, limit, maxScan)
      {
        StoredWordsPage(tokens, vocab, products, limit, maxScan);
      }
      forall t | IsAscii(t) && IsToken(t)
        ensures PagesExactly([t], vocab, products, limit, maxScan)
      {
        assert Tokenised([t]);
      }
    } else {
      var p :| p in products && Offered(p) && !WordsAreStored(p, vocab);
      var t := UnstoredWordIsMissed(vocab, products, p, limit, maxScan);
      assert Tokenised([t]);
    }
  }
}
