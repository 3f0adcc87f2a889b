/** What the fields of a parsed query say about the items it was read from, in terms of their kinds and number tokens
    alone. */
module QueryOutcomes {
  import opened Prelude
  import opened CatalogQuery
  import opened QueryParser
  import opened QueryTheorems

  // ---- what a number token denotes ---------------------------------------------------------------

  /** A further digit multiplies by ten and adds itself; a `k` at the end multiplies by a thousand. */
  lemma TokensDenote(digits: string, digit: char)
    requires '0' <= digit <= '9' && forall c | c in digits :: '0' <= c <= '9'
    ensures IsNumber([digit]) && NumberOf([digit]) == digit as int - '0' as int
    ensures IsNumber(digits + [digit])
    ensures digits != [] ==>
      IsNumber(digits) && NumberOf(digits + [digit]) == 10 * NumberOf(digits) + (digit as int - '0' as int)
    ensures digits != [] ==> IsNumber(digits + "k") && NumberOf(digits + "k") == 1000 * NumberOf(digits)
  {
    assert [digit][..0] == "" && Decimal("") == 0;
    assert (digits + [digit])[..|digits|] == digits;
    assert (digits + "k")[..|digits|] == digits;
    assert 'k' in digits + "k";
  }

  /** Anything else is a word: a token is a number only when it opens with a digit and holds nothing but digits up to
      its last place, which may also be a `k`. */
  lemma OtherTokensAreWords(token: string, place: nat)
    requires place < |token| && !('0' <= token[place] <= '9')
    requires place == 0 || place < |token| - 1 || token[place] != 'k'
    ensures !IsNumber(token)
  {
    assert token[place] in token;
    assert place < |token| - 1 ==> token[place] in token[..|token| - 1];
  }

  /** A phrase of the vocabulary means what the vocabulary says; any other phrase is one token, a number or a word with
      that token as its value. */
  lemma PhrasesMean(tokens: Tokens, vocab: Vocabulary, k: nat)
    requires vocab.Valid() && k < |Phrases(tokens, vocab)|
    ensures |SegmentItems(tokens, vocab)| == |Phrases(tokens, vocab)|
    ensures var phrase, item := Phrases(tokens, vocab)[k], SegmentItems(tokens, vocab)[k];
            if phrase in vocab.terms then item == vocab.terms[phrase]
            else phrase == [item.value] && item.kind == if IsNumber(item.value) then Num else Word
  {
    ItemsNamePhrases(tokens, vocab);
    PhrasesAreGreedy(tokens, vocab, k);
  }

  // ---- lists grown part by part -------------------------------------------------------------------

  /** Each list is the one before it with the next part behind it. */
  ghost predicate Grows<T>(lists: seq<seq<T>>, parts: seq<seq<T>>) {
    && |lists| == |parts| + 1 && lists[0] == []
    && forall k {:trigger parts[k]} | 0 <= k < |parts| :: lists[k + 1] == lists[k] + parts[k]
  }

  lemma {:induction false} GrownFrom<T>(lists: seq<seq<T>>, parts: seq<seq<T>>, x: T)
    requires Grows(lists, parts)
    ensures x in lists[|parts|] <==> exists k :: 0 <= k < |parts| && x in parts[k]
  {
    if parts != [] {
      var n := |parts| - 1;
      GrownFrom(lists[..n + 1], parts[..n], x);
      assert lists[n + 1] == lists[n] + parts[n];
    }
  }

  /** The places stand in order and are exactly those below n that are chosen. */
  ghost predicate Picked(places: seq<nat>, n: nat, chosen: int -> bool) {
    && (forall j, k | 0 <= j < k < |places| :: places[j] < places[k])
    && (forall i | 0 <= i < n && chosen(i) :: i in places)
    && (forall k | 0 <= k < |places| :: places[k] < n && chosen(places[k]))
  }

  ghost predicate Spells<T>(values: seq<T>, places: seq<nat>, list: seq<T>) {
    |list| == |places| && forall k | 0 <= k < |places| :: places[k] < |values| && list[k] == values[places[k]]
  }

  lemma PickedNext(places: seq<nat>, n: nat, chosen: int -> bool)
    requires Picked(places, n, chosen)
    ensures Picked(if chosen(n) then places + [n] else places, n + 1, chosen)
  {
    assert forall i :: i in places + [n] <==> i in places || i == n;
  }

  /** A list that grows by the chosen values only consists of them, in their order. */
  lemma {:induction false} ChosenInOrder<T>(lists: seq<seq<T>>, parts: seq<seq<T>>, values: seq<T>, chosen: int -> bool)
    returns (places: seq<nat>)
    requires Grows(lists, parts) && |parts| <= |values|
    requires forall k | 0 <= k < |parts| :: parts[k] == if chosen(k) then [values[k]] else []
    ensures Picked(places, |parts|, chosen) && Spells(values, places, lists[|parts|])
  {
    places := [];
    if parts != [] {
      var n := |parts| - 1;
      var before := ChosenInOrder(lists[..n + 1], parts[..n], values, chosen);
      PickedNext(before, n, chosen);
      places := if chosen(n) then before + [n] else before;
      assert lists[n + 1] == lists[n] + parts[n];
    }
  }

  // ---- what is said at an item -------------------------------------------------------------------

  predicate At(items: Items, i: int, kind: Kind) {
    0 <= i < |items| && items[i].kind == kind
  }

  /** "between A and B", seen from A. */
  predicate Range(items: Items, i: int) {
    At(items, i, Num) && At(items, i - 1, BetweenStart) && At(items, i + 1, BetweenJoiner) && At(items, i + 2, Num)
  }

  /** A number that is neither end of a range. */
  predicate Alone(items: Items, i: int) {
    At(items, i, Num) && !Range(items, i) && !Range(items, i - 2)
  }

  /** "up to A" or "A at most". */
  predicate Capped(items: Items, i: int) {
    Alone(items, i) && (At(items, i - 1, MaxBefore) || (!At(items, i - 1, MinBefore) && At(items, i + 1, MaxAfter)))
  }

  /** "from A" or "A at least". */
  predicate Floored(items: Items, i: int) {
    Alone(items, i) && (At(items, i - 1, MinBefore) || (!At(items, i - 1, MaxBefore) && At(items, i + 1, MinAfter)))
  }

  /** Whether the item holds an amount that is taken: ten million at most. */
  predicate Fair(items: Items, i: int) {
    0 <= i < |items| && IsNumber(items[i].value) && NumberOf(items[i].value) <= 10_000_000
  }

  function AmountAt(items: Items, i: int): int
    requires Fair(items, i)
  {
    NumberOf(items[i].value)
  }

  /** Said at i: the price is at least this much. */
  predicate SaysAtLeast(items: Items, i: int, bound: int) {
    || (Floored(items, i) && Fair(items, i) && bound == AmountAt(items, i))
    || (Range(items, i) && Fair(items, i) && Fair(items, i + 2)
        && bound == if AmountAt(items, i) <= AmountAt(items, i + 2) then AmountAt(items, i) else AmountAt(items, i + 2))
  }

  /** Said at i: the price is at most this much. */
  predicate SaysAtMost(items: Items, i: int, bound: int) {
    || (Capped(items, i) && Fair(items, i) && bound == AmountAt(items, i))
    || (Range(items, i) && Fair(items, i) && Fair(items, i + 2)
        && bound == if AmountAt(items, i) <= AmountAt(items, i + 2) then AmountAt(items, i + 2) else AmountAt(items, i))
  }

  lemma NumbersAreTokens(items: Items, i: int)
    requires NumbersParse(items) && At(items, i, Num)
    ensures IsNumber(items[i].value)
    ensures Amount(items[i].value) == if Fair(items, i) then Some(AmountAt(items, i)) else None
  {
    assert items[i] in items;
  }

  lemma SaidAtItem(items: Items, i: int, bound: int)
    requires NumbersParse(items)
    ensures bound in LowPart(items, i) <==> SaysAtLeast(items, i, bound)
    ensures bound in HighPart(items, i) <==> SaysAtMost(items, i, bound)
  {
    if At(items, i, Num) {
      NumbersAreTokens(items, i);
    }
    if Range(items, i) {
      NumbersAreTokens(items, i + 2);
    }
  }

  /** The lower bounds, put together part by part. */
  ghost predicate LowsAre(items: Items, lists: seq<seq<int>>, parts: seq<seq<int>>)
    requires NumbersParse(items)
  {
    && Grows(lists, parts) && |parts| == |items| && lists[|items|] == Lows(Clauses(items, |items|))
    && forall i | 0 <= i < |items| :: parts[i] == LowPart(items, i)
  }

  lemma LowLists(items: Items) returns (lists: seq<seq<int>>, parts: seq<seq<int>>)
    requires NumbersParse(items)
    ensures LowsAre(items, lists, parts)
  {
    lists := seq(|items| + 1, n requires 0 <= n <= |items| => Lows(Clauses(items, n)));
    parts := seq(|items|, i requires 0 <= i => LowPart(items, i));
    forall i | 0 <= i < |items| {
      BoundsNext(items, i);
    }
  }

  ghost predicate HighsAre(items: Items, lists: seq<seq<int>>, parts: seq<seq<int>>)
    requires NumbersParse(items)
  {
    && Grows(lists, parts) && |parts| == |items| && lists[|items|] == Highs(Clauses(items, |items|))
    && forall i | 0 <= i < |items| :: parts[i] == HighPart(items, i)
  }

  lemma HighLists(items: Items) returns (lists: seq<seq<int>>, parts: seq<seq<int>>)
    requires NumbersParse(items)
    ensures HighsAre(items, lists, parts)
  {
    lists := seq(|items| + 1, n requires 0 <= n <= |items| => Highs(Clauses(items, n)));
    parts := seq(|items|, i requires 0 <= i => HighPart(items, i));
    forall i | 0 <= i < |items| {
      BoundsNext(items, i);
    }
  }

  lemma SaidIsInside(items: Items, i: int, bound: int)
    ensures SaysAtLeast(items, i, bound) || SaysAtMost(items, i, bound) ==> 0 <= i < |items|
  {
  }

  /** The bounds of a query are gathered from what its items say. */
  lemma BoundsAreSaid(items: Items, bound: int)
    requires NumbersParse(items)
    ensures bound in Lows(Clauses(items, |items|)) <==> exists i :: SaysAtLeast(items, i, bound)
    ensures bound in Highs(Clauses(items, |items|)) <==> exists i :: SaysAtMost(items, i, bound)
  {
    var lows, lowParts := LowLists(items);
    var highs, highParts := HighLists(items);
    GrownFrom(lows, lowParts, bound);
    GrownFrom(highs, highParts, bound);
    forall i
      ensures 0 <= i < |items| && bound in lowParts[i] <==> SaysAtLeast(items, i, bound)
      ensures 0 <= i < |items| && bound in highParts[i] <==> SaysAtMost(items, i, bound)
    {
      SaidAtItem(items, i, bound);
      SaidIsInside(items, i, bound);
    }
  }

  lemma {:induction false} GreatestOf(xs: seq<int>)
    ensures MaxOf(xs).None? <==> xs == []
    ensures MaxOf(xs).Some? ==> MaxOf(xs).value in xs && forall x | x in xs :: x <= MaxOf(xs).value
  {
    if xs != [] {
      GreatestOf(xs[..|xs| - 1]);
      assert xs == xs[..|xs| - 1] + [xs[|xs| - 1]];
    }
  }

  lemma {:induction false} LeastOf(xs: seq<int>)
    ensures MinOf(xs).None? <==> xs == []
    ensures MinOf(xs).Some? ==> MinOf(xs).value in xs && forall x | x in xs :: x >= MinOf(xs).value
  {
    if xs != [] {
      LeastOf(xs[..|xs| - 1]);
      assert xs == xs[..|xs| - 1] + [xs[|xs| - 1]];
    }
  }

  lemma BoundsOf(items: Items) returns (lows: seq<int>, highs: seq<int>)
    requires NumbersParse(items)
    ensures Meaning(items).minPrice == MaxOf(lows) && Meaning(items).maxPrice == MinOf(highs)
    ensures forall bound | bound in lows :: exists i :: SaysAtLeast(items, i, bound)
    ensures forall bound | bound in highs :: exists i :: SaysAtMost(items, i, bound)
    ensures forall i, bound | SaysAtLeast(items, i, bound) :: bound in lows
    ensures forall i, bound | SaysAtMost(items, i, bound) :: bound in highs
  {
    lows, highs := Lows(Clauses(items, |items|)), Highs(Clauses(items, |items|));
    forall bound
      ensures bound in lows <==> exists i :: SaysAtLeast(items, i, bound)
      ensures bound in highs <==> exists i :: SaysAtMost(items, i, bound)
    {
      BoundsAreSaid(items, bound);
    }
  }

  /** The lower bound of a query is the greatest one said, and there is none when none is said. */
  lemma MinPriceIsGreatestSaid(items: Items)
    requires NumbersParse(items)
    ensures Meaning(items).minPrice.None? <==> forall i, bound :: !SaysAtLeast(items, i, bound)
    ensures Meaning(items).minPrice.Some? ==>
      && (exists i :: SaysAtLeast(items, i, Meaning(items).minPrice.value))
      && forall i, bound | SaysAtLeast(items, i, bound) :: bound <= Meaning(items).minPrice.value
  {
    var lows, _ := BoundsOf(items);
    GreatestOf(lows);
    assert lows != [] ==> lows[0] in lows;
  }

  /** The upper bound of a query is the least one said, and there is none when none is said. */
  lemma MaxPriceIsLeastSaid(items: Items)
    requires NumbersParse(items)
    ensures Meaning(items).maxPrice.None? <==> forall i, bound :: !SaysAtMost(items, i, bound)
    ensures Meaning(items).maxPrice.Some? ==>
      && (exists i :: SaysAtMost(items, i, Meaning(items).maxPrice.value))
      && forall i, bound | SaysAtMost(items, i, bound) :: bound >= Meaning(items).maxPrice.value
  {
    var _, highs := BoundsOf(items);
    LeastOf(highs);
    assert highs != [] ==> highs[0] in highs;
  }

  /** The price obeys what is said at the item: a cap, a floor, or a range whichever way round its ends stand. */
  predicate Obeys(items: Items, price: int, i: int) {
    && (Capped(items, i) && Fair(items, i) ==> price <= AmountAt(items, i))
    && (Floored(items, i) && Fair(items, i) ==> price >= AmountAt(items, i))
    && (Range(items, i) && Fair(items, i) && Fair(items, i + 2) ==>
          || AmountAt(items, i) <= price <= AmountAt(items, i + 2)
          || AmountAt(items, i + 2) <= price <= AmountAt(items, i))
  }

  lemma ObeysMeansBounds(items: Items, price: int, i: int)
    ensures Obeys(items, price, i) <==>
      && (forall bound | SaysAtLeast(items, i, bound) :: price >= bound)
      && (forall bound | SaysAtMost(items, i, bound) :: price <= bound)
  {
    if Fair(items, i) {
      var a := AmountAt(items, i);
      assert Floored(items, i) ==> SaysAtLeast(items, i, a);
      assert Capped(items, i) ==> SaysAtMost(items, i, a);
      if Range(items, i) && Fair(items, i + 2) {
        var b := AmountAt(items, i + 2);
        assert SaysAtLeast(items, i, if a <= b then a else b) && SaysAtMost(items, i, if a <= b then b else a);
      }
    }
  }

  predicate Within(q: ParsedQuery, price: int) {
    (q.minPrice.Some? ==> price >= q.minPrice.value) && (q.maxPrice.Some? ==> price <= q.maxPrice.value)
  }

  /** A price lies within the query's bounds exactly when it obeys everything the text says about prices. */
  lemma PriceObeysTheText(items: Items, price: int)
    requires NumbersParse(items)
    ensures Within(Meaning(items), price) <==> forall i :: Obeys(items, price, i)
  {
    MinPriceIsGreatestSaid(items);
    MaxPriceIsLeastSaid(items);
    var q := Meaning(items);
    if Within(q, price) {
      forall i
        ensures Obeys(items, price, i)
      {
        ObeysMeansBounds(items, price, i);
      }
    } else if q.minPrice.Some? && price < q.minPrice.value {
      var i :| SaysAtLeast(items, i, q.minPrice.value);
      ObeysMeansBounds(items, price, i);
    } else {
      var i :| SaysAtMost(items, i, q.maxPrice.value);
      ObeysMeansBounds(items, price, i);
    }
  }

  // ---- which reason refuses a query --------------------------------------------------------------

  /** An amount above ten million that an operator or a range puts to use. */
  predicate TooDear(items: Items, i: int) {
    && (Capped(items, i) || Floored(items, i) || Range(items, i) || Range(items, i - 2))
    && !(IsNumber(items[i].value) && NumberOf(items[i].value) <= 10_000_000)
  }

  /** A negation with no colour on its side. */
  predicate NegatesNoColour(items: Items, i: int) {
    || (At(items, i, NegBefore) && !At(items, i + 1, Color))
    || (At(items, i, NegAfter) && !At(items, i - 1, Color))
  }

  /** An operator with no number of its own: none stands on its side, or that one is in a range or follows another. */
  predicate LacksNumber(items: Items, i: int) {
    || (At(items, i, MaxBefore) && !Capped(items, i + 1))
    || (At(items, i, MinBefore) && !Floored(items, i + 1))
    || ((At(items, i, MaxAfter) || At(items, i, MinAfter))
        && (!Alone(items, i - 1) || At(items, i - 2, MaxBefore) || At(items, i - 2, MinBefore)))
  }

  lemma LeftoverIsInside(items: Items, i: int)
    ensures LeftoverReason(items, i) != [] ==> 0 <= i < |items|
  {
  }

  lemma LeftoversAre(items: Items, r: Reason)
    ensures r in LeftoverReasons(items, |items|) <==> exists i :: r in LeftoverReason(items, i)
  {
    var lists := seq(|items| + 1, n requires 0 <= n <= |items| => LeftoverReasons(items, n));
    var parts := seq(|items|, i => LeftoverReason(items, i));
    GrownFrom(lists, parts, r);
    if i :| r in LeftoverReason(items, i) {
      LeftoverIsInside(items, i);
      assert r in parts[i];
    }
  }

  lemma {:induction false} OnlyAmounts(items: Items, n: nat, r: Reason)
    requires NumbersParse(items) && n <= |items|
    ensures r in NumberReasons(items, n) <==> r.PriceOutOfRange? && NumberReasons(items, n) != []
  {
    if n > 0 {
      OnlyAmounts(items, n - 1, r);
    }
  }

  lemma AmountsSomewhere(items: Items)
    requires NumbersParse(items)
    ensures NumberReasons(items, |items|) != [] <==> exists i :: OutOfRange(items, i)
  {
    var ok := i => NumbersParse(items) && !OutOfRange(items, i);
    NumberReasonsMeaning(items, |items|, ok);
    AllUpToMeans(ok, |items|);
    assert forall i :: !ok(i) ==> 0 <= i < |items|;
    assert forall i :: ok(i) <==> !OutOfRange(items, i);
  }

  lemma ReasonsAre(items: Items, r: Reason)
    requires NumbersParse(items)
    ensures r in Meaning(items).unsupported <==>
      (r.PriceOutOfRange? && exists i :: OutOfRange(items, i)) || (exists i :: r in LeftoverReason(items, i))
  {
    DedupeKeepsMembers(NumberReasons(items, |items|) + LeftoverReasons(items, |items|), r);
    OnlyAmounts(items, |items|, r);
    AmountsSomewhere(items);
    LeftoversAre(items, r);
  }

  lemma OutOfRangeIsTooDear(items: Items, i: int)
    requires NumbersParse(items)
    ensures OutOfRange(items, i) ==> TooDear(items, i) || TooDear(items, i + 2)
    ensures TooDear(items, i) ==> if Range(items, i - 2) then OutOfRange(items, i - 2) else OutOfRange(items, i)
  {
    if At(items, i, Num) {
      NumbersAreTokens(items, i);
    }
    if Range(items, i) {
      NumbersAreTokens(items, i + 2);
    }
    if Range(items, i - 2) {
      NumbersAreTokens(items, i - 2);
    }
  }

  lemma LeftoverIsOneReason(items: Items, i: int)
    ensures LeftoverReason(items, i) ==
      if NegatesNoColour(items, i) then [NegationNotForColour]
      else if LacksNumber(items, i) then [OperatorWithoutNumber]
      else if At(items, i, BetweenStart) && !Range(items, i + 1) then [IncompleteRange]
      else []
  {
    assert Attached(items, i, i - 1) ==> !IsOp(items, i - 2) || OpAfter(items, i - 2);
  }

  /** A query is refused for an amount exactly when some used amount exceeds ten million. */
  lemma RefusedForAnAmount(items: Items)
    requires NumbersParse(items)
    ensures PriceOutOfRange in Meaning(items).unsupported <==> exists i :: TooDear(items, i)
  {
    ReasonsAre(items, PriceOutOfRange);
    forall i
      ensures PriceOutOfRange !in LeftoverReason(items, i)
    {
      LeftoverIsOneReason(items, i);
    }
    if i :| OutOfRange(items, i) {
      OutOfRangeIsTooDear(items, i);
    }
    if i :| TooDear(items, i) {
      OutOfRangeIsTooDear(items, i);
    }
  }

  /** What is reported at an item: a negation of no colour, else an operator without its number, else half a range. */
  predicate Reported(items: Items, i: int, r: Reason) {
    if NegatesNoColour(items, i) then r.NegationNotForColour?
    else if LacksNumber(items, i) then r.OperatorWithoutNumber?
    else At(items, i, BetweenStart) && !Range(items, i + 1) && r.IncompleteRange?
  }

  /** Every other reason is given exactly when it is reported at some item. */
  lemma RefusedForALeftover(items: Items, r: Reason)
    requires NumbersParse(items) && !r.PriceOutOfRange?
    ensures r in Meaning(items).unsupported <==> exists i :: Reported(items, i, r)
  {
    ReasonsAre(items, r);
    forall i
      ensures r in LeftoverReason(items, i) <==> Reported(items, i, r)
    {
      LeftoverIsOneReason(items, i);
    }
  }

  // ---- facets and text ---------------------------------------------------------------------------

  /** A colour with a negation on its own side is unwanted; every other colour is wanted. */
  predicate Unwanted(items: Items, i: int) {
    At(items, i, Color) && (At(items, i - 1, NegBefore) || At(items, i + 1, NegAfter))
  }

  lemma FacetsAreNamed(items: Items, value: string)
    requires NumbersParse(items)
    ensures value in Meaning(items).categories <==> exists i :: At(items, i, Category) && items[i].value == value
    ensures value in Meaning(items).materials <==> exists i :: At(items, i, Material) && items[i].value == value
    ensures value in Meaning(items).excludeColors <==> exists i :: Unwanted(items, i) && items[i].value == value
    ensures value in Meaning(items).colors <==>
      exists i :: At(items, i, Color) && !Unwanted(items, i) && items[i].value == value
    ensures Meaning(items).inStock <==> exists i :: At(items, i, InStock)
  {
    assert forall i :: Unwanted(items, i) <==> NegatedColour(items, i);
    assert forall i, kind :: At(items, i, kind) <==> Is(items, i, kind);
  }

  /** Free text: a word, or a number to which nothing gives a meaning. */
  predicate FreeText(items: Items, i: int) {
    At(items, i, Word) || (Alone(items, i) && !Capped(items, i) && !Floored(items, i))
  }

  /** The free text of a query is its words and its unexplained numbers, in the order typed. */
  lemma TextIsWhatIsLeft(items: Items) returns (places: seq<nat>)
    requires NumbersParse(items)
    ensures Picked(places, |items|, i => FreeText(items, i))
    ensures Spells(seq(|items|, i requires 0 <= i < |items| => items[i].value), places, Meaning(items).text)
  {
    var lists := seq(|items| + 1, n requires 0 <= n <= |items| => Texts(items, n));
    var values := seq(|items|, i requires 0 <= i < |items| => items[i].value);
    var parts := seq(|items|, i requires 0 <= i < |items| => if FreeText(items, i) then [items[i].value] else []);
    places := ChosenInOrder(lists, parts, values, i => FreeText(items, i));
  }

  lemma {:induction false} MeaningfulAppend(items: Items, item: Item)
    ensures Meaningful(items + [item])
        == Meaningful(items) + if item.kind.Stop? || item.kind.CurrencyWord? then [] else [item]
  {
    if items == [] {
      assert [item][1..] == [] && items + [item] == [item];
    } else {
      assert (items + [item])[1..] == items[1..] + [item];
      MeaningfulAppend(items[1..], item);
    }
  }

  predicate Meant(items: Items, i: int) {
    0 <= i < |items| && items[i].kind != Stop && items[i].kind != CurrencyWord
  }

  /** Before all this, stop words and currency words are dropped, and nothing else is. */
  lemma OnlyNoiseIsDropped(items: Items) returns (places: seq<nat>)
    ensures Picked(places, |items|, i => Meant(items, i)) && Spells(items, places, Meaningful(items))
  {
    var lists := seq(|items| + 1, n requires 0 <= n <= |items| => Meaningful(items[..n]));
    var parts := seq(|items|, i requires 0 <= i < |items| => if Meant(items, i) then [items[i]] else []);
    forall i | 0 <= i < |items|
      ensures lists[i + 1] == lists[i] + parts[i]
    {
      MeaningfulAppend(items[..i], items[i]);
      assert items[..i + 1] == items[..i] + [items[i]];
    }
    places := ChosenInOrder(lists, parts, items, i => Meant(items, i));
    assert items[..|items|] == items;
  }
}
