/** The deterministic query parser: greedy segmentation, then operators attached to numbers in two passes
    (catalog/query.py). */
module QueryParser {
  import opened Prelude
  import opened CatalogQuery
  import opened CatalogText

  const MAX_PRICE := 10_000_000

  datatype Kind =
    | Category | Color | Material | InStock
    | MaxBefore | MinBefore | MaxAfter | MinAfter
    | BetweenStart | BetweenJoiner | CurrencyWord
    | NegBefore | NegAfter | Stop
    | Num | Word

  datatype Item = Item(kind: Kind, value: string)

  type Tokens = seq<string>

  /** Token phrases with their kind and canonical value. */
  datatype Vocabulary = Vocabulary(terms: map<Tokens, Item>, longest: nat)
  {
    /** What the vocabulary loader guarantees: no empty phrase, none longer than recorded, and only its own kinds. */
    ghost predicate Valid() {
      forall phrase | phrase in terms ::
        1 <= |phrase| <= longest && !terms[phrase].kind.Num? && !terms[phrase].kind.Word?
    }
  }

  // ---- numbers -----------------------------------------------------------------------------------

  predicate AllDigits(s: string) {
    forall c | c in s :: IsDigit(c)
  }

  /** Digits, with a `k` for thousands allowed at the end. */
  predicate IsNumber(token: string) {
    token != [] && (AllDigits(token) || (|token| > 1 && token[|token| - 1] == 'k' && AllDigits(token[..|token| - 1])))
  }

  function Decimal(digits: string): nat
    requires AllDigits(digits)
  {
    if digits == [] then 0
    else
      assert digits[|digits| - 1] in digits;
      10 * Decimal(digits[..|digits| - 1]) + (digits[|digits| - 1] as int - '0' as int)
  }

  function NumberOf(token: string): nat
    requires IsNumber(token)
  {
    if AllDigits(token) then Decimal(token) else 1000 * Decimal(token[..|token| - 1])
  }

  function Amount(token: string): Option<int>
    requires IsNumber(token)
  {
    if NumberOf(token) <= MAX_PRICE then Some(NumberOf(token)) else None
  }

  // ---- segmentation ------------------------------------------------------------------------------

  /** The longest phrase of at most n tokens that the tokens start with; zero if there is none. */
  function LongestUpTo(tokens: Tokens, vocab: Vocabulary, n: nat): (size: nat)
    requires n <= |tokens|
    ensures size <= n
    ensures size > 0 ==> tokens[..size] in vocab.terms
    ensures forall m | size < m <= n :: tokens[..m] !in vocab.terms
  {
    if n == 0 then 0
    else if tokens[..n] in vocab.terms then n
    else LongestUpTo(tokens, vocab, n - 1)
  }

  function Longest(tokens: Tokens, vocab: Vocabulary): (size: nat)
    ensures size <= |tokens|
  {
    LongestUpTo(tokens, vocab, if vocab.longest < |tokens| then vocab.longest else |tokens|)
  }

  function Unknown(token: string): Item {
    Item(if IsNumber(token) then Num else Word, token)
  }

  /** The phrases a token list is cut into, longest known phrase first. */
  function Phrases(tokens: Tokens, vocab: Vocabulary): seq<Tokens>
    decreases |tokens|
  {
    if tokens == [] then []
    else
      var step := Step(tokens, vocab);
      [tokens[..step]] + Phrases(tokens[step..], vocab)
  }

  function ItemOf(phrase: Tokens, vocab: Vocabulary): Item {
    if phrase in vocab.terms then vocab.terms[phrase] else Unknown(if phrase == [] then "" else phrase[0])
  }

  /** How many tokens the first cut takes. */
  function Step(tokens: Tokens, vocab: Vocabulary): (step: nat)
    requires tokens != []
    ensures 1 <= step <= |tokens|
  {
    if Longest(tokens, vocab) == 0 then 1 else Longest(tokens, vocab)
  }

  function SegmentItems(tokens: Tokens, vocab: Vocabulary): seq<Item>
    decreases |tokens|
  {
    if tokens == [] then []
    else
      var step := Step(tokens, vocab);
      [ItemOf(tokens[..step], vocab)] + SegmentItems(tokens[step..], vocab)
  }

  /** One item for each phrase. */
  lemma {:induction false} ItemsNamePhrases(tokens: Tokens, vocab: Vocabulary)
    ensures |SegmentItems(tokens, vocab)| == |Phrases(tokens, vocab)|
    ensures forall k | 0 <= k < |Phrases(tokens, vocab)| ::
        SegmentItems(tokens, vocab)[k] == ItemOf(Phrases(tokens, vocab)[k], vocab)
    decreases |tokens|
  {
    if tokens != [] {
      ItemsNamePhrases(tokens[Step(tokens, vocab)..], vocab);
    }
  }

  /** Segmentation loses no token and repeats none. */
  lemma {:induction false} PhrasesCoverTokens(tokens: Tokens, vocab: Vocabulary)
    ensures Flatten(Phrases(tokens, vocab)) == tokens
    decreases |tokens|
  {
    if tokens != [] {
      var size := Longest(tokens, vocab);
      var step := if size == 0 then 1 else size;
      PhrasesCoverTokens(tokens[step..], vocab);
    }
  }

  /** Each cut is greedy: the phrase is the longest known one at its place, or a single token that starts none. */
  lemma {:induction false} PhrasesAreGreedy(tokens: Tokens, vocab: Vocabulary, k: nat)
    requires vocab.Valid() && k < |Phrases(tokens, vocab)|
    ensures var rest := Flatten(Phrases(tokens, vocab)[k..]);
            var phrase := Phrases(tokens, vocab)[k];
            && phrase <= rest
            && (phrase in vocab.terms ==> forall m | |phrase| < m <= |rest| :: rest[..m] !in vocab.terms)
            && (phrase !in vocab.terms ==> |phrase| == 1 && forall m | 1 <= m <= |rest| :: rest[..m] !in vocab.terms)
    decreases |tokens|
  {
    PhrasesCoverTokens(tokens, vocab);
    var size := Longest(tokens, vocab);
    var step := if size == 0 then 1 else size;
    if k == 0 {
      assert Phrases(tokens, vocab)[0..] == Phrases(tokens, vocab);
      assert forall m | vocab.longest < m <= |tokens| :: |tokens[..m]| == m;
      assert size == 0 ==> tokens[..1] !in vocab.terms;
    } else {
      PhrasesAreGreedy(tokens[step..], vocab, k - 1);
      assert Phrases(tokens, vocab)[k..] == Phrases(tokens[step..], vocab)[k - 1..];
    }
  }

  /** What has been segmented, followed by the segmentation of what is left, is the whole segmentation. */
  ghost predicate Cut(tokens: Tokens, vocab: Vocabulary, i: int, items: seq<Item>) {
    && 0 <= i <= |tokens|
    && SegmentItems(tokens, vocab) == items + SegmentItems(tokens[i..], vocab)
  }

  lemma CutNext(tokens: Tokens, vocab: Vocabulary, i: nat, items: seq<Item>, step: nat, item: Item)
    requires Cut(tokens, vocab, i, items) && i < |tokens|
    requires step == Step(tokens[i..], vocab) && item == ItemOf(tokens[i..][..step], vocab)
    ensures Cut(tokens, vocab, i + step, items + [item])
  {
    var rest := tokens[i..];
    assert rest[step..] == tokens[i + step..];
    assert SegmentItems(rest, vocab) == [item] + SegmentItems(rest[step..], vocab);
  }

  lemma CutEnds(tokens: Tokens, vocab: Vocabulary, items: seq<Item>)
    ensures Cut(tokens, vocab, 0, [])
    ensures Cut(tokens, vocab, |tokens|, items) ==> items == SegmentItems(tokens, vocab)
  {
    assert tokens[0..] == tokens && tokens[|tokens|..] == [];
    assert items + [] == items;
  }

  method Segment(tokens: Tokens, vocab: Vocabulary) returns (items: seq<Item>)
    requires vocab.Valid()
    ensures items == SegmentItems(tokens, vocab)
  {
    items := [];
    var i := 0;
    CutEnds(tokens, vocab, items);
    while i < |tokens|
      invariant Cut(tokens, vocab, i, items)
    {
      var item, step := NextItem(tokens, vocab, i);
      CutNext(tokens, vocab, i, items, step, item);
      items := items + [item];
      i := i + step;
    }
    CutEnds(tokens, vocab, items);
  }

  /** Try the longest phrase first; a token that starts none is a number or a word. */
  method NextItem(tokens: Tokens, vocab: Vocabulary, i: nat) returns (item: Item, step: nat)
    requires vocab.Valid() && i < |tokens|
    ensures step == Step(tokens[i..], vocab) && item == ItemOf(tokens[i..][..step], vocab)
  {
    ghost var rest := tokens[i..];
    var top := if vocab.longest < |tokens| - i then vocab.longest else |tokens| - i;
    var size := top;
    while size > 0 && tokens[i..i + size] !in vocab.terms
      invariant 0 <= size <= top
      invariant LongestUpTo(rest, vocab, top) == LongestUpTo(rest, vocab, size)
    {
      assert rest[..size] == tokens[i..i + size];
      size := size - 1;
    }
    assert rest[..size] == tokens[i..i + size];
    if size > 0 {
      item, step := vocab.terms[tokens[i..i + size]], size;
    } else {
      SingleTokenIsUnknown(rest, vocab);
      item, step := Unknown(tokens[i]), 1;
    }
  }

  lemma SingleTokenIsUnknown(tokens: Tokens, vocab: Vocabulary)
    requires vocab.Valid() && tokens != [] && Longest(tokens, vocab) == 0
    ensures tokens[..1] !in vocab.terms && ItemOf(tokens[..1], vocab) == Unknown(tokens[0])
  {
  }

  // ---- attachment, defined by each item's neighbours ---------------------------------------------

  type Items = seq<Item>

  predicate Is(items: Items, i: int, kind: Kind) {
    0 <= i < |items| && items[i].kind == kind
  }

  predicate OpBefore(items: Items, i: int) {
    Is(items, i, MaxBefore) || Is(items, i, MinBefore)
  }

  predicate OpAfter(items: Items, i: int) {
    Is(items, i, MaxAfter) || Is(items, i, MinAfter)
  }

  predicate IsOp(items: Items, i: int) {
    OpBefore(items, i) || OpAfter(items, i)
  }

  /** The low end of "between LOW and HIGH". */
  predicate RangeLow(items: Items, i: int) {
    Is(items, i, Num) && Is(items, i - 1, BetweenStart) && Is(items, i + 1, BetweenJoiner) && Is(items, i + 2, Num)
  }

  predicate RangeHigh(items: Items, i: int) {
    RangeLow(items, i - 2)
  }

  /** A number that is no end of a range. */
  predicate Single(items: Items, i: int) {
    Is(items, i, Num) && !RangeLow(items, i) && !RangeHigh(items, i)
  }

  /** The operator of a single number: the one before it, else the one after it. */
  function OpOf(items: Items, i: int): Option<int> {
    if OpBefore(items, i - 1) then Some(i - 1) else if OpAfter(items, i + 1) then Some(i + 1) else None
  }

  predicate Attached(items: Items, op: int, number: int) {
    Single(items, number) && OpOf(items, number) == Some(op)
  }

  datatype Clause = AtLeast(bound: int) | AtMost(bound: int) | Between(low: int, high: int)

  predicate Meets(price: int, clause: Clause) {
    match clause
    case AtLeast(n) => price >= n
    case AtMost(n) => price <= n
    case Between(a, b) => a <= price <= b
  }

  /** Number items hold number tokens. */
  predicate NumbersParse(items: Items) {
    forall item | item in items && item.kind.Num? :: IsNumber(item.value)
  }

  /** Whether the item states a price, as the low end of a range or a single number with an operator. */
  predicate StatesPrice(items: Items, i: int) {
    RangeLow(items, i) || (Single(items, i) && OpOf(items, i).Some?)
  }

  /** The price clause stated at an item; None when an amount is out of range. */
  function ClauseAt(items: Items, i: int): Option<Clause>
    requires NumbersParse(items) && StatesPrice(items, i)
  {
    var amount := Amount(items[i].value);
    if RangeLow(items, i) then
      var high := Amount(items[i + 2].value);
      if amount.None? || high.None? then None
      else Some(Between(Min(amount.value, high.value), Max(amount.value, high.value)))
    else if amount.None? then None
    else
      var op := OpOf(items, i).value;
      if Is(items, op, MaxBefore) || Is(items, op, MaxAfter) then Some(AtMost(amount.value))
      else Some(AtLeast(amount.value))
  }

  predicate NegatedColour(items: Items, i: int) {
    Is(items, i, Color) && (Is(items, i - 1, NegBefore) || Is(items, i + 1, NegAfter))
  }

  // ---- what the first n items contribute ---------------------------------------------------------

  function Clauses(items: Items, n: nat): seq<Clause>
    requires NumbersParse(items) && n <= |items|
  {
    if n == 0 then []
    else Clauses(items, n - 1)
         + (if StatesPrice(items, n - 1) && ClauseAt(items, n - 1).Some? then [ClauseAt(items, n - 1).value] else [])
  }

  function Lows(clauses: seq<Clause>): seq<int> {
    if clauses == [] then []
    else
      var last := clauses[|clauses| - 1];
      Lows(clauses[..|clauses| - 1])
          + (match last case AtLeast(n) => [n] case AtMost(_) => [] case Between(a, _) => [a])
  }

  function Highs(clauses: seq<Clause>): seq<int> {
    if clauses == [] then []
    else
      var last := clauses[|clauses| - 1];
      Highs(clauses[..|clauses| - 1])
          + (match last case AtLeast(_) => [] case AtMost(n) => [n] case Between(_, b) => [b])
  }

  function Texts(items: Items, n: nat): seq<string>
    requires n <= |items|
  {
    if n == 0 then []
    else Texts(items, n - 1)
         + (if Is(items, n - 1, Word) || (Single(items, n - 1) && OpOf(items, n - 1).None?)
            then [items[n - 1].value] else [])
  }

  /** Reasons found while attaching numbers, then reasons found among the operators left over. */
  function NumberReasons(items: Items, n: nat): seq<Reason>
    requires NumbersParse(items) && n <= |items|
  {
    if n == 0 then []
    else NumberReasons(items, n - 1)
         + (if StatesPrice(items, n - 1) && ClauseAt(items, n - 1).None? then [PriceOutOfRange] else [])
  }

  predicate Dangling(items: Items, op: int) {
    IsOp(items, op) && !Attached(items, op, op - 1) && !Attached(items, op, op + 1)
  }

  function LeftoverReason(items: Items, i: int): seq<Reason> {
    if (Is(items, i, NegBefore) && !Is(items, i + 1, Color)) || (Is(items, i, NegAfter) && !Is(items, i - 1, Color))
    then [NegationNotForColour]
    else if Dangling(items, i) then [OperatorWithoutNumber]
    else if Is(items, i, BetweenStart) && !RangeLow(items, i + 1) then [IncompleteRange]
    else []
  }

  function LeftoverReasons(items: Items, n: nat): seq<Reason>
    requires n <= |items|
  {
    if n == 0 then [] else LeftoverReasons(items, n - 1) + LeftoverReason(items, n - 1)
  }

  function Dedupe(reasons: seq<Reason>): seq<Reason> {
    if reasons == [] then []
    else
      var first, last := Dedupe(reasons[..|reasons| - 1]), reasons[|reasons| - 1];
      if last in first then first else first + [last]
  }

  function MaxOf(xs: seq<int>): Option<int> {
    if xs == [] then None
    else match MaxOf(xs[..|xs| - 1])
         case None => Some(xs[|xs| - 1])
         case Some(m) => Some(Max(m, xs[|xs| - 1]))
  }

  function MinOf(xs: seq<int>): Option<int> {
    if xs == [] then None
    else match MinOf(xs[..|xs| - 1])
         case None => Some(xs[|xs| - 1])
         case Some(m) => Some(Min(m, xs[|xs| - 1]))
  }

  function WantedColours(items: Items, n: nat): set<string> {
    set i | 0 <= i < n && i < |items| && Is(items, i, Color) && !NegatedColour(items, i) :: items[i].value
  }

  function ExcludedColours(items: Items, n: nat): set<string> {
    set i | 0 <= i < n && i < |items| && NegatedColour(items, i) :: items[i].value
  }

  function ValuesUpTo(items: Items, kind: Kind, n: nat): set<string> {
    set i | 0 <= i < n && i < |items| && Is(items, i, kind) :: items[i].value
  }

  /** The meaning of a segmented query, each item judged by its neighbours alone. */
  function Meaning(items: Items): ParsedQuery
    requires NumbersParse(items)
  {
    var n := |items|;
    ParsedQuery(
      ValuesUpTo(items, Category, n), WantedColours(items, n), ExcludedColours(items, n),
      ValuesUpTo(items, Material, n),
      MaxOf(Lows(Clauses(items, n))), MinOf(Highs(Clauses(items, n))),
      exists i :: 0 <= i < n && Is(items, i, InStock),
      Texts(items, n),
      Dedupe(NumberReasons(items, n) + LeftoverReasons(items, n)))
  }

  // ---- the parser, which remembers what it has used ----------------------------------------------

  /** What visiting an item marks as used: the other parts of its range, or its operator. */
  function UsedBy(items: Items, i: int): set<int> {
    if RangeLow(items, i) then {i - 1, i + 1, i + 2}
    else if Single(items, i) && OpOf(items, i).Some? then {OpOf(items, i).value}
    else {}
  }

  function UsedUpTo(items: Items, n: nat): set<int> {
    set i, j | 0 <= i < n && j in UsedBy(items, i) :: j
  }

  /** A number is already used when it is visited exactly when it closes a range; and the operator of a single number
      never is, so the parser's second test on it never fires. */
  lemma UsedIsLocal(items: Items, i: nat)
    requires i < |items| && Is(items, i, Num)
    ensures i in UsedUpTo(items, i) <==> RangeHigh(items, i)
    ensures !RangeLow(items, i) && OpOf(items, i).Some? ==> OpOf(items, i).value !in UsedUpTo(items, i)
  {
    if RangeHigh(items, i) {
      assert i in UsedBy(items, i - 2);
    }
  }

  /** After the whole pass, an operator is used exactly when it is attached, and a range start when its range is
      complete. */
  lemma UsedAtEnd(items: Items, j: nat)
    requires j < |items|
    ensures IsOp(items, j) ==> (j in UsedUpTo(items, |items|) <==> !Dangling(items, j))
    ensures Is(items, j, BetweenStart) ==> (j in UsedUpTo(items, |items|) <==> RangeLow(items, j + 1))
  {
    assert RangeLow(items, j + 1) ==> j in UsedBy(items, j + 1);
    assert Attached(items, j, j + 1) ==> j in UsedBy(items, j + 1);
    assert Attached(items, j, j - 1) ==> j in UsedBy(items, j - 1);
  }

  // ---- one item's contribution -------------------------------------------------------------------

  function LowPart(items: Items, i: int): seq<int>
    requires NumbersParse(items)
  {
    if StatesPrice(items, i) && ClauseAt(items, i).Some?
    then match ClauseAt(items, i).value case AtLeast(n) => [n] case AtMost(_) => [] case Between(a, _) => [a]
    else []
  }

  function HighPart(items: Items, i: int): seq<int>
    requires NumbersParse(items)
  {
    if StatesPrice(items, i) && ClauseAt(items, i).Some?
    then match ClauseAt(items, i).value case AtLeast(_) => [] case AtMost(n) => [n] case Between(_, b) => [b]
    else []
  }

  lemma LowsAppend(clauses: seq<Clause>, clause: Clause)
    ensures Lows(clauses + [clause])
        == Lows(clauses) + (match clause case AtLeast(n) => [n] case AtMost(_) => [] case Between(a, _) => [a])
    ensures Highs(clauses + [clause])
        == Highs(clauses) + (match clause case AtLeast(_) => [] case AtMost(n) => [n] case Between(_, b) => [b])
  {
    assert (clauses + [clause])[..|clauses|] == clauses;
  }

  lemma BoundsNext(items: Items, i: nat)
    requires NumbersParse(items) && i < |items|
    ensures Lows(Clauses(items, i + 1)) == Lows(Clauses(items, i)) + LowPart(items, i)
    ensures Highs(Clauses(items, i + 1)) == Highs(Clauses(items, i)) + HighPart(items, i)
  {
    var before := Clauses(items, i);
    if StatesPrice(items, i) && ClauseAt(items, i).Some? {
      LowsAppend(before, ClauseAt(items, i).value);
      assert Clauses(items, i + 1) == before + [ClauseAt(items, i).value];
    } else {
      assert Clauses(items, i + 1) == before + [];
      assert before + [] == before;
    }
  }

  lemma UsedNext(items: Items, n: nat)
    ensures UsedUpTo(items, n + 1) == UsedUpTo(items, n) + UsedBy(items, n)
  {
  }

  /** The running price bounds, text and reasons after visiting n items, and the positions used so far. */
  ghost predicate Visited(
    items: Items, n: int, used: set<int>, mins: seq<int>, maxs: seq<int>, text: seq<string>, unsupported: seq<Reason>)
    requires NumbersParse(items)
  {
    && 0 <= n <= |items|
    && used == UsedUpTo(items, n)
    && mins == Lows(Clauses(items, n))
    && maxs == Highs(Clauses(items, n))
    && text == Texts(items, n)
    && unsupported == NumberReasons(items, n)
  }

  lemma VisitedNext(
    items: Items, i: nat, used: set<int>, mins: seq<int>, maxs: seq<int>, text: seq<string>, unsupported: seq<Reason>)
    requires NumbersParse(items) && i < |items|
    requires Visited(items, i, used, mins, maxs, text, unsupported)
    ensures Visited(items, i + 1, used + UsedBy(items, i), mins + LowPart(items, i), maxs + HighPart(items, i),
                    text + (if Is(items, i, Word) || (Single(items, i) && OpOf(items, i).None?)
                            then [items[i].value] else []),
                    unsupported + (if StatesPrice(items, i) && ClauseAt(items, i).None? then [PriceOutOfRange] else []))
  {
    UsedNext(items, i);
    BoundsNext(items, i);
  }

  /** Whatever is no number leaves prices alone; only words are text. */
  lemma OtherNext(
    items: Items, i: nat, used: set<int>, mins: seq<int>, maxs: seq<int>, text: seq<string>, unsupported: seq<Reason>)
    requires NumbersParse(items) && i < |items| && !Is(items, i, Num)
    requires Visited(items, i, used, mins, maxs, text, unsupported)
    ensures Visited(items, i + 1, used, mins, maxs,
                    if Is(items, i, Word) then text + [items[i].value] else text, unsupported)
  {
    VisitedNext(items, i, used, mins, maxs, text, unsupported);
    assert used + UsedBy(items, i) == used;
    assert mins + LowPart(items, i) == mins && maxs + HighPart(items, i) == maxs;
    assert text + [] == text && unsupported + [] == unsupported;
  }

  /** One number: the high end of a finished range is skipped; a low end takes its range; a single number takes its
      operator unless that is used already; a bare number is text, never guessed as a price. */
  method VisitNumber(
    items: Items, i: nat, used0: set<int>, mins0: seq<int>, maxs0: seq<int>, text0: seq<string>,
    unsupported0: seq<Reason>)
    returns (mins: seq<int>, maxs: seq<int>, text: seq<string>, unsupported: seq<Reason>, used: set<int>)
    requires NumbersParse(items) && i < |items| && Is(items, i, Num) && used0 == UsedUpTo(items, i)
    ensures used == used0 + UsedBy(items, i)
    ensures mins == mins0 + LowPart(items, i) && maxs == maxs0 + HighPart(items, i)
    ensures text == text0 + (if Single(items, i) && OpOf(items, i).None? then [items[i].value] else [])
    ensures unsupported == unsupported0
        + (if StatesPrice(items, i) && ClauseAt(items, i).None? then [PriceOutOfRange] else [])
  {
    used, mins, maxs, text, unsupported := used0, mins0, maxs0, text0, unsupported0;
    UsedIsLocal(items, i);
    if i in used {
      return;
    }
    var amount := Amount(items[i].value);
    if Is(items, i - 1, BetweenStart) && Is(items, i + 1, BetweenJoiner) && Is(items, i + 2, Num) {
      var high := Amount(items[i + 2].value);
      used := used + {i - 1, i + 1, i + 2};
      if amount.None? || high.None? {
        unsupported := unsupported + [PriceOutOfRange];
      } else {
        mins := mins + [Min(amount.value, high.value)];
        maxs := maxs + [Max(amount.value, high.value)];
      }
      return;
    }
    var op := OpOf(items, i);
    if op.None? || op.value in used {
      text := text + [items[i].value];
      return;
    }
    used := used + {op.value};
    if amount.None? {
      unsupported := unsupported + [PriceOutOfRange];
    } else if Is(items, op.value, MaxBefore) || Is(items, op.value, MaxAfter) {
      maxs := maxs + [amount.value];
    } else {
      mins := mins + [amount.value];
    }
  }

  /** The facets gathered from the first n items. */
  datatype Facets = Facets(categories: set<string>, colors: set<string>, exclude: set<string>, materials: set<string>,
                           inStock: bool)

  function FacetsOf(items: Items, n: nat): Facets {
    Facets(ValuesUpTo(items, Category, n), WantedColours(items, n), ExcludedColours(items, n),
           ValuesUpTo(items, Material, n),
           exists j :: 0 <= j < n && Is(items, j, InStock))
  }

  function Gather(items: Items, i: nat, f: Facets): Facets
    requires i < |items|
  {
    var value := items[i].value;
    match items[i].kind
    case Color =>
      if NegatedColour(items, i) then f.(exclude := f.exclude + {value}) else f.(colors := f.colors + {value})
    case Category => f.(categories := f.categories + {value})
    case Material => f.(materials := f.materials + {value})
    case InStock => f.(inStock := true)
    case _ => f
  }

  lemma ValuesNext(items: Items, kind: Kind, i: nat)
    requires i < |items|
    ensures ValuesUpTo(items, kind, i + 1)
        == ValuesUpTo(items, kind, i) + (if Is(items, i, kind) then {items[i].value} else {})
  {
  }

  lemma ColoursNext(items: Items, i: nat)
    requires i < |items|
    ensures WantedColours(items, i + 1) ==
            WantedColours(items, i) + (if Is(items, i, Color) && !NegatedColour(items, i) then {items[i].value} else {})
    ensures ExcludedColours(items, i + 1)
        == ExcludedColours(items, i) + (if NegatedColour(items, i) then {items[i].value} else {})
  {
  }

  lemma GatheredNext(items: Items, i: nat, f: Facets)
    requires i < |items| && f == FacetsOf(items, i)
    ensures FacetsOf(items, i + 1) == Gather(items, i, f)
    ensures items[i].kind.Num? ==> FacetsOf(items, i + 1) == f
  {
    ValuesNext(items, Category, i);
    ValuesNext(items, Material, i);
    ColoursNext(items, i);
    assert Is(items, i, InStock) <==> items[i].kind.InStock?;
  }

  /** Only operators and parts of ranges are ever used, so skipping a used item loses nothing. */
  lemma UsedIsNoFacet(items: Items, i: nat, f: Facets)
    requires i < |items| && i in UsedUpTo(items, i)
    ensures Gather(items, i, f) == f && !Is(items, i, Word)
  {
    assert IsOp(items, i) || Is(items, i, BetweenStart) || Is(items, i, BetweenJoiner) || Is(items, i, Num);
  }

  /** Attach operators and range ends to numbers, and collect everything else. */
  method FirstPass(items: Items)
    returns (facets: Facets, used: set<int>, mins: seq<int>, maxs: seq<int>, text: seq<string>,
             unsupported: seq<Reason>)
    requires NumbersParse(items)
    ensures facets == FacetsOf(items, |items|)
    ensures Visited(items, |items|, used, mins, maxs, text, unsupported)
  {
    mins, maxs, text, unsupported, used := [], [], [], [], {};
    facets := Facets({}, {}, {}, {}, false);
    for i := 0 to |items|
      invariant Visited(items, i, used, mins, maxs, text, unsupported)
      invariant facets == FacetsOf(items, i)
    {
      GatheredNext(items, i, facets);
      if items[i].kind.Num? {
        VisitedNext(items, i, used, mins, maxs, text, unsupported);
        mins, maxs, text, unsupported, used := VisitNumber(items, i, used, mins, maxs, text, unsupported);
        continue;
      }
      OtherNext(items, i, used, mins, maxs, text, unsupported);
      if i in used {
        UsedIsNoFacet(items, i, facets);
      } else {
        facets := Gather(items, i, facets);
        if items[i].kind.Word? {
          text := text + [items[i].value];
        }
      }
    }
  }

  /** Report what no number took: only colours can be negated, and nothing understood is dropped in silence. */
  method SecondPass(items: Items, used: set<int>) returns (unsupported: seq<Reason>)
    requires used == UsedUpTo(items, |items|)
    ensures unsupported == LeftoverReasons(items, |items|)
  {
    unsupported := [];
    for i := 0 to |items|
      invariant unsupported == LeftoverReasons(items, i)
    {
      UsedAtEnd(items, i);
      if (Is(items, i, NegBefore) && !Is(items, i + 1, Color)) || (Is(items, i, NegAfter) && !Is(items, i - 1, Color)) {
        unsupported := unsupported + [NegationNotForColour];
      } else if IsOp(items, i) && i !in used {
        unsupported := unsupported + [OperatorWithoutNumber];
      } else if Is(items, i, BetweenStart) && i !in used {
        unsupported := unsupported + [IncompleteRange];
      }
    }
  }

  method ParseItems(items: Items) returns (q: ParsedQuery)
    requires NumbersParse(items)
    ensures q == Meaning(items)
  {
    var f, used, mins, maxs, text, unsupported := FirstPass(items);
    var leftover := SecondPass(items, used);
    q := ParsedQuery(f.categories, f.colors, f.exclude, f.materials, MaxOf(mins), MinOf(maxs), f.inStock, text,
                     Dedupe(unsupported + leftover));
  }

  /** Stop words and currency words carry no meaning. */
  function Meaningful(items: Items): Items {
    if items == [] then []
    else if items[0].kind.Stop? || items[0].kind.CurrencyWord? then Meaningful(items[1..])
    else [items[0]] + Meaningful(items[1..])
  }

  lemma {:induction false} MeaningfulMembers(items: Items, item: Item)
    ensures item in Meaningful(items) <==> item in items && !item.kind.Stop? && !item.kind.CurrencyWord?
  {
    if items != [] {
      MeaningfulMembers(items[1..], item);
      assert items == [items[0]] + items[1..];
    }
  }

  /** A valid vocabulary yields number items only for number tokens. */
  lemma SegmentedNumbersParse(tokens: Tokens, vocab: Vocabulary)
    requires vocab.Valid()
    ensures NumbersParse(Meaningful(SegmentItems(tokens, vocab)))
  {
    var items := SegmentItems(tokens, vocab);
    ItemsNamePhrases(tokens, vocab);
    forall item | item in Meaningful(items) && item.kind.Num?
      ensures IsNumber(item.value)
    {
      MeaningfulMembers(items, item);
      var k :| 0 <= k < |items| && items[k] == item;
      assert item == ItemOf(Phrases(tokens, vocab)[k], vocab);
    }
  }

  method ParseQuery(tokens: Tokens, vocab: Vocabulary) returns (q: ParsedQuery)
    requires vocab.Valid()
    ensures NumbersParse(Meaningful(SegmentItems(tokens, vocab)))
        && q == Meaning(Meaningful(SegmentItems(tokens, vocab)))
  {
    var items := Segment(tokens, vocab);
    SegmentedNumbersParse(tokens, vocab);
    q := ParseItems(Meaningful(items));
  }
}
