/** What the parser promises about a query it accepts: all of it is accounted for, and prices mean what was said. */
module QueryTheorems {
  import opened CatalogQuery
  import opened QueryParser
  import CatalogSearch

  /** Holds of every index below n; the claim itself is kept as a value so that proofs unfold it one index at a time. */
  predicate AllUpTo(ok: int -> bool, n: nat) {
    n == 0 || (AllUpTo(ok, n - 1) && ok(n - 1))
  }

  lemma {:induction false} AllUpToMeans(ok: int -> bool, n: nat)
    ensures AllUpTo(ok, n) <==> forall i | 0 <= i < n :: ok(i)
  {
    if n > 0 {
      AllUpToMeans(ok, n - 1);
    }
  }

  // ---- prices ------------------------------------------------------------------------------------

  predicate AboveAll(price: int, xs: seq<int>) {
    forall n | n in xs :: price >= n
  }

  predicate BelowAll(price: int, xs: seq<int>) {
    forall n | n in xs :: price <= n
  }

  lemma AllAppend(price: int, xs: seq<int>, ys: seq<int>)
    ensures AboveAll(price, xs + ys) <==> AboveAll(price, xs) && AboveAll(price, ys)
    ensures BelowAll(price, xs + ys) <==> BelowAll(price, xs) && BelowAll(price, ys)
  {
    assert forall n :: n in xs + ys <==> n in xs || n in ys;
  }

  lemma AllSingle(price: int, n: int)
    ensures AboveAll(price, [n]) <==> price >= n
    ensures BelowAll(price, [n]) <==> price <= n
  {
    assert n in [n];
  }

  lemma {:induction false} MaxIsGreatest(xs: seq<int>, price: int)
    ensures (MaxOf(xs).Some? ==> price >= MaxOf(xs).value) <==> AboveAll(price, xs)
    ensures MaxOf(xs).None? <==> xs == []
  {
    if xs != [] {
      var init, last := xs[..|xs| - 1], xs[|xs| - 1];
      MaxIsGreatest(init, price);
      AllAppend(price, init, [last]);
      AllSingle(price, last);
      assert xs == init + [last];
    }
  }

  lemma {:induction false} MinIsLeast(xs: seq<int>, price: int)
    ensures (MinOf(xs).Some? ==> price <= MinOf(xs).value) <==> BelowAll(price, xs)
    ensures MinOf(xs).None? <==> xs == []
  {
    if xs != [] {
      var init, last := xs[..|xs| - 1], xs[|xs| - 1];
      MinIsLeast(init, price);
      AllAppend(price, init, [last]);
      AllSingle(price, last);
      assert xs == init + [last];
    }
  }

  /** The price meets whatever clause the item states. */
  predicate MeetsAt(items: Items, price: int, i: int)
    requires NumbersParse(items)
  {
    StatesPrice(items, i) && ClauseAt(items, i).Some? ==> Meets(price, ClauseAt(items, i).value)
  }

  lemma PartsMeet(items: Items, price: int, i: nat)
    requires NumbersParse(items) && i < |items|
    ensures AboveAll(price, LowPart(items, i)) && BelowAll(price, HighPart(items, i)) <==> MeetsAt(items, price, i)
  {
    if StatesPrice(items, i) && ClauseAt(items, i).Some? {
      match ClauseAt(items, i).value
      case AtLeast(n) => assert n in LowPart(items, i);
      case AtMost(n) => assert n in HighPart(items, i);
      case Between(a, b) => assert a in LowPart(items, i) && b in HighPart(items, i);
    }
  }

  predicate BoundsPass(items: Items, price: int, n: nat)
    requires NumbersParse(items) && n <= |items|
  {
    AboveAll(price, Lows(Clauses(items, n))) && BelowAll(price, Highs(Clauses(items, n)))
  }

  lemma BoundsStep(items: Items, price: int, n: nat)
    requires NumbersParse(items) && n < |items|
    ensures BoundsPass(items, price, n + 1) <==> BoundsPass(items, price, n) && MeetsAt(items, price, n)
  {
    BoundsNext(items, n);
    AllAppend(price, Lows(Clauses(items, n)), LowPart(items, n));
    AllAppend(price, Highs(Clauses(items, n)), HighPart(items, n));
    PartsMeet(items, price, n);
  }

  lemma {:induction false} BoundsMeet(items: Items, price: int, n: nat, meets: int -> bool)
    requires NumbersParse(items) && n <= |items|
    requires forall i :: meets(i) <==> MeetsAt(items, price, i)
    ensures BoundsPass(items, price, n) <==> AllUpTo(meets, n)
  {
    if n > 0 {
      BoundsMeet(items, price, n - 1, meets);
      BoundsStep(items, price, n - 1);
    }
  }

  /** A price passes the query's bounds exactly when it meets every price clause of the text, however many there are. */
  lemma PriceMeansWhatWasSaid(items: Items, price: int)
    requires NumbersParse(items)
    ensures CatalogSearch.PriceWithin(Meaning(items), price)
        <==> forall i | 0 <= i < |items| :: MeetsAt(items, price, i)
  {
    var meets := (i: int) => NumbersParse(items) && MeetsAt(items, price, i);
    BoundsMeet(items, price, |items|, meets);
    AllUpToMeans(meets, |items|);
    MaxIsGreatest(Lows(Clauses(items, |items|)), price);
    MinIsLeast(Highs(Clauses(items, |items|)), price);
    assert (forall i | 0 <= i < |items| :: MeetsAt(items, price, i)) <==> (forall i | 0 <= i < |items| :: meets(i));
  }

  // ---- when a query is refused -------------------------------------------------------------------

  lemma {:induction false} DedupeKeepsMembers(reasons: seq<Reason>, r: Reason)
    ensures r in Dedupe(reasons) <==> r in reasons
  {
    if reasons != [] {
      DedupeKeepsMembers(reasons[..|reasons| - 1], r);
      assert reasons == reasons[..|reasons| - 1] + [reasons[|reasons| - 1]];
    }
  }

  predicate OutOfRange(items: Items, i: int)
    requires NumbersParse(items)
  {
    StatesPrice(items, i) && ClauseAt(items, i).None?
  }

  predicate LeftOver(items: Items, i: int) {
    LeftoverReason(items, i) != []
  }

  lemma {:induction false} NumberReasonsMeaning(items: Items, n: nat, ok: int -> bool)
    requires NumbersParse(items) && n <= |items|
    requires forall i :: ok(i) <==> !OutOfRange(items, i)
    ensures NumberReasons(items, n) == [] <==> AllUpTo(ok, n)
  {
    if n > 0 {
      NumberReasonsMeaning(items, n - 1, ok);
      assert ok(n - 1) <==> !OutOfRange(items, n - 1);
    }
  }

  lemma {:induction false} LeftoverReasonsNext(items: Items, n: nat)
    requires n < |items|
    ensures LeftoverReasons(items, n + 1) == [] <==> LeftoverReasons(items, n) == [] && !LeftOver(items, n)
  {
    assert LeftoverReasons(items, n + 1) == LeftoverReasons(items, n) + LeftoverReason(items, n);
  }

  lemma {:induction false} LeftoverReasonsMeaning(items: Items, n: nat, ok: int -> bool)
    requires n <= |items|
    requires forall i :: ok(i) <==> !LeftOver(items, i)
    ensures LeftoverReasons(items, n) == [] <==> AllUpTo(ok, n)
  {
    if n > 0 {
      LeftoverReasonsMeaning(items, n - 1, ok);
      LeftoverReasonsNext(items, n - 1);
      assert ok(n - 1) <==> !LeftOver(items, n - 1);
    }
  }

  /** The item is put to use: its constraint is in the result, or it is an operator that some number took. */
  ghost predicate Accounted(items: Items, q: ParsedQuery, i: int)
    requires NumbersParse(items) && 0 <= i < |items|
  {
    var value := items[i].value;
    match items[i].kind
    case Category => value in q.categories
    case Color => if NegatedColour(items, i) then value in q.excludeColors else value in q.colors
    case Material => value in q.materials
    case InStock => q.inStock
    case Word => value in q.text
    case Num =>
      if RangeHigh(items, i) then ClauseAt(items, i - 2).Some?
      else if StatesPrice(items, i) then ClauseAt(items, i).Some?
      else value in q.text
    case MaxBefore => Attached(items, i, i + 1)
    case MinBefore => Attached(items, i, i + 1)
    case MaxAfter => Attached(items, i, i - 1)
    case MinAfter => Attached(items, i, i - 1)
    case BetweenStart => RangeLow(items, i + 1)
    case NegBefore => Is(items, i + 1, Color) && items[i + 1].value in q.excludeColors
    case NegAfter => Is(items, i - 1, Color) && items[i - 1].value in q.excludeColors
    case _ => true   // a joiner outside a range is just a conjunction
  }

  lemma {:induction false} TextsHold(items: Items, n: nat, i: nat)
    requires i < n <= |items|
    ensures Is(items, i, Word) || (Single(items, i) && OpOf(items, i).None?) ==> items[i].value in Texts(items, n)
  {
    if i < n - 1 {
      TextsHold(items, n - 1, i);
    }
  }

  /** An operator can only be attached to the number on its own side. */
  lemma AttachedSide(items: Items, op: int, number: int)
    requires Attached(items, op, number)
    ensures OpBefore(items, op) ==> number == op + 1
    ensures OpAfter(items, op) ==> number == op - 1
    ensures IsOp(items, op)
  {
  }

  /** So every operator serves at most one number. */
  lemma OneNumberPerOperator(items: Items, op: int, a: int, b: int)
    requires Attached(items, op, a) && Attached(items, op, b)
    ensures a == b
  {
    AttachedSide(items, op, a);
    AttachedSide(items, op, b);
  }

  /** Facets, free words and stock wishes are never lost, accepted query or not. */
  lemma FacetIsAccounted(items: Items, i: nat)
    requires NumbersParse(items) && i < |items|
    requires items[i].kind.Category? || items[i].kind.Color? || items[i].kind.Material? || items[i].kind.InStock?
        || items[i].kind.Word?
    ensures Accounted(items, Meaning(items), i)
  {
    TextsHold(items, |items|, i);
    assert Is(items, i, items[i].kind);
  }

  lemma NumberIsAccounted(items: Items, i: nat)
    requires NumbersParse(items) && i < |items| && items[i].kind.Num?
    requires forall j | 0 <= j < |items| :: !OutOfRange(items, j)
    ensures Accounted(items, Meaning(items), i)
  {
    TextsHold(items, |items|, i);
    assert !OutOfRange(items, i);
    assert RangeHigh(items, i) ==> StatesPrice(items, i - 2) && !OutOfRange(items, i - 2);
  }

  lemma OperatorIsAccounted(items: Items, i: nat)
    requires NumbersParse(items) && i < |items| && !LeftOver(items, i)
    requires IsOp(items, i) || items[i].kind.BetweenStart? || items[i].kind.NegBefore? || items[i].kind.NegAfter?
    ensures Accounted(items, Meaning(items), i)
  {
    if IsOp(items, i) {
      var number := if Attached(items, i, i + 1) then i + 1 else i - 1;
      AttachedSide(items, i, number);
    } else if items[i].kind.NegBefore? {
      assert NegatedColour(items, i + 1);
    } else if items[i].kind.NegAfter? {
      assert NegatedColour(items, i - 1);
    }
  }

  /** A query is accepted exactly when every amount is in range and every operator, range start and negation found
      what it needs. */
  lemma AcceptedIff(items: Items)
    requires NumbersParse(items)
    ensures Meaning(items).unsupported == [] <==>
      forall i | 0 <= i < |items| :: !OutOfRange(items, i) && !LeftOver(items, i)
  {
    var inRange := (i: int) => NumbersParse(items) && !OutOfRange(items, i);
    var taken := (i: int) => !LeftOver(items, i);
    var reasons := NumberReasons(items, |items|) + LeftoverReasons(items, |items|);
    NumberReasonsMeaning(items, |items|, inRange);
    LeftoverReasonsMeaning(items, |items|, taken);
    AllUpToMeans(taken, |items|);
    AllUpToMeans(inRange, |items|);
    if reasons != [] {
      DedupeKeepsMembers(reasons, reasons[0]);
    }
    assert (forall i | 0 <= i < |items| :: inRange(i) && taken(i)) <==>
           (forall i | 0 <= i < |items| :: !OutOfRange(items, i) && !LeftOver(items, i));
  }

  /** In an accepted query nothing that was understood is dropped. */
  lemma NothingIsDropped(items: Items, i: nat)
    requires NumbersParse(items) && i < |items|
    requires Meaning(items).unsupported == []
    ensures Accounted(items, Meaning(items), i)
  {
    AcceptedIff(items);
    match items[i].kind
    case Num => NumberIsAccounted(items, i);
    case Category => FacetIsAccounted(items, i);
    case Color => FacetIsAccounted(items, i);
    case Material => FacetIsAccounted(items, i);
    case InStock => FacetIsAccounted(items, i);
    case Word => FacetIsAccounted(items, i);
    case BetweenJoiner =>
    case CurrencyWord =>
    case Stop =>
    case _ => OperatorIsAccounted(items, i);
  }

  lemma AccountedHasItsClause(items: Items, q: ParsedQuery, i: nat)
    requires NumbersParse(items) && i < |items| && Accounted(items, q, i)
    ensures !OutOfRange(items, i)
  {
  }

  lemma AccountedLeavesNothing(items: Items, q: ParsedQuery, i: nat)
    requires NumbersParse(items) && i < |items| && Accounted(items, q, i)
    ensures !LeftOver(items, i)
  {
  }

  /** And conversely, when every item is accounted for, the query is accepted. */
  lemma AllAccountedIsAccepted(items: Items)
    requires NumbersParse(items)
    requires forall i | 0 <= i < |items| :: Accounted(items, Meaning(items), i)
    ensures Meaning(items).unsupported == []
  {
    forall i | 0 <= i < |items|
      ensures !OutOfRange(items, i) && !LeftOver(items, i)
    {
      AccountedHasItsClause(items, Meaning(items), i);
      AccountedLeavesNothing(items, Meaning(items), i);
    }
    AcceptedIff(items);
  }
}
