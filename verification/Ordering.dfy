/** Stable sorting and the catalogue's key order. */
module Ordering {

  /** (created_at, id): the position of a product in the catalogue. */
  datatype Key = Key(created: int, id: nat)
  {
    predicate Less(other: Key) {
      created < other.created || (created == other.created && id < other.id)
    }
  }

  // ---- a stable sort -----------------------------------------------------------------------------

  /** Put x in front of the first element that must not precede it. */
  function Insert<T>(x: T, xs: seq<T>, before: (T, T) -> bool): seq<T> {
    if xs == [] || !before(xs[0], x) then [x] + xs else [xs[0]] + Insert(x, xs[1..], before)
  }

  /** The stable sort: elements neither of which is before the other keep their order. */
  function Sort<T>(xs: seq<T>, before: (T, T) -> bool): seq<T> {
    if xs == [] then [] else Insert(xs[0], Sort(xs[1..], before), before)
  }

  ghost predicate Ordered<T>(xs: seq<T>, before: (T, T) -> bool) {
    forall i, j | 0 <= i < j < |xs| :: before(xs[i], xs[j])
  }

  /** Nothing stands behind an element it must precede. */
  ghost predicate Sorted<T>(xs: seq<T>, before: (T, T) -> bool) {
    forall i, j | 0 <= i < j < |xs| :: !before(xs[j], xs[i])
  }

  /** A strict weak order: asymmetric, with a transitive complement. */
  ghost predicate StrictWeak<T(!new)>(before: (T, T) -> bool) {
    && (forall a, b :: before(a, b) ==> !before(b, a))
    && (forall a, b, c :: before(a, c) ==> before(a, b) || before(b, c))
  }

  /** First by one order, then by another. */
  function Then<T>(first: (T, T) -> bool, second: (T, T) -> bool): (T, T) -> bool {
    (a, b) => first(a, b) || (!first(b, a) && second(a, b))
  }

  lemma {:induction false} InsertKeepsElements<T>(x: T, xs: seq<T>, before: (T, T) -> bool)
    ensures multiset(Insert(x, xs, before)) == multiset{x} + multiset(xs)
    ensures |Insert(x, xs, before)| == |xs| + 1
  {
    if xs != [] && before(xs[0], x) {
      InsertKeepsElements(x, xs[1..], before);
      assert xs == [xs[0]] + xs[1..];
    }
  }

  lemma {:induction false} SortKeepsElements<T>(xs: seq<T>, before: (T, T) -> bool)
    ensures multiset(Sort(xs, before)) == multiset(xs)
    ensures |Sort(xs, before)| == |xs|
  {
    if xs != [] {
      SortKeepsElements(xs[1..], before);
      InsertKeepsElements(xs[0], Sort(xs[1..], before), before);
      assert xs == [xs[0]] + xs[1..];
    }
  }

  lemma SortKeepsMembers<T>(xs: seq<T>, before: (T, T) -> bool, x: T)
    ensures x in Sort(xs, before) <==> x in xs
  {
    SortKeepsElements(xs, before);
    assert x in multiset(Sort(xs, before)) <==> x in multiset(xs);
  }

  /** Inserting an element that the tie-break puts in front of all others keeps a list sorted by both orders. */
  lemma {:induction false} InsertIsStable<T(!new)>(x: T, xs: seq<T>, first: (T, T) -> bool, second: (T, T) -> bool)
    requires StrictWeak(first)
    requires Sorted(xs, Then(first, second))
    requires forall y | y in xs :: !second(y, x)
    ensures Sorted(Insert(x, xs, first), Then(first, second))
  {
    var r := Insert(x, xs, first);
    if xs == [] || !first(xs[0], x) {
      forall i, j | 0 <= i < j < |r|
        ensures !Then(first, second)(r[j], r[i])
      {
        if i == 0 && j > 1 {
          assert !Then(first, second)(xs[j - 1], xs[0]);
        }
        assert r[j] == xs[j - 1];
        assert r[j] in xs;
      }
    } else {
      var rest := Insert(x, xs[1..], first);
      assert forall y | y in xs[1..] :: y in xs;
      InsertIsStable(x, xs[1..], first, second);
      InsertKeepsElements(x, xs[1..], first);
      forall i, j | 0 <= i < j < |r|
        ensures !Then(first, second)(r[j], r[i])
      {
        if i == 0 {
          assert r[j] == rest[j - 1] && rest[j - 1] in multiset(rest);
          if r[j] != x {
            assert r[j] in xs[1..];
          }
        } else {
          assert r[i] == rest[i - 1] && r[j] == rest[j - 1];
        }
      }
    }
  }

  /** Sorting by one order what is already sorted by another sorts by both, the new order first. */
  lemma {:induction false} StableSort<T(!new)>(xs: seq<T>, first: (T, T) -> bool, second: (T, T) -> bool)
    requires StrictWeak(first)
    requires Sorted(xs, second)
    ensures Sorted(Sort(xs, first), Then(first, second))
  {
    if xs != [] {
      StableSort(xs[1..], first, second);
      forall y | y in Sort(xs[1..], first)
        ensures !second(y, xs[0])
      {
        SortKeepsMembers(xs[1..], first, y);
        var j :| 0 <= j < |xs[1..]| && xs[1..][j] == y;
        assert y == xs[j + 1];
      }
      InsertIsStable(xs[0], Sort(xs[1..], first), first, second);
    }
  }

  /** In particular, the sort sorts. */
  lemma SortSorts<T(!new)>(xs: seq<T>, before: (T, T) -> bool)
    requires StrictWeak(before)
    ensures Sorted(Sort(xs, before), before)
  {
    var none := (a: T, b: T) => false;
    StableSort(xs, before, none);
    assert forall a, b :: before(a, b) ==> Then(before, none)(a, b);
  }

  // ---- elements with distinct tags ---------------------------------------------------------------

  /** No two elements carry the same tag, such as a primary key. */
  ghost predicate Distinct<T>(xs: seq<T>, tag: T -> nat) {
    forall i, j | 0 <= i < j < |xs| :: tag(xs[i]) != tag(xs[j])
  }

  lemma {:induction false} InsertKeepsDistinct<T(!new)>(x: T, xs: seq<T>, before: (T, T) -> bool, tag: T -> nat)
    requires Distinct(xs, tag) && forall y | y in xs :: tag(y) != tag(x)
    ensures Distinct(Insert(x, xs, before), tag)
  {
    if xs != [] && before(xs[0], x) {
      assert forall y | y in xs[1..] :: y in xs;
      InsertKeepsDistinct(x, xs[1..], before, tag);
      var inserted := Insert(x, xs[1..], before);
      forall y | y in inserted
        ensures tag(y) != tag(xs[0])
      {
        InsertKeepsElements(x, xs[1..], before);
        assert y in multiset(inserted);
        if y != x {
          assert y in xs[1..];
          var j :| 0 <= j < |xs[1..]| && xs[1..][j] == y;
          assert y == xs[j + 1];
        }
      }
    }
  }

  lemma {:induction false} SortKeepsDistinct<T(!new)>(xs: seq<T>, before: (T, T) -> bool, tag: T -> nat)
    requires Distinct(xs, tag)
    ensures Distinct(Sort(xs, before), tag)
  {
    if xs != [] {
      assert forall i | 0 <= i < |xs[1..]| :: xs[1..][i] == xs[i + 1];
      SortKeepsDistinct(xs[1..], before, tag);
      forall y | y in Sort(xs[1..], before)
        ensures tag(y) != tag(xs[0])
      {
        SortKeepsMembers(xs[1..], before, y);
        var j :| 0 <= j < |xs[1..]| && xs[1..][j] == y;
      }
      InsertKeepsDistinct(xs[0], Sort(xs[1..], before), before, tag);
    }
  }

  lemma {:induction false} FilterKeepsDistinct<T(!new)>(xs: seq<T>, keep: T -> bool, tag: T -> nat)
    requires Distinct(xs, tag)
    ensures Distinct(Filter(xs, keep), tag)
  {
    if xs != [] {
      assert forall i | 0 <= i < |xs[1..]| :: xs[1..][i] == xs[i + 1];
      FilterKeepsDistinct(xs[1..], keep, tag);
      forall y | y in Filter(xs[1..], keep)
        ensures tag(y) != tag(xs[0])
      {
        FilterMembers(xs[1..], keep, y);
        var j :| 0 <= j < |xs[1..]| && xs[1..][j] == y;
      }
    }
  }

  /** Distinct elements that the sort can tell apart end up strictly ordered. */
  lemma SortOrders<T(!new)>(xs: seq<T>, before: (T, T) -> bool, tag: T -> nat)
    requires StrictWeak(before) && Distinct(xs, tag)
    requires forall a, b :: tag(a) != tag(b) ==> before(a, b) || before(b, a)
    ensures Ordered(Sort(xs, before), before)
  {
    SortSorts(xs, before);
    SortKeepsDistinct(xs, before, tag);
  }

  // ---- filtering ---------------------------------------------------------------------------------

  function Filter<T>(xs: seq<T>, keep: T -> bool): seq<T> {
    if xs == [] then []
    else if keep(xs[0]) then [xs[0]] + Filter(xs[1..], keep)
    else Filter(xs[1..], keep)
  }

  lemma {:induction false} FilterMembers<T>(xs: seq<T>, keep: T -> bool, x: T)
    ensures x in Filter(xs, keep) <==> x in xs && keep(x)
  {
    if xs != [] {
      FilterMembers(xs[1..], keep, x);
      assert xs == [xs[0]] + xs[1..];
    }
  }

  lemma {:induction false} FilterOrdered<T(!new)>(xs: seq<T>, keep: T -> bool, before: (T, T) -> bool)
    requires Ordered(xs, before)
    ensures Ordered(Filter(xs, keep), before)
  {
    if xs != [] {
      FilterOrdered(xs[1..], keep, before);
      var rest := Filter(xs[1..], keep);
      forall y | y in rest
        ensures before(xs[0], y)
      {
        FilterMembers(xs[1..], keep, y);
        var j :| 0 <= j < |xs[1..]| && xs[1..][j] == y;
        assert y == xs[j + 1];
      }
      forall i, j | 0 <= i < j < |Filter(xs, keep)|
        ensures before(Filter(xs, keep)[i], Filter(xs, keep)[j])
      {
        if keep(xs[0]) {
          assert Filter(xs, keep)[j] == rest[j - 1] && rest[j - 1] in rest;
        }
      }
    }
  }

  lemma {:induction false} FilterFilter<T(!new)>(xs: seq<T>, one: T -> bool, two: T -> bool, both: T -> bool)
    requires forall x :: both(x) <==> one(x) && two(x)
    ensures Filter(Filter(xs, one), two) == Filter(xs, both)
  {
    if xs != [] {
      FilterFilter(xs[1..], one, two, both);
      var rest := Filter(xs[1..], one);
      if one(xs[0]) {
        assert ([xs[0]] + rest)[1..] == rest;
      }
    }
  }

  /** Keeping what comes after the k-th element of an ordered list is dropping up to and including it. */
  lemma {:induction false} FilterSuffix<T(!new)>(xs: seq<T>, k: nat, keep: T -> bool)
    requires k <= |xs|
    requires forall i | 0 <= i < |xs| :: keep(xs[i]) <==> i >= k
    ensures Filter(xs, keep) == xs[k..]
  {
    if xs != [] {
      forall i | 0 <= i < |xs[1..]|
        ensures keep(xs[1..][i]) <==> i >= (if k == 0 then 0 else k - 1)
      {
        assert xs[1..][i] == xs[i + 1];
      }
      FilterSuffix(xs[1..], if k == 0 then 0 else k - 1, keep);
    }
  }
}
