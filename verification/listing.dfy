/** The building blocks of the database queries: `WHERE` as a filter that
    keeps order, `ORDER BY` as an insertion sort under a total preorder. */
module Listing {

  ghost predicate Total<T(!new)>(le: (T, T) -> bool) {
    forall a, b :: le(a, b) || le(b, a)
  }

  ghost predicate Transitive<T(!new)>(le: (T, T) -> bool) {
    forall a, b, c :: le(a, b) && le(b, c) ==> le(a, c)
  }

  ghost predicate TotalPreorder<T(!new)>(le: (T, T) -> bool) {
    Total(le) && Transitive(le)
  }

  /** No element occurs twice. */
  predicate Distinct<T(==)>(xs: seq<T>) {
    forall i, j | 0 <= i < j < |xs| :: xs[i] != xs[j]
  }

  /** Every earlier element is `le` every later one. */
  predicate SortedBy<T>(xs: seq<T>, le: (T, T) -> bool) {
    forall i, j | 0 <= i < j < |xs| :: le(xs[i], xs[j])
  }

  function Insert<T(!new)>(x: T, xs: seq<T>, le: (T, T) -> bool): (r: seq<T>)
    requires TotalPreorder(le)
    requires SortedBy(xs, le)
    ensures SortedBy(r, le)
    ensures multiset(r) == multiset(xs) + multiset{x}
    ensures forall y :: y in r <==> y == x || y in xs
  {
    if |xs| == 0 then [x]
    else if le(x, xs[0]) then [x] + xs
    else
      var rest := Insert(x, xs[1..], le);
      assert xs == [xs[0]] + xs[1..];
      assert forall y | y in rest :: le(xs[0], y);
      [xs[0]] + rest
  }

  lemma {:induction false} InsertDistinct<T(!new)>(x: T, xs: seq<T>, le: (T, T) -> bool)
    requires TotalPreorder(le)
    requires SortedBy(xs, le)
    requires Distinct(xs) && x !in xs
    ensures Distinct(Insert(x, xs, le))
  {
    if |xs| > 0 && !le(x, xs[0]) {
      InsertDistinct(x, xs[1..], le);
      var rest := Insert(x, xs[1..], le);
      assert xs == [xs[0]] + xs[1..];
      assert multiset(rest) == multiset(xs[1..]) + multiset{x};
      assert xs[0] !in multiset(rest);
    }
  }

  /** A sorted permutation of `xs`; the order among `le`-equivalent
      elements is not promised, as SQL leaves ties unordered. */
  function Sort<T(!new)>(xs: seq<T>, le: (T, T) -> bool): (r: seq<T>)
    requires TotalPreorder(le)
    ensures SortedBy(r, le)
    ensures multiset(r) == multiset(xs)
    ensures forall y :: y in r <==> y in xs
  {
    if |xs| == 0 then []
    else
      assert xs == [xs[0]] + xs[1..];
      Insert(xs[0], Sort(xs[1..], le), le)
  }

  lemma {:induction false} SortDistinct<T(!new)>(xs: seq<T>, le: (T, T) -> bool)
    requires TotalPreorder(le)
    requires Distinct(xs)
    ensures Distinct(Sort(xs, le))
  {
    if |xs| > 0 {
      assert xs == [xs[0]] + xs[1..];
      SortDistinct(xs[1..], le);
      assert xs[0] !in multiset(Sort(xs[1..], le));
      InsertDistinct(xs[0], Sort(xs[1..], le), le);
    }
  }

  /** The elements of `xs` satisfying `p`, in their original order. */
  function Filter<T(!new)>(xs: seq<T>, p: T -> bool): (r: seq<T>)
    ensures forall y :: y in r <==> y in xs && p(y)
    ensures Distinct(xs) ==> Distinct(r)
  {
    if |xs| == 0 then []
    else
      var rest := Filter(xs[1..], p);
      assert forall y :: y in xs <==> y == xs[0] || y in xs[1..];
      if p(xs[0]) then
        assert Distinct(xs) ==> xs[0] !in rest;
        [xs[0]] + rest
      else rest
  }

  /** Filtering distributes over concatenation: a kept element stays
      ahead of everything kept after it, so the filter keeps order. */
  lemma {:induction false} FilterAppend<T(!new)>(xs: seq<T>, ys: seq<T>, p: T -> bool)
    ensures Filter(xs + ys, p) == Filter(xs, p) + Filter(ys, p)
    ensures Filter([], p) == [] && (forall x :: Filter([x], p) == if p(x) then [x] else [])
  {
    if |xs| > 0 {
      assert (xs + ys)[1..] == xs[1..] + ys;
      FilterAppend(xs[1..], ys, p);
    } else {
      assert xs + ys == ys;
    }
    forall x
      ensures Filter([x], p) == if p(x) then [x] else []
    {
      assert [x][1..] == [];
    }
  }
}
