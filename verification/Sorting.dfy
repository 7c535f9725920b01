/** The order queries return rows in: by date, and rows of one date in the order they were created. */
module Sorting {
  import opened Base

  /** `x` goes behind every row that is not dated after it, so the sort is stable. */
  function Insert<T>(xs: seq<T>, x: T, date: T -> int): seq<T> {
    if xs != [] && date(xs[|xs| - 1]) > date(x) then Insert(xs[..|xs| - 1], x, date) + [xs[|xs| - 1]]
    else xs + [x]
  }

  function SortByDate<T>(xs: seq<T>, date: T -> int): seq<T> {
    if xs == [] then [] else Insert(SortByDate(xs[..|xs| - 1], date), xs[|xs| - 1], date)
  }

  function Filter<T>(xs: seq<T>, p: T -> bool): seq<T> {
    if xs == [] then [] else Filter(xs[..|xs| - 1], p) + if p(xs[|xs| - 1]) then [xs[|xs| - 1]] else []
  }

  ghost predicate Ordered<T>(xs: seq<T>, date: T -> int) {
    forall i, j :: 0 <= i < j < |xs| ==> date(xs[i]) <= date(xs[j])
  }

  lemma {:induction false} InsertKeepsRows<T>(xs: seq<T>, x: T, date: T -> int)
    ensures multiset(Insert(xs, x, date)) == multiset(xs) + multiset{x}
  {
    if xs != [] && date(xs[|xs| - 1]) > date(x) {
      InsertKeepsRows(xs[..|xs| - 1], x, date);
      assert xs == xs[..|xs| - 1] + [xs[|xs| - 1]];
    }
  }

  lemma {:induction false} SortKeepsRows<T>(xs: seq<T>, date: T -> int)
    ensures multiset(SortByDate(xs, date)) == multiset(xs)
  {
    if xs != [] {
      SortKeepsRows(xs[..|xs| - 1], date);
      InsertKeepsRows(SortByDate(xs[..|xs| - 1], date), xs[|xs| - 1], date);
      assert xs == xs[..|xs| - 1] + [xs[|xs| - 1]];
    }
  }

  lemma {:induction false} InsertKeepsOrder<T>(xs: seq<T>, x: T, date: T -> int)
    requires Ordered(xs, date)
    ensures Ordered(Insert(xs, x, date), date)
  {
    if xs != [] && date(xs[|xs| - 1]) > date(x) {
      var n := |xs| - 1;
      InsertKeepsOrder(xs[..n], x, date);
      InsertKeepsRows(xs[..n], x, date);
      var r := Insert(xs[..n], x, date);
      forall i | 0 <= i < |r|
        ensures date(r[i]) <= date(xs[n])
      {
        assert r[i] in multiset(r);
      }
    }
  }

  lemma {:induction false} SortOrders<T>(xs: seq<T>, date: T -> int)
    ensures Ordered(SortByDate(xs, date), date)
  {
    if xs != [] {
      SortOrders(xs[..|xs| - 1], date);
      InsertKeepsOrder(SortByDate(xs[..|xs| - 1], date), xs[|xs| - 1], date);
    }
  }

  /** Ordered by date, and within one date by rank. */
  ghost predicate OrderedWithin<T>(xs: seq<T>, date: T -> int, rank: T -> int) {
    forall i, j :: 0 <= i < j < |xs| ==>
      date(xs[i]) < date(xs[j]) || (date(xs[i]) == date(xs[j]) && rank(xs[i]) <= rank(xs[j]))
  }

  lemma {:induction false} InsertIsStable<T>(xs: seq<T>, x: T, date: T -> int, rank: T -> int)
    requires OrderedWithin(xs, date, rank)
    requires forall y | y in xs :: rank(y) <= rank(x)
    ensures OrderedWithin(Insert(xs, x, date), date, rank)
  {
    if xs != [] && date(xs[|xs| - 1]) > date(x) {
      var n := |xs| - 1;
      InsertIsStable(xs[..n], x, date, rank);
      InsertKeepsRows(xs[..n], x, date);
      var r := Insert(xs[..n], x, date);
      forall i | 0 <= i < |r|
        ensures date(r[i]) < date(xs[n]) || (date(r[i]) == date(xs[n]) && rank(r[i]) <= rank(xs[n]))
      {
        assert r[i] in multiset(r);
      }
    }
  }

  /** Rows that come in by rank keep that order within one date. */
  lemma {:induction false} SortIsStable<T>(xs: seq<T>, date: T -> int, rank: T -> int)
    requires forall i, j :: 0 <= i < j < |xs| ==> rank(xs[i]) <= rank(xs[j])
    ensures OrderedWithin(SortByDate(xs, date), date, rank)
  {
    if xs != [] {
      var n := |xs| - 1;
      var front := SortByDate(xs[..n], date);
      SortIsStable(xs[..n], date, rank);
      SortKeepsRows(xs[..n], date);
      forall y | y in front
        ensures rank(y) <= rank(xs[n])
      {
        assert y in multiset(xs[..n]);
      }
      InsertIsStable(front, xs[n], date, rank);
    }
  }

  lemma {:induction false} FilterConcat<T>(xs: seq<T>, ys: seq<T>, p: T -> bool)
    ensures Filter(xs + ys, p) == Filter(xs, p) + Filter(ys, p)
  {
    if ys == [] {
      assert xs + ys == xs;
    } else {
      assert (xs + ys)[..|xs + ys| - 1] == xs + ys[..|ys| - 1];
      FilterConcat(xs, ys[..|ys| - 1], p);
    }
  }

  lemma {:induction false} FilterAll<T>(xs: seq<T>, p: T -> bool)
    requires forall i :: 0 <= i < |xs| ==> p(xs[i])
    ensures Filter(xs, p) == xs
  {
    if xs != [] {
      assert xs == xs[..|xs| - 1] + [xs[|xs| - 1]];
      FilterAll(xs[..|xs| - 1], p);
    }
  }

  lemma {:induction false} FilterNone<T>(xs: seq<T>, p: T -> bool)
    requires forall i :: 0 <= i < |xs| ==> !p(xs[i])
    ensures Filter(xs, p) == []
  {
    if xs != [] {
      assert xs == xs[..|xs| - 1] + [xs[|xs| - 1]];
      FilterNone(xs[..|xs| - 1], p);
    }
  }

  lemma {:induction false} FilterMember<T>(xs: seq<T>, p: T -> bool, x: T)
    ensures x in Filter(xs, p) <==> x in xs && p(x)
  {
    if xs != [] {
      assert xs == xs[..|xs| - 1] + [xs[|xs| - 1]];
      FilterMember(xs[..|xs| - 1], p, x);
    }
  }

  /** Where the `i`th kept row stands in the table. */
  lemma {:induction false} KeptAt<T>(xs: seq<T>, p: T -> bool, i: nat) returns (k: nat)
    requires i < |Filter(xs, p)|
    ensures k < |xs| && xs[k] == Filter(xs, p)[i] && |Filter(xs[..k], p)| == i
  {
    var n := |xs| - 1;
    if i < |Filter(xs[..n], p)| {
      k := KeptAt(xs[..n], p, i);
      assert xs[..n][..k] == xs[..k];
    } else {
      k := n;
    }
  }

  lemma {:induction false} FilterGrows<T>(xs: seq<T>, p: T -> bool, k: nat, l: nat)
    requires k <= l <= |xs|
    ensures |Filter(xs[..k], p)| <= |Filter(xs[..l], p)|
  {
    if k < l {
      FilterGrows(xs, p, k, l - 1);
      assert xs[..l][..l - 1] == xs[..l - 1];
    }
  }

  lemma FilterSnoc<T>(xs: seq<T>, x: T, p: T -> bool)
    ensures Filter(xs + [x], p) == if p(x) then Filter(xs, p) + [x] else Filter(xs, p)
  {
    assert (xs + [x])[..|xs|] == xs;
  }

  lemma InsertLastFiltered<T>(xs: seq<T>, x: T, date: T -> int, p: T -> bool)
    requires forall y | y in xs :: date(y) <= date(x)
    ensures Insert(Filter(xs, p), x, date) == Filter(xs, p) + [x]
  {
    var kept := Filter(xs, p);
    if kept != [] {
      FilterMember(xs, p, kept[|kept| - 1]);
    }
  }

  /** Inserting and then keeping some rows is keeping them and then inserting. */
  lemma {:induction false} FilterInsert<T>(xs: seq<T>, x: T, date: T -> int, p: T -> bool)
    requires Ordered(xs, date)
    ensures Filter(Insert(xs, x, date), p) == if p(x) then Insert(Filter(xs, p), x, date) else Filter(xs, p)
  {
    if xs != [] && date(xs[|xs| - 1]) > date(x) {
      var front, y := xs[..|xs| - 1], xs[|xs| - 1];
      assert xs == front + [y];
      FilterInsert(front, x, date, p);
      FilterSnoc(Insert(front, x, date), y, p);
      FilterSnoc(front, y, p);
    } else {
      FilterSnoc(xs, x, p);
      assert Insert(xs, x, date) == xs + [x];
      if p(x) {
        InsertLastFiltered(xs, x, date, p);
      }
    }
  }

  /** A query that filters and sorts returns the sorted table's rows that pass the filter. */
  lemma {:induction false} FilterSort<T>(xs: seq<T>, date: T -> int, p: T -> bool)
    ensures SortByDate(Filter(xs, p), date) == Filter(SortByDate(xs, date), p)
  {
    if xs != [] {
      var front, x := xs[..|xs| - 1], xs[|xs| - 1];
      assert xs == front + [x];
      FilterSort(front, date, p);
      SortOrders(front, date);
      FilterSnoc(front, x, p);
      FilterInsert(SortByDate(front, date), x, date, p);
    }
  }

  function If<T>(p: T -> bool, f: T -> int): T -> int {
    (x: T) => if p(x) then f(x) else 0
  }

  lemma {:induction false} SumFilter<T>(xs: seq<T>, p: T -> bool, f: T -> int)
    ensures SumBy(Filter(xs, p), f) == SumBy(xs, If(p, f))
  {
    if xs != [] {
      var front, x := xs[..|xs| - 1], xs[|xs| - 1];
      SumFilter(front, p, f);
      assert xs == front + [x];
      FilterSnoc(front, x, p);
      if p(x) {
        SumSnoc(Filter(front, p), x, f);
      }
    }
  }
}
