/** Results and the sums every other module is built on.

    `SumBy(xs, f)` adds up `f` over a sequence, taking elements from the right, so that appending
    a row (a transaction, an entry, a payment) unfolds it once. The functions handed to it are
    always built by a named function (`EntryNet(a)`, `TxNet(a)`, ...), so that two mentions of the
    same sum are the same term.
 */
module Base {
  datatype Option<+T> = None | Some(value: T)

  datatype Result<+T, +E> = Ok(value: T) | Err(error: E)

  function Max(x: int, y: int): int {
    if x < y then y else x
  }

  function Min(x: int, y: int): int {
    if x < y then x else y
  }

  function Abs(x: int): int {
    if x < 0 then -x else x
  }

  function SumBy<T>(xs: seq<T>, f: T -> int): int {
    if xs == [] then 0 else SumBy(xs[..|xs| - 1], f) + f(xs[|xs| - 1])
  }

  lemma SumSnoc<T>(xs: seq<T>, x: T, f: T -> int)
    ensures SumBy(xs + [x], f) == SumBy(xs, f) + f(x)
  {
    assert (xs + [x])[..|xs|] == xs;
  }

  lemma SumTake<T>(xs: seq<T>, i: nat, f: T -> int)
    requires i < |xs|
    ensures SumBy(xs[..i + 1], f) == SumBy(xs[..i], f) + f(xs[i])
  {
    assert xs[..i + 1][..i] == xs[..i];
  }

  lemma {:induction false} SumConcat<T>(xs: seq<T>, ys: seq<T>, f: T -> int)
    ensures SumBy(xs + ys, f) == SumBy(xs, f) + SumBy(ys, f)
  {
    if ys == [] {
      assert xs + ys == xs;
    } else {
      assert (xs + ys)[..|xs + ys| - 1] == xs + ys[..|ys| - 1];
      SumConcat(xs, ys[..|ys| - 1], f);
    }
  }

  lemma {:induction false} SumCong<T>(xs: seq<T>, f: T -> int, g: T -> int)
    requires forall i :: 0 <= i < |xs| ==> f(xs[i]) == g(xs[i])
    ensures SumBy(xs, f) == SumBy(xs, g)
  {
    if xs != [] {
      SumCong(xs[..|xs| - 1], f, g);
    }
  }

  /** Two sequences that agree term by term have the same sum. */
  lemma {:induction false} SumPairwise<S, T>(xs: seq<S>, ys: seq<T>, f: S -> int, g: T -> int)
    requires |xs| == |ys|
    requires forall i :: 0 <= i < |xs| ==> f(xs[i]) == g(ys[i])
    ensures SumBy(xs, f) == SumBy(ys, g)
  {
    if xs != [] {
      SumPairwise(xs[..|xs| - 1], ys[..|ys| - 1], f, g);
    }
  }

  lemma {:induction false} SumZero<T>(xs: seq<T>, f: T -> int)
    requires forall i :: 0 <= i < |xs| ==> f(xs[i]) == 0
    ensures SumBy(xs, f) == 0
  {
    if xs != [] {
      SumZero(xs[..|xs| - 1], f);
    }
  }

  /** `c` is a fixed linear combination, so one lemma serves sums, differences and scalings. */
  lemma {:induction false} SumLinear<T>(xs: seq<T>, f: T -> int, g: T -> int, h: T -> int, c: int)
    requires forall i :: 0 <= i < |xs| ==> h(xs[i]) == f(xs[i]) + c * g(xs[i])
    ensures SumBy(xs, h) == SumBy(xs, f) + c * SumBy(xs, g)
  {
    if xs != [] {
      SumLinear(xs[..|xs| - 1], f, g, h, c);
    }
  }

  lemma {:induction false} SumScale<T>(xs: seq<T>, g: T -> int, h: T -> int, c: int)
    requires forall i :: 0 <= i < |xs| ==> h(xs[i]) == c * g(xs[i])
    ensures SumBy(xs, h) == c * SumBy(xs, g)
  {
    if xs != [] {
      SumScale(xs[..|xs| - 1], g, h, c);
    }
  }

  lemma {:induction false} SumNonNegative<T>(xs: seq<T>, f: T -> int)
    requires forall i :: 0 <= i < |xs| ==> f(xs[i]) >= 0
    ensures SumBy(xs, f) >= 0
  {
    if xs != [] {
      SumNonNegative(xs[..|xs| - 1], f);
    }
  }

  /** A sum of non-negative terms bounds each of them. */
  lemma {:induction false} SumBoundsTerm<T>(xs: seq<T>, f: T -> int, k: nat)
    requires k < |xs|
    requires forall i :: 0 <= i < |xs| ==> f(xs[i]) >= 0
    ensures f(xs[k]) <= SumBy(xs, f)
  {
    if k < |xs| - 1 {
      SumBoundsTerm(xs[..|xs| - 1], f, k);
    } else {
      SumNonNegative(xs[..|xs| - 1], f);
    }
  }

  lemma {:induction false} SumUpdate<T>(xs: seq<T>, k: nat, x: T, f: T -> int)
    requires k < |xs|
    ensures SumBy(xs[k := x], f) == SumBy(xs, f) - f(xs[k]) + f(x)
  {
    var n := |xs| - 1;
    if k < n {
      assert xs[k := x][..n] == xs[..n][k := x];
      SumUpdate(xs[..n], k, x, f);
    } else {
      assert xs[k := x][..n] == xs[..n];
    }
  }

  /** Exactly one index carries weight. */
  lemma {:induction false} SumSingle<T>(xs: seq<T>, f: T -> int, k: nat)
    requires k < |xs|
    requires forall i :: 0 <= i < |xs| && i != k ==> f(xs[i]) == 0
    ensures SumBy(xs, f) == f(xs[k])
  {
    if k < |xs| - 1 {
      SumSingle(xs[..|xs| - 1], f, k);
    } else {
      SumZero(xs[..|xs| - 1], f);
    }
  }

  lemma {:induction false} SumRemove<T>(xs: seq<T>, k: nat, f: T -> int)
    requires k < |xs|
    ensures SumBy(xs[..k] + xs[k + 1..], f) == SumBy(xs, f) - f(xs[k])
  {
    assert xs == xs[..k + 1] + xs[k + 1..];
    SumConcat(xs[..k + 1], xs[k + 1..], f);
    SumConcat(xs[..k], xs[k + 1..], f);
    SumTake(xs, k, f);
  }

  /** A sum depends on the rows only, not on the order a query returns them in. */
  lemma {:induction false} SumPermutation<T>(xs: seq<T>, ys: seq<T>, f: T -> int)
    requires multiset(xs) == multiset(ys)
    ensures SumBy(xs, f) == SumBy(ys, f)
  {
    if xs == [] {
      assert |multiset(ys)| == 0;
      assert ys == [];
    } else {
      var n := |xs| - 1;
      var x := xs[n];
      assert xs == xs[..n] + [x];
      assert x in multiset(ys);
      var k :| 0 <= k < |ys| && ys[k] == x;
      var rest := ys[..k] + ys[k + 1..];
      assert ys == ys[..k] + [x] + ys[k + 1..];
      assert multiset(rest) == multiset(ys) - multiset{x};
      assert multiset(xs[..n]) == multiset(xs) - multiset{x};
      SumPermutation(xs[..n], rest, f);
      SumRemove(ys, k, f);
    }
  }

  /** The indices of a table, in order: what a query over the whole table enumerates. */
  function Range(n: nat): (r: seq<nat>)
    ensures |r| == n
    ensures forall i :: 0 <= i < n ==> r[i] == i
  {
    seq(n, i => i)
  }

  lemma RangeSnoc(n: nat)
    ensures Range(n + 1) == Range(n) + [n]
    ensures Range(n + 1)[..n] == Range(n)
  {
  }

  function At<S, T>(x: S, f: (S, T) -> int): T -> int {
    (y: T) => f(x, y)
  }

  function RowSum<S, T>(ys: seq<T>, f: (S, T) -> int): S -> int {
    (x: S) => SumBy(ys, At(x, f))
  }

  function Column<S, T>(y: T, f: (S, T) -> int): S -> int {
    (x: S) => f(x, y)
  }

  function ColumnSum<S, T>(xs: seq<S>, f: (S, T) -> int): T -> int {
    (y: T) => SumBy(xs, Column(y, f))
  }

  /** A table's row totals and column totals add up to the same grand total. */
  lemma {:induction false} SumSwap<S, T>(xs: seq<S>, ys: seq<T>, f: (S, T) -> int)
    ensures SumBy(xs, RowSum(ys, f)) == SumBy(ys, ColumnSum(xs, f))
  {
    if xs == [] {
      SumZero(ys, ColumnSum(xs, f));
    } else {
      var rest, x := xs[..|xs| - 1], xs[|xs| - 1];
      SumSwap(rest, ys, f);
      forall i | 0 <= i < |ys|
        ensures ColumnSum(xs, f)(ys[i]) == ColumnSum(rest, f)(ys[i]) + 1 * At(x, f)(ys[i])
      {
        ColumnUnfold(xs, ys[i], f);
      }
      SumLinear(ys, ColumnSum(rest, f), At(x, f), ColumnSum(xs, f), 1);
    }
  }

  lemma ColumnUnfold<S, T>(xs: seq<S>, y: T, f: (S, T) -> int)
    requires xs != []
    ensures ColumnSum(xs, f)(y) == ColumnSum(xs[..|xs| - 1], f)(y) + f(xs[|xs| - 1], y)
  {
  }
}
