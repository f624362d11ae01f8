/** Selections, sums and groupings of lists: what the queries on the tables are made of. */
module Lists {
  import opened Common

  function Filter<T(!new)>(xs: seq<T>, p: T -> bool): (ys: seq<T>)
    ensures forall y :: y in ys <==> y in xs && p(y)
  {
    if xs == [] then []
    else if p(xs[0]) then [xs[0]] + Filter(xs[1..], p)
    else Filter(xs[1..], p)
  }

  function Sum<T>(xs: seq<T>, f: T -> int): int {
    if xs == [] then 0 else f(xs[0]) + Sum(xs[1..], f)
  }

  function Map<T, U>(xs: seq<T>, f: T -> U): (ys: seq<U>)
    ensures |ys| == |xs| && forall i :: 0 <= i < |xs| ==> ys[i] == f(xs[i])
  {
    if xs == [] then [] else [f(xs[0])] + Map(xs[1..], f)
  }

  ghost predicate Distinct<T>(xs: seq<T>) {
    forall i, j :: 0 <= i < j < |xs| ==> xs[i] != xs[j]
  }

  /** The distinct keys of a list: its GROUP BY, in the order the keys first appear from the end. */
  function Keys<T(!new), K(==,!new)>(xs: seq<T>, key: T -> K): (ks: seq<K>)
    ensures Distinct(ks)
    ensures forall k :: k in ks <==> exists x :: x in xs && key(x) == k
  {
    if xs == [] then []
    else
      var ks := Keys(xs[1..], key);
      assert forall x :: x in xs <==> x == xs[0] || x in xs[1..];
      if key(xs[0]) in ks then ks else [key(xs[0])] + ks
  }

  // Selections.

  lemma {:induction false} FilterConcat<T(!new)>(xs: seq<T>, ys: seq<T>, p: T -> bool)
    ensures Filter(xs + ys, p) == Filter(xs, p) + Filter(ys, p)
    decreases |xs|
  {
    if xs == [] {
      assert xs + ys == ys;
    } else {
      assert (xs + ys)[1..] == xs[1..] + ys;
      FilterConcat(xs[1..], ys, p);
    }
  }

  /** Two selections in either order select the same. */
  lemma {:induction false} FilterTwice<T(!new)>(xs: seq<T>, p: T -> bool, q: T -> bool)
    ensures Filter(Filter(xs, p), q) == Filter(Filter(xs, q), p)
    decreases |xs|
  {
    if xs != [] {
      FilterTwice(xs[1..], p, q);
      var rest := Filter(xs[1..], p);
      var rest' := Filter(xs[1..], q);
      assert ([xs[0]] + rest)[1..] == rest && ([xs[0]] + rest')[1..] == rest';
    }
  }

  lemma {:induction false} FilterSame<T(!new)>(xs: seq<T>, p: T -> bool, q: T -> bool)
    requires forall x :: x in xs ==> p(x) == q(x)
    ensures Filter(xs, p) == Filter(xs, q)
    decreases |xs|
  {
    if xs != [] {
      FilterSame(xs[1..], p, q);
    }
  }

  lemma {:induction false} FilterAll<T(!new)>(xs: seq<T>, p: T -> bool)
    requires forall x :: x in xs ==> p(x)
    ensures Filter(xs, p) == xs
    decreases |xs|
  {
    if xs != [] {
      FilterAll(xs[1..], p);
    }
  }

  lemma {:induction false} FilterNone<T(!new)>(xs: seq<T>, p: T -> bool)
    requires forall x :: x in xs ==> !p(x)
    ensures Filter(xs, p) == []
    decreases |xs|
  {
    if xs != [] {
      FilterNone(xs[1..], p);
    }
  }

  /** Leaving out one element. */
  lemma {:induction false} FilterAllButOne<T(!new)>(xs: seq<T>, i: nat, p: T -> bool)
    requires i < |xs| && !p(xs[i])
    requires forall j :: 0 <= j < |xs| && j != i ==> p(xs[j])
    ensures Filter(xs, p) == xs[..i] + xs[i + 1..]
    decreases |xs|
  {
    var rest := xs[1..];
    if i == 0 {
      FilterAll(rest, p);
    } else {
      FilterAllButOne(rest, i - 1, p);
      assert xs[..i] == [xs[0]] + rest[..i - 1] && xs[i + 1..] == rest[i..];
    }
  }

  lemma {:induction false} FilterShortens<T(!new)>(xs: seq<T>, p: T -> bool)
    ensures |Filter(xs, p)| <= |xs|
    ensures |Filter(xs, p)| < |xs| <==> exists x :: x in xs && !p(x)
    decreases |xs|
  {
    if xs != [] {
      FilterShortens(xs[1..], p);
      assert forall x :: x in xs <==> x == xs[0] || x in xs[1..];
    }
  }

  // Sums.

  lemma {:induction false} SumConcat<T>(xs: seq<T>, ys: seq<T>, f: T -> int)
    ensures Sum(xs + ys, f) == Sum(xs, f) + Sum(ys, f)
    decreases |xs|
  {
    if xs == [] {
      assert xs + ys == ys;
    } else {
      assert (xs + ys)[1..] == xs[1..] + ys;
      SumConcat(xs[1..], ys, f);
    }
  }

  lemma {:induction false} SumSame<T>(xs: seq<T>, f: T -> int, g: T -> int)
    requires forall x :: x in xs ==> f(x) == g(x)
    ensures Sum(xs, f) == Sum(xs, g)
    decreases |xs|
  {
    if xs != [] {
      SumSame(xs[1..], f, g);
    }
  }

  lemma {:induction false} SumZero<T>(xs: seq<T>, f: T -> int)
    requires forall x :: x in xs ==> f(x) == 0
    ensures Sum(xs, f) == 0
    decreases |xs|
  {
    if xs != [] {
      SumZero(xs[1..], f);
    }
  }

  lemma {:induction false} SumAdds<T>(xs: seq<T>, f: T -> int, g: T -> int, h: T -> int)
    requires forall x :: x in xs ==> h(x) == f(x) + g(x)
    ensures Sum(xs, h) == Sum(xs, f) + Sum(xs, g)
    decreases |xs|
  {
    if xs != [] {
      SumAdds(xs[1..], f, g, h);
    }
  }

  lemma {:induction false} SumOfSelected<T(!new)>(xs: seq<T>, p: T -> bool, f: T -> int)
    ensures Sum(Filter(xs, p), f) == Sum(xs, ValueWhere(p, f))
    decreases |xs|
  {
    if xs != [] {
      SumOfSelected(xs[1..], p, f);
      if p(xs[0]) {
        assert ([xs[0]] + Filter(xs[1..], p))[1..] == Filter(xs[1..], p);
      }
    }
  }

  function OnlyAt<T(==)>(k: T, v: int): T -> int {
    x => if x == k then v else 0
  }

  /** Among distinct elements a value is counted once or not at all. */
  lemma {:induction false} SumOfOne<T>(xs: seq<T>, k: T, v: int)
    requires Distinct(xs)
    ensures Sum(xs, OnlyAt(k, v)) == if k in xs then v else 0
    decreases |xs|
  {
    if xs != [] {
      SumOfOne(xs[1..], k, v);
      assert k in xs <==> k == xs[0] || k in xs[1..];
      if k == xs[0] {
        assert k !in xs[1..];
      }
    }
  }

  function RowSum<X, Y>(ys: seq<Y>, f: (X, Y) -> int): X -> int {
    x => Sum(ys, Row(x, f))
  }

  function ColumnSum<X, Y>(xs: seq<X>, f: (X, Y) -> int): Y -> int {
    y => Sum(xs, Column(y, f))
  }

  function Row<X, Y>(x: X, f: (X, Y) -> int): Y -> int {
    y => f(x, y)
  }

  function Column<X, Y>(y: Y, f: (X, Y) -> int): X -> int {
    x => f(x, y)
  }

  /** Summing rows first or columns first comes to the same. */
  lemma {:induction false} SumSwaps<X, Y>(xs: seq<X>, ys: seq<Y>, f: (X, Y) -> int)
    ensures Sum(xs, RowSum(ys, f)) == Sum(ys, ColumnSum(xs, f))
    decreases |xs|
  {
    if xs == [] {
      SumZero(ys, ColumnSum(xs, f));
    } else {
      SumSwaps(xs[1..], ys, f);
      SumAdds(ys, Row(xs[0], f), ColumnSum(xs[1..], f), ColumnSum(xs, f));
    }
  }

  /** What an element contributes to the group k. */
  function GroupShare<T, K(==)>(key: T -> K, k: K, f: T -> int): T -> int {
    x => if key(x) == k then f(x) else 0
  }

  function GroupSum<T, K(==)>(xs: seq<T>, key: T -> K, f: T -> int): K -> int {
    k => Sum(xs, GroupShare(key, k, f))
  }

  /** A list's sum is the sum over its groups. */
  lemma SumByGroups<T(!new), K(!new)>(xs: seq<T>, key: T -> K, ks: seq<K>, f: T -> int)
    requires Distinct(ks) && forall x :: x in xs ==> key(x) in ks
    ensures Sum(ks, GroupSum(xs, key, f)) == Sum(xs, f)
  {
    var one := (k: K, x: T) => GroupShare(key, k, f)(x);
    forall k
      ensures GroupSum(xs, key, f)(k) == RowSum(xs, one)(k)
    {
      SumSame(xs, GroupShare(key, k, f), Row(k, one));
    }
    SumSame(ks, GroupSum(xs, key, f), RowSum(xs, one));
    SumSwaps(ks, xs, one);
    forall x | x in xs
      ensures ColumnSum(ks, one)(x) == f(x)
    {
      SumOfOne(ks, key(x), f(x));
      SumSame(ks, Column(x, one), OnlyAt(key(x), f(x)));
    }
    SumSame(xs, ColumnSum(ks, one), f);
  }

  // SQL's SUM, which is NULL over no rows.

  function Plus(a: Option<int>, b: Option<int>): Option<int> {
    if a.None? then b else if b.None? then a else Some(a.value + b.value)
  }

  function Negate(a: Option<int>): Option<int> {
    if a.None? then None else Some(-a.value)
  }

  /** COALESCE(a, 0) */
  function OrZero(a: Option<int>): int {
    if a.None? then 0 else a.value
  }

  /** SUM(f) over the elements that satisfy p. */
  function SqlSum<T>(xs: seq<T>, p: T -> bool, f: T -> int): Option<int> {
    if xs == [] then None
    else Plus(if p(xs[0]) then Some(f(xs[0])) else None, SqlSum(xs[1..], p, f))
  }

  function Both<T>(p: T -> bool, q: T -> bool): T -> bool {
    x => p(x) && q(x)
  }

  function ValueWhere<T>(p: T -> bool, f: T -> int): T -> int {
    x => if p(x) then f(x) else 0
  }

  lemma {:induction false} SqlSumIsSum<T(!new)>(xs: seq<T>, p: T -> bool, f: T -> int)
    ensures OrZero(SqlSum(xs, p, f)) == Sum(xs, ValueWhere(p, f))
    ensures SqlSum(xs, p, f).Some? <==> exists x :: x in xs && p(x)
    decreases |xs|
  {
    if xs != [] {
      SqlSumIsSum(xs[1..], p, f);
      assert forall x :: x in xs <==> x == xs[0] || x in xs[1..];
    }
  }

  lemma {:induction false} SqlSumSame<T>(xs: seq<T>, p: T -> bool, q: T -> bool, f: T -> int)
    requires forall x :: x in xs ==> p(x) == q(x)
    ensures SqlSum(xs, p, f) == SqlSum(xs, q, f)
    decreases |xs|
  {
    if xs != [] {
      SqlSumSame(xs[1..], p, q, f);
    }
  }

  lemma {:induction false} SqlSumOfSelected<T(!new)>(xs: seq<T>, w: T -> bool, p: T -> bool, f: T -> int)
    ensures SqlSum(Filter(xs, w), p, f) == SqlSum(xs, Both(w, p), f)
    decreases |xs|
  {
    if xs != [] {
      SqlSumOfSelected(xs[1..], w, p, f);
      if w(xs[0]) {
        assert ([xs[0]] + Filter(xs[1..], w))[1..] == Filter(xs[1..], w);
      }
    }
  }

  /** A sum over a selection made of two that exclude each other. */
  lemma {:induction false} SqlSumSplits<T>(xs: seq<T>, p: T -> bool, q: T -> bool, r: T -> bool, f: T -> int)
    requires forall x :: x in xs ==> (p(x) <==> q(x) || r(x)) && !(q(x) && r(x))
    ensures SqlSum(xs, p, f) == Plus(SqlSum(xs, q, f), SqlSum(xs, r, f))
    decreases |xs|
  {
    if xs != [] {
      SqlSumSplits(xs[1..], p, q, r, f);
    }
  }

  lemma {:induction false} SqlSumConcat<T>(xs: seq<T>, ys: seq<T>, p: T -> bool, f: T -> int)
    ensures SqlSum(xs + ys, p, f) == Plus(SqlSum(xs, p, f), SqlSum(ys, p, f))
    decreases |xs|
  {
    if xs == [] {
      assert xs + ys == ys;
    } else {
      assert (xs + ys)[1..] == xs[1..] + ys;
      SqlSumConcat(xs[1..], ys, p, f);
    }
  }

  function Of<T, U>(f: U -> int, m: T -> U): T -> int {
    x => f(m(x))
  }

  lemma {:induction false} SumOfMapped<T, U>(xs: seq<T>, m: T -> U, f: U -> int)
    ensures Sum(Map(xs, m), f) == Sum(xs, Of(f, m))
    decreases |xs|
  {
    if xs != [] {
      SumOfMapped(xs[1..], m, f);
      assert Map(xs, m)[1..] == Map(xs[1..], m);
    }
  }

  lemma SumNegates<T>(xs: seq<T>, f: T -> int, g: T -> int)
    requires forall x :: x in xs ==> g(x) == -f(x)
    ensures Sum(xs, g) == -Sum(xs, f)
  {
    var zero := (x: T) => 0;
    SumAdds(xs, f, g, zero);
    SumZero(xs, zero);
  }
}
