/** Sums over sequences, for counts and scores that must not depend on the order of rows. */
module Sums {

  function SumBy<T>(xs: seq<T>, f: T -> int): int {
    if |xs| == 0 then 0 else SumBy(xs[..|xs| - 1], f) + f(xs[|xs| - 1])
  }

  lemma {:induction false} SumConcat<T>(xs: seq<T>, ys: seq<T>, f: T -> int)
    ensures SumBy(xs + ys, f) == SumBy(xs, f) + SumBy(ys, f)
  {
    if |ys| == 0 {
      assert xs + ys == xs;
    } else {
      assert (xs + ys)[..|xs + ys| - 1] == xs + ys[..|ys| - 1];
      SumConcat(xs, ys[..|ys| - 1], f);
    }
  }

  lemma {:induction false} SumAgrees<T>(xs: seq<T>, f: T -> int, g: T -> int)
    requires forall x | x in xs :: f(x) == g(x)
    ensures SumBy(xs, f) == SumBy(xs, g)
  {
    if |xs| > 0 {
      assert xs[|xs| - 1] in xs;
      SumAgrees(xs[..|xs| - 1], f, g);
    }
  }

  lemma {:induction false} SumMonotone<T>(xs: seq<T>, f: T -> int, g: T -> int)
    requires forall x | x in xs :: f(x) <= g(x)
    ensures SumBy(xs, f) <= SumBy(xs, g)
  {
    if |xs| > 0 {
      assert xs[|xs| - 1] in xs;
      SumMonotone(xs[..|xs| - 1], f, g);
    }
  }

  lemma SplitAt<T>(xs: seq<T>, i: nat)
    requires i < |xs|
    ensures xs == xs[..i] + [xs[i]] + xs[i + 1..]
  {
  }

  lemma {:induction false} SumWithout<T>(xs: seq<T>, i: nat, f: T -> int)
    requires i < |xs|
    ensures SumBy(xs, f) == SumBy(xs[..i] + xs[i + 1..], f) + f(xs[i])
  {
    var front, x, rest := xs[..i], xs[i], xs[i + 1..];
    SplitAt(xs, i);
    SumConcat(front + [x], rest, f);
    SumConcat(front, [x], f);
    SumConcat(front, rest, f);
    assert SumBy([x], f) == SumBy([x][..0], f) + f(x);
  }

  lemma ElementsWithout<T>(xs: seq<T>, i: nat)
    requires i < |xs|
    ensures multiset(xs[..i] + xs[i + 1..]) == multiset(xs) - multiset{xs[i]}
  {
    SplitAt(xs, i);
  }

  lemma SameSize<T>(xs: seq<T>, ys: seq<T>)
    requires multiset(xs) == multiset(ys)
    ensures |xs| == |ys|
  {
    assert |multiset(xs)| == |xs| && |multiset(ys)| == |ys|;
  }

  /** Where the last element of one sequence is in a permutation of it. */
  lemma PlaceOfLast<T>(xs: seq<T>, ys: seq<T>) returns (i: nat)
    requires multiset(xs) == multiset(ys) && |xs| > 0
    ensures i < |ys| && ys[i] == xs[|xs| - 1]
    ensures multiset(xs[..|xs| - 1]) == multiset(ys[..i] + ys[i + 1..])
  {
    var x := xs[|xs| - 1];
    assert x in multiset(xs);
    i :| 0 <= i < |ys| && ys[i] == x;
    ElementsWithout(ys, i);
    ElementsWithout(xs, |xs| - 1);
    assert xs[..|xs| - 1] + xs[|xs|..] == xs[..|xs| - 1];
  }

  /** A sum depends on the elements only, not on their order. */
  lemma {:induction false} SumPermuted<T>(xs: seq<T>, ys: seq<T>, f: T -> int)
    requires multiset(xs) == multiset(ys)
    ensures SumBy(xs, f) == SumBy(ys, f)
    decreases |xs|
  {
    SameSize(xs, ys);
    if |xs| > 0 {
      var i := PlaceOfLast(xs, ys);
      SumWithout(ys, i, f);
      SumPermuted(xs[..|xs| - 1], ys[..i] + ys[i + 1..], f);
    }
  }

  /******* Counting *******/

  /** How many of 0, ..., n - 1 satisfy the predicate. */
  function Count(n: nat, p: nat -> bool): nat {
    if n == 0 then 0 else Count(n - 1, p) + if p(n - 1) then 1 else 0
  }

  lemma {:induction false} CountIsSize(n: nat, p: nat -> bool, s: set<nat>)
    requires forall m: nat :: m in s <==> m < n && p(m)
    ensures Count(n, p) == |s|
  {
    if n == 0 {
      assert s == {};
    } else if p(n - 1) {
      CountIsSize(n - 1, p, s - {n - 1});
    } else {
      CountIsSize(n - 1, p, s);
    }
  }

  ghost predicate Distinct<T(!new)>(xs: seq<T>) {
    forall i, j | 0 <= i < j < |xs| :: xs[i] != xs[j]
  }

  function Elements<T>(xs: seq<T>): set<T> {
    set x | x in xs
  }

  lemma ElementsSnoc<T(!new)>(xs: seq<T>, x: T)
    ensures Elements(xs + [x]) == Elements(xs) + {x}
    ensures Distinct(xs + [x]) <==> Distinct(xs) && x !in Elements(xs)
  {
    var ys := xs + [x];
    assert ys[|xs|] == x && forall i | 0 <= i < |xs| :: ys[i] == xs[i];
    if Distinct(ys) {
      assert forall i | 0 <= i < |xs| :: xs[i] != x;
    }
  }

  lemma {:induction false} DistinctSize<T(!new)>(xs: seq<T>)
    requires Distinct(xs)
    ensures |Elements(xs)| == |xs|
  {
    if |xs| == 0 {
      assert Elements(xs) == {};
    } else {
      var front, x := xs[..|xs| - 1], xs[|xs| - 1];
      DistinctSize(front);
      assert Elements(xs) == Elements(front) + {x};
    }
  }

  lemma DistinctCount(xs: seq<nat>, n: nat, p: nat -> bool)
    requires Distinct(xs) && forall m: nat :: m in xs <==> m < n && p(m)
    ensures Count(n, p) == |xs|
  {
    DistinctSize(xs);
    CountIsSize(n, p, Elements(xs));
  }

  lemma {:induction false} SumZero<T>(xs: seq<T>, f: T -> int)
    requires forall x | x in xs :: f(x) == 0
    ensures SumBy(xs, f) == 0
  {
    if |xs| > 0 {
      assert xs[|xs| - 1] in xs;
      SumZero(xs[..|xs| - 1], f);
    }
  }

  /** Two functions that differ at one of the elements only. */
  lemma {:induction false} SumMovesAtOne<T(!new)>(xs: seq<T>, f: T -> int, g: T -> int, x: T, v: int)
    requires Distinct(xs) && x in xs && g(x) == f(x) + v
    requires forall y | y in xs && y != x :: f(y) == g(y)
    ensures SumBy(xs, g) == SumBy(xs, f) + v
  {
    var n := |xs| - 1;
    if xs[n] == x {
      SumAgrees(xs[..n], f, g);
    } else {
      assert xs[n] in xs;
      SumMovesAtOne(xs[..n], f, g, x, v);
    }
  }
}
