/** Finite sums over sequences, and the reindexing laws the ledger and stock proofs share. */
module Sums {

  function Sum<T>(s: seq<T>, f: T -> int): int
  {
    if |s| == 0 then 0 else Sum(s[..|s| - 1], f) + f(s[|s| - 1])
  }

  lemma {:induction false} SumConcat<T>(a: seq<T>, b: seq<T>, f: T -> int)
    ensures Sum(a + b, f) == Sum(a, f) + Sum(b, f)
  {
    if |b| == 0 {
      assert a + b == a;
    } else {
      SumConcat(a, b[..|b| - 1], f);
      assert (a + b)[..|a + b| - 1] == a + b[..|b| - 1];
    }
  }

  lemma SumAppend<T>(a: seq<T>, x: T, f: T -> int)
    ensures Sum(a + [x], f) == Sum(a, f) + f(x)
  {
    assert (a + [x])[..|a|] == a;
  }

  lemma {:induction false} SumUpdate<T>(s: seq<T>, i: nat, x: T, f: T -> int)
    requires i < |s|
    ensures Sum(s[i := x], f) == Sum(s, f) - f(s[i]) + f(x)
  {
    var n := |s| - 1;
    if i == n {
      assert s[i := x][..n] == s[..n];
    } else {
      SumUpdate(s[..n], i, x, f);
      assert s[i := x][..n] == s[..n][i := x];
    }
  }

  /** Equal terms, equal sums. */
  lemma {:induction false} SumCongruent<T>(s: seq<T>, f: T -> int, g: T -> int)
    requires forall x <- s :: f(x) == g(x)
    ensures Sum(s, f) == Sum(s, g)
  {
    if |s| > 0 {
      SumCongruent(s[..|s| - 1], f, g);
    }
  }

  lemma {:induction false} SumNonNegative<T>(s: seq<T>, f: T -> int)
    requires forall x <- s :: f(x) >= 0
    ensures Sum(s, f) >= 0
  {
    if |s| > 0 {
      SumNonNegative(s[..|s| - 1], f);
    }
  }

  lemma {:induction false} SumZero<T>(s: seq<T>, f: T -> int)
    requires forall x <- s :: f(x) == 0
    ensures Sum(s, f) == 0
  {
    if |s| > 0 {
      SumZero(s[..|s| - 1], f);
    }
  }

  lemma {:induction false} SumAtMost<T>(s: seq<T>, f: T -> int, g: T -> int)
    requires forall x <- s :: f(x) <= g(x)
    ensures Sum(s, f) <= Sum(s, g)
  {
    if |s| > 0 {
      SumAtMost(s[..|s| - 1], f, g);
    }
  }

  /** With non-negative terms a prefix never sums to more than the whole. */
  lemma SumPrefix<T>(s: seq<T>, k: nat, f: T -> int)
    requires k <= |s|
    requires forall x <- s :: f(x) >= 0
    ensures Sum(s[..k], f) <= Sum(s, f)
  {
    assert s == s[..k] + s[k..];
    SumConcat(s[..k], s[k..], f);
    SumNonNegative(s[k..], f);
  }

  /** One term is at most the sum of non-negative terms. */
  lemma SumTerm<T>(s: seq<T>, k: nat, f: T -> int)
    requires k < |s|
    requires forall x <- s :: f(x) >= 0
    ensures f(s[k]) <= Sum(s, f)
  {
    assert s[..k + 1][..k] == s[..k];
    SumPrefix(s, k + 1, f);
    SumNonNegative(s[..k], f);
  }

  function Plus<T>(f: T -> int, g: T -> int): T -> int {
    x => f(x) + g(x)
  }

  function Minus<T>(f: T -> int, g: T -> int): T -> int {
    x => f(x) - g(x)
  }

  lemma {:induction false} SumMinus<T>(s: seq<T>, f: T -> int, g: T -> int)
    ensures Sum(s, Minus(f, g)) == Sum(s, f) - Sum(s, g)
  {
    if |s| > 0 {
      SumMinus(s[..|s| - 1], f, g);
    }
  }

  lemma {:induction false} SumPlus<T>(s: seq<T>, f: T -> int, g: T -> int)
    ensures Sum(s, Plus(f, g)) == Sum(s, f) + Sum(s, g)
  {
    if |s| > 0 {
      SumPlus(s[..|s| - 1], f, g);
    }
  }

  /** A sum is a multiset notion: reordering changes nothing. */
  lemma {:induction false} SumPermute<T>(a: seq<T>, b: seq<T>, f: T -> int)
    requires multiset(a) == multiset(b)
    ensures Sum(a, f) == Sum(b, f)
  {
    if |a| == 0 {
      assert |multiset(b)| == |b|;
    } else {
      var x := a[|a| - 1];
      assert x in multiset(a);
      var i :| 0 <= i < |b| && b[i] == x;
      var b' := b[..i] + b[i + 1..];
      assert b == b[..i] + [x] + b[i + 1..];
      assert a == a[..|a| - 1] + [x];
      assert multiset(b') == multiset(b) - multiset{x};
      assert multiset(a[..|a| - 1]) == multiset(a) - multiset{x};
      SumPermute(a[..|a| - 1], b', f);
      SumConcat(b[..i] + [x], b[i + 1..], f);
      SumAppend(b[..i], x, f);
      SumConcat(b[..i], b[i + 1..], f);
    }
  }

  /** A sum with a single non-zero term is that term. */
  lemma SumOneHit<T>(s: seq<T>, k: nat, f: T -> int)
    requires k < |s|
    requires forall i :: 0 <= i < |s| && i != k ==> f(s[i]) == 0
    ensures Sum(s, f) == f(s[k])
  {
    assert s == s[..k] + [s[k]] + s[k + 1..];
    SumConcat(s[..k] + [s[k]], s[k + 1..], f);
    SumAppend(s[..k], s[k], f);
    forall x | x in s[..k]
      ensures f(x) == 0
    {
      var i :| 0 <= i < k && s[..k][i] == x;
      assert s[i] == x;
    }
    forall x | x in s[k + 1..]
      ensures f(x) == 0
    {
      var i :| 0 <= i < |s| - k - 1 && s[k + 1..][i] == x;
      assert s[k + 1 + i] == x;
    }
    SumZero(s[..k], f);
    SumZero(s[k + 1..], f);
  }

  function Fix<A, B>(f: (A, B) -> int, a: A): B -> int {
    b => f(a, b)
  }

  function FixSecond<A, B>(f: (A, B) -> int, b: B): A -> int {
    a => f(a, b)
  }

  function RowSum<A, B>(bs: seq<B>, f: (A, B) -> int): A -> int {
    a => Sum(bs, Fix(f, a))
  }

  function ColumnSum<A, B>(xs: seq<A>, f: (A, B) -> int): B -> int {
    b => Sum(xs, FixSecond(f, b))
  }

  /** Summing a table by rows or by columns gives the same total. */
  lemma {:induction false} SumSwap<A, B>(xs: seq<A>, bs: seq<B>, f: (A, B) -> int)
    ensures Sum(xs, RowSum(bs, f)) == Sum(bs, ColumnSum(xs, f))
  {
    if |xs| == 0 {
      SumZero(bs, ColumnSum(xs, f));
    } else {
      var rest, a := xs[..|xs| - 1], xs[|xs| - 1];
      SumSwap(rest, bs, f);
      SumColumnSplit(rest, a, bs, f);
      assert rest + [a] == xs;
    }
  }

  lemma {:induction false} SumColumnSplit<A, B>(rest: seq<A>, a: A, bs: seq<B>, f: (A, B) -> int)
    ensures Sum(bs, ColumnSum(rest + [a], f)) == Sum(bs, ColumnSum(rest, f)) + Sum(bs, Fix(f, a))
  {
    if |bs| > 0 {
      SumColumnSplit(rest, a, bs[..|bs| - 1], f);
      SumAppend(rest, a, FixSecond(f, bs[|bs| - 1]));
    }
  }

  lemma SumOfTwo<T>(a: T, b: T, f: T -> int)
    ensures Sum([a, b], f) == f(a) + f(b)
  {
    assert [a, b] == [] + [a] + [b];
    SumAppend([], a, f);
    SumAppend([] + [a], b, f);
  }

  lemma SumOfFour<T>(a: T, b: T, c: T, d: T, f: T -> int)
    ensures Sum([a, b, c, d], f) == f(a) + f(b) + f(c) + f(d)
  {
    assert [a, b, c, d] == [a, b] + [c, d];
    SumConcat([a, b], [c, d], f);
    SumOfTwo(a, b, f);
    SumOfTwo(c, d, f);
  }
}
