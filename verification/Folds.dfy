/** Sums, maxima and concatenations over a sequence, and how they meet concatenation. */
module Folds {

  function SumBy<T>(s: seq<T>, f: T -> int): int {
    if |s| == 0 then 0 else SumBy(s[..|s| - 1], f) + f(s[|s| - 1])
  }

  function CostBy<T>(s: seq<T>, f: T -> real): real {
    if |s| == 0 then 0.0 else CostBy(s[..|s| - 1], f) + f(s[|s| - 1])
  }

  function Max(a: int, b: int): int { if a < b then b else a }

  function Sum(s: seq<real>): real {
    if |s| == 0 then 0.0 else Sum(s[..|s| - 1]) + s[|s| - 1]
  }

  /** The largest value, or 0. */
  function MaxBy<T>(s: seq<T>, f: T -> int): (r: int)
    ensures r >= 0
  {
    if |s| == 0 then 0 else Max(MaxBy(s[..|s| - 1], f), f(s[|s| - 1]))
  }

  function FlatMap<T, U>(s: seq<T>, f: T -> seq<U>): seq<U> {
    if |s| == 0 then [] else FlatMap(s[..|s| - 1], f) + f(s[|s| - 1])
  }

  lemma {:induction false} SumBySame<T>(s: seq<T>, f: T -> int, g: T -> int)
    requires forall x <- s :: f(x) == g(x)
    ensures SumBy(s, f) == SumBy(s, g)
  {
    if |s| > 0 {
      LastOrEarlier(s);
      SumBySame(s[..|s| - 1], f, g);
    }
  }

  lemma {:induction false} CostBySame<T>(s: seq<T>, f: T -> real, g: T -> real)
    requires forall x <- s :: f(x) == g(x)
    ensures CostBy(s, f) == CostBy(s, g)
  {
    if |s| > 0 {
      LastOrEarlier(s);
      CostBySame(s[..|s| - 1], f, g);
    }
  }

  lemma {:induction false} FlatMapSame<T, U>(s: seq<T>, f: T -> seq<U>, g: T -> seq<U>)
    requires forall x <- s :: f(x) == g(x)
    ensures FlatMap(s, f) == FlatMap(s, g)
  {
    if |s| > 0 {
      LastOrEarlier(s);
      FlatMapSame(s[..|s| - 1], f, g);
    }
  }

  lemma Regroup<T>(a: seq<T>, b: seq<T>, c: seq<T>)
    ensures a + b + c == a + (b + c)
  {
  }

  lemma LastOrEarlier<T>(s: seq<T>)
    requires |s| > 0
    ensures forall x :: x in s <==> x in s[..|s| - 1] || x == s[|s| - 1]
  {
    assert s == s[..|s| - 1] + [s[|s| - 1]];
  }

  lemma AppendParts<T>(a: seq<T>, b: seq<T>)
    ensures |b| == 0 ==> a + b == a
    ensures |b| > 0 ==> (a + b)[..|a + b| - 1] == a + b[..|b| - 1] && (a + b)[|a + b| - 1] == b[|b| - 1]
  {
  }

  lemma {:induction false} SumByAppend<T>(a: seq<T>, b: seq<T>, f: T -> int)
    ensures SumBy(a + b, f) == SumBy(a, f) + SumBy(b, f)
  {
    AppendParts(a, b);
    if |b| > 0 {
      SumByAppend(a, b[..|b| - 1], f);
    }
  }

  lemma {:induction false} CostByAppend<T>(a: seq<T>, b: seq<T>, f: T -> real)
    ensures CostBy(a + b, f) == CostBy(a, f) + CostBy(b, f)
  {
    AppendParts(a, b);
    if |b| > 0 {
      CostByAppend(a, b[..|b| - 1], f);
    }
  }

  lemma {:induction false} MaxByAppend<T>(a: seq<T>, b: seq<T>, f: T -> int)
    ensures MaxBy(a + b, f) == Max(MaxBy(a, f), MaxBy(b, f))
  {
    AppendParts(a, b);
    if |b| > 0 {
      MaxByAppend(a, b[..|b| - 1], f);
    }
  }

  lemma {:induction false} FlatMapAppend<T, U>(a: seq<T>, b: seq<T>, f: T -> seq<U>)
    ensures FlatMap(a + b, f) == FlatMap(a, f) + FlatMap(b, f)
  {
    AppendParts(a, b);
    if |b| > 0 {
      FlatMapAppend(a, b[..|b| - 1], f);
    }
  }

  // ----- permutations -----

  /** The last element of xs somewhere in ys, and ys without it. */
  lemma Located<T>(xs: seq<T>, ys: seq<T>) returns (a: seq<T>, b: seq<T>)
    requires |xs| > 0 && multiset(xs) == multiset(ys)
    ensures ys == a + [xs[|xs| - 1]] + b && multiset(xs[..|xs| - 1]) == multiset(a + b)
  {
    var front, x := xs[..|xs| - 1], xs[|xs| - 1];
    assert xs == front + [x];
    assert multiset(front) == multiset(ys) - multiset{x};
    assert x in multiset(ys);
    var i :| 0 <= i < |ys| && ys[i] == x;
    a, b := ys[..i], ys[i + 1..];
    assert ys == a + [x] + b;
    assert multiset(a + b) == multiset(ys) - multiset{x};
  }

  lemma {:induction false} SumByPermuted<T>(xs: seq<T>, ys: seq<T>, f: T -> int)
    requires multiset(xs) == multiset(ys)
    ensures SumBy(xs, f) == SumBy(ys, f)
    decreases |xs|
  {
    if |xs| == 0 {
      assert |multiset(ys)| == 0;
    } else {
      var a, b := Located(xs, ys);
      SumByPermuted(xs[..|xs| - 1], a + b, f);
      SumByAppend(a + [xs[|xs| - 1]], b, f);
      SumByAppend(a, b, f);
      assert (a + [xs[|xs| - 1]])[..|a|] == a;
    }
  }

  lemma {:induction false} CostByPermuted<T>(xs: seq<T>, ys: seq<T>, f: T -> real)
    requires multiset(xs) == multiset(ys)
    ensures CostBy(xs, f) == CostBy(ys, f)
    decreases |xs|
  {
    if |xs| == 0 {
      assert |multiset(ys)| == 0;
    } else {
      var a, b := Located(xs, ys);
      CostByPermuted(xs[..|xs| - 1], a + b, f);
      CostByAppend(a + [xs[|xs| - 1]], b, f);
      CostByAppend(a, b, f);
      assert (a + [xs[|xs| - 1]])[..|a|] == a;
    }
  }

  lemma {:induction false} FlatMapPermuted<T, U>(xs: seq<T>, ys: seq<T>, f: T -> seq<U>)
    requires multiset(xs) == multiset(ys)
    ensures multiset(FlatMap(xs, f)) == multiset(FlatMap(ys, f))
    decreases |xs|
  {
    if |xs| == 0 {
      assert |multiset(ys)| == 0;
    } else {
      var x := xs[|xs| - 1];
      var a, b := Located(xs, ys);
      FlatMapPermuted(xs[..|xs| - 1], a + b, f);
      FlatMapAppend(a + [x], b, f);
      FlatMapAppend(a, b, f);
      assert (a + [x])[..|a|] == a;
      assert FlatMap(a + [x], f) == FlatMap(a, f) + f(x);
    }
  }
}
