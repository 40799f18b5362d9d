/** Binomial coefficients and the tails of Binomial(n, 1/2). */
module Binomial {

  /** math.comb by Pascal's rule; CombIsFactorialQuotient ties it to factorials. */
  function Comb(n: nat, k: nat): (r: nat)
    ensures k > n ==> r == 0
    ensures k <= n ==> r > 0
  {
    if k == 0 then 1
    else if n == 0 then 0
    else Comb(n - 1, k - 1) + Comb(n - 1, k)
  }

  function Pow2(n: nat): (r: nat)
    ensures r > 0
  {
    if n == 0 then 1 else 2 * Pow2(n - 1)
  }

  /** sum(comb(n, k) for k in range(lo, hi)) */
  function SumComb(n: nat, lo: nat, hi: nat): nat
    decreases hi
  {
    if hi <= lo then 0 else SumComb(n, lo, hi - 1) + Comb(n, hi - 1)
  }

  function Factorial(n: nat): (r: nat)
    ensures r > 0
  {
    if n == 0 then 1 else n * Factorial(n - 1)
  }

  /** k * comb(n, k) == n * comb(n-1, k-1) */
  lemma {:induction false} Absorption(n: nat, k: nat)
    requires n > 0 && k > 0
    ensures k * Comb(n, k) == n * Comb(n - 1, k - 1)
  {
    if n > 1 {
      Absorption(n - 1, k);
      if k > 1 {
        Absorption(n - 1, k - 1);
        AbsorbStep(n, k, Comb(n - 1, k - 1), Comb(n - 1, k), Comb(n - 2, k - 2), Comb(n - 2, k - 1));
      } else {
        AbsorbStep(n, k, Comb(n - 1, 0), Comb(n - 1, 1), 0, Comb(n - 2, 0));
      }
    }
  }

  lemma AbsorbStep(n: int, k: int, a: int, b: int, x: int, y: int)
    requires k * b == (n - 1) * y && (k - 1) * a == (n - 1) * x && a == x + y
    ensures k * (a + b) == n * a
  {
    calc {
      k * (a + b);
      a + (k - 1) * a + k * b;
      a + (n - 1) * x + (n - 1) * y;
      a + (n - 1) * (x + y);
    }
  }

  lemma {:induction false} CombIsFactorialQuotient(n: nat, k: nat)
    requires k <= n
    ensures Comb(n, k) * (Factorial(k) * Factorial(n - k)) == Factorial(n)
  {
    if k > 0 {
      CombIsFactorialQuotient(n - 1, k - 1);
      Absorption(n, k);
      FactorialStep(n, k, Comb(n, k), Comb(n - 1, k - 1), Factorial(k - 1), Factorial(n - k), Factorial(n - 1));
    }
  }

  lemma FactorialStep(n: int, k: int, c: int, d: int, f: int, g: int, h: int)
    requires k * c == n * d && d * (f * g) == h
    ensures c * ((k * f) * g) == n * h
  {
    assert (k * f) * g == k * (f * g);
    assert c * (k * (f * g)) == (k * c) * (f * g);
    assert (n * d) * (f * g) == n * (d * (f * g));
  }

  lemma {:induction false} CombSymmetric(n: nat, k: nat)
    requires k <= n
    ensures Comb(n, k) == Comb(n, n - k)
  {
    if n > 0 {
      if k > 0 {
        CombSymmetric(n - 1, k - 1);
      }
      if k < n {
        CombSymmetric(n - 1, k);
      } else {
        CombSelf(n);
      }
    }
  }

  lemma {:induction false} CombSelf(n: nat)
    ensures Comb(n, n) == 1
  {
    if n > 0 {
      CombSelf(n - 1);
    }
  }

  lemma {:induction false} SumSplit(n: nat, lo: nat, mid: nat, hi: nat)
    requires lo <= mid <= hi
    ensures SumComb(n, lo, hi) == SumComb(n, lo, mid) + SumComb(n, mid, hi)
  {
    if mid < hi {
      SumSplit(n, lo, mid, hi - 1);
    }
  }

  lemma {:induction false} SumFirst(n: nat, lo: nat, hi: nat)
    requires lo < hi
    ensures SumComb(n, lo, hi) == Comb(n, lo) + SumComb(n, lo + 1, hi)
  {
    SumSplit(n, lo, lo + 1, hi);
    assert SumComb(n, lo, lo) == 0;
  }

  /** A tail read from the left equals the mirrored tail read from the right. */
  lemma {:induction false} SumMirror(n: nat, lo: nat, hi: nat)
    requires lo <= hi <= n + 1
    ensures SumComb(n, lo, hi) == SumComb(n, n + 1 - hi, n + 1 - lo)
  {
    if lo < hi {
      SumMirror(n, lo, hi - 1);
      CombSymmetric(n, hi - 1);
      SumFirst(n, n + 1 - hi, n + 1 - lo);
    }
  }

  /** Pascal's rule for sums. */
  lemma {:induction false} SumPascal(n: nat, hi: nat)
    requires n > 0 && hi > 0
    ensures SumComb(n, 0, hi) == SumComb(n - 1, 0, hi) + SumComb(n - 1, 0, hi - 1)
  {
    if hi > 1 {
      SumPascal(n, hi - 1);
    }
  }

  lemma {:induction false} SumPascalFrom(n: nat, lo: nat, hi: nat)
    requires n > 0 && lo > 0 && hi > 0
    ensures SumComb(n, lo, hi) == SumComb(n - 1, lo, hi) + SumComb(n - 1, lo - 1, hi - 1)
  {
    if hi > lo {
      if hi - 1 > lo {
        SumPascalFrom(n, lo, hi - 1);
      } else {
        assert SumComb(n, lo, lo) == SumComb(n - 1, lo, lo) == SumComb(n - 1, lo - 1, lo - 1) == 0;
      }
    }
  }

  lemma {:induction false} RowSum(n: nat)
    ensures SumComb(n, 0, n + 1) == Pow2(n)
  {
    if n > 0 {
      RowSum(n - 1);
      SumPascal(n, n + 1);
      assert SumComb(n - 1, 0, n + 1) == SumComb(n - 1, 0, n) + Comb(n - 1, n);
    }
  }

  lemma {:induction false} SumMonotone(n: nat, lo: nat, hi: nat, lo': nat)
    requires lo' <= lo
    ensures SumComb(n, lo, hi) <= SumComb(n, lo', hi)
  {
    if lo < hi {
      SumSplit(n, lo', lo, hi);
    }
  }

  // ----- upper tails over a split b + c -----

  /** The number of outcomes of b + c fair flips with at least b heads. */
  function UpperTail(b: nat, c: nat): nat {
    SumComb(b + c, b, b + c + 1)
  }

  /** The two one-sided tails overlap in exactly the observed outcome. */
  lemma TailsOverlap(b: nat, c: nat)
    ensures UpperTail(b, c) + UpperTail(c, b) == Pow2(b + c) + Comb(b + c, b)
  {
    var n := b + c;
    SumMirror(n, c, n + 1);
    RowSum(n);
    SumSplit(n, 0, b, n + 1);
    assert SumComb(n, 0, b + 1) == SumComb(n, 0, b) + Comb(n, b);
  }

  /** The lower tail up to the smaller count is the upper tail from the larger one. */
  lemma LowerTail(b: nat, c: nat)
    ensures SumComb(b + c, 0, c + 1) == UpperTail(b, c)
  {
    SumMirror(b + c, 0, c + 1);
  }

  /** The tail is more than half exactly when b does not exceed c. */
  lemma TailVersusHalf(b: nat, c: nat)
    ensures 2 * UpperTail(b, c) > Pow2(b + c) <==> b <= c
  {
    var n := b + c;
    TailsOverlap(b, c);
    if b <= c {
      SumMonotone(n, c, n + 1, b);
    } else {
      LowerTail(b, c);
      RowSum(n);
      SumSplit(n, 0, b, n + 1);
      SumSplit(n, 0, c + 1, b);
    }
  }

  // ----- the central coefficient -----

  lemma CentralStep(m: nat)
    ensures (m + 1) * Comb(2 * m + 2, m + 1) == 2 * (2 * m + 1) * Comb(2 * m, m)
  {
    Absorption(2 * m + 1, m + 1);
    CombSymmetric(2 * m + 1, m);
    assert Comb(2 * m + 2, m + 1) == Comb(2 * m + 1, m) + Comb(2 * m + 1, m + 1);
    assert (m + 1) * Comb(2 * m + 1, m + 1) == (2 * m + 1) * Comb(2 * m, m);
  }

  /** (comb(2m, m) / 4^m)^2 * (2m + 1) <= 1 */
  lemma {:induction false} CentralBound(m: nat)
    ensures (2 * m + 1) * (Comb(2 * m, m) * Comb(2 * m, m)) <= Pow2(2 * m) * Pow2(2 * m)
  {
    if m > 0 {
      var k := m - 1;
      CentralBound(k);
      CentralStep(k);
      CentralSquares(m, Comb(2 * k, k), Comb(2 * m, m), Pow2(2 * k));
      assert Pow2(2 * m) == 4 * Pow2(2 * k);
    }
  }

  lemma CentralSquares(m: nat, c: nat, c': nat, p: nat)
    requires m > 0 && m * c' == 2 * (2 * m - 1) * c
    requires (2 * m - 1) * (c * c) <= p * p
    ensures (2 * m + 1) * (c' * c') <= (4 * p) * (4 * p)
  {
    var q := 2 * m - 1;
    calc {
      (m * m) * ((2 * m + 1) * (c' * c'));
      (2 * m + 1) * ((m * c') * (m * c'));
      (2 * m + 1) * ((2 * q * c) * (2 * q * c));
      4 * ((2 * m + 1) * q) * (q * (c * c));
    }
    assert (2 * m + 1) * q == 4 * (m * m) - 1;
    assert (2 * m + 1) * q <= 4 * (m * m);
    assert ((2 * m + 1) * q) * (q * (c * c)) <= (4 * (m * m)) * (p * p) by {
      MulBoth((2 * m + 1) * q, 4 * (m * m), q * (c * c), p * p);
    }
    assert (m * m) * ((2 * m + 1) * (c' * c')) <= (m * m) * ((4 * p) * (4 * p));
    CancelLeft(m * m, (2 * m + 1) * (c' * c'), (4 * p) * (4 * p));
  }

  lemma MulBoth(a: nat, a': nat, b: nat, b': nat)
    requires a <= a' && b <= b'
    ensures a * b <= a' * b'
  {
    assert a * b <= a' * b;
    assert a' * b <= a' * b';
  }

  lemma CancelLeft(k: nat, x: nat, y: nat)
    requires k > 0 && k * x <= k * y
    ensures x <= y
  {
    if x > y {
      MulBoth(k, k, y + 1, x);
    }
  }
}
