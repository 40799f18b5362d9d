/** Bisection for beta quantiles and the Clopper-Pearson bounds built on it (wevibe_bench/stats.py). */
module Quantile {
  import opened Binomial
  import opened RealArith
  import opened Wrappers

  /** The incomplete beta function before its edge cases: two shape parameters and a point. */
  type Beta = (real, real, real) -> real

  const STEPS := 120

  /** _regularized_incomplete_beta as a function of the point, with its two exact ends. */
  function Cdf(beta: Beta, a: real, b: real): real -> real {
    x => if x == 0.0 then 0.0 else if x == 1.0 then 1.0 else beta(a, b, x)
  }

  // ----- bisection -----

  /** The bracket after i halvings of [0, 1]; the source makes STEPS of them, the proofs allow any number. */
  function Bisect(f: real -> real, p: real, i: nat): (real, real)
    decreases i
  {
    if i == 0 then (0.0, 1.0)
    else
      var (lo, hi) := Bisect(f, p, i - 1);
      var mid := (lo + hi) / 2.0;
      if f(mid) < p then (mid, hi) else (lo, mid)
  }

  function Width(i: nat): real { if i == 0 then 1.0 else Width(i - 1) / 2.0 }

  function Midpoint(f: real -> real, p: real, i: nat): real {
    var (lo, hi) := Bisect(f, p, i);
    (lo + hi) / 2.0
  }

  function QuantileOf(beta: Beta, p: real, a: real, b: real, steps: nat := STEPS): Result<real> {
    if !(0.0 <= p <= 1.0) || a <= 0.0 || b <= 0.0 then ValueError
    else if p == 0.0 then Ok(0.0)
    else if p == 1.0 then Ok(1.0)
    else Ok(Midpoint(Cdf(beta, a, b), p, steps))
  }

  method BetaQuantile(beta: Beta, p: real, a: real, b: real, steps: nat := STEPS) returns (r: Result<real>)
    ensures r == QuantileOf(beta, p, a, b, steps)
  {
    if !(0.0 <= p <= 1.0) || a <= 0.0 || b <= 0.0 {
      return ValueError;
    }
    if p == 0.0 {
      return Ok(0.0);
    }
    if p == 1.0 {
      return Ok(1.0);
    }
    var lo, hi := 0.0, 1.0;
    for i := 0 to steps
      invariant (lo, hi) == Bisect(Cdf(beta, a, b), p, i)
    {
      var mid := (lo + hi) / 2.0;
      var cdf := Cdf(beta, a, b)(mid);
      if cdf < p {
        lo := mid;
      } else {
        hi := mid;
      }
    }
    r := Ok((lo + hi) / 2.0);
  }

  ghost predicate Monotone(f: real -> real) {
    forall x, y :: 0.0 <= x <= y <= 1.0 ==> f(x) <= f(y)
  }

  lemma {:induction false} WidthPositive(i: nat)
    ensures 0.0 < Width(i) <= 1.0
  {
    if i > 0 {
      WidthPositive(i - 1);
    }
  }

  /** The loop invariant: the bracket halves, stays in [0, 1] and keeps f(lo) < p <= f(hi). */
  lemma {:induction false} BisectBrackets(f: real -> real, p: real, i: nat)
    requires f(0.0) < p <= f(1.0)
    ensures
      var (lo, hi) := Bisect(f, p, i);
      0.0 <= lo < hi <= 1.0 && hi - lo == Width(i) && f(lo) < p <= f(hi)
  {
    WidthPositive(i);
    if i > 0 {
      BisectBrackets(f, p, i - 1);
    }
  }

  /** For a monotone curve the midpoint is within half a bracket of the crossing of level p. */
  lemma MidpointLocates(f: real -> real, p: real, i: nat, x: real)
    requires Monotone(f) && f(0.0) < p <= f(1.0) && 0.0 <= x <= 1.0
    ensures 0.0 < Midpoint(f, p, i) < 1.0
    ensures f(x) < p ==> x < Midpoint(f, p, i) + Width(i + 1)
    ensures f(x) >= p ==> x > Midpoint(f, p, i) - Width(i + 1)
  {
    BisectBrackets(f, p, i);
    var (lo, hi) := Bisect(f, p, i);
    if hi <= x {
      assert f(hi) <= f(x);
    }
    if x <= lo {
      assert f(x) <= f(lo);
    }
  }

  /** Run on two curves at two levels, bisection cannot pass a point where the first run turns
      right and the second left; so the first bracket equals the second or lies below it. */
  lemma {:induction false} CoupledRuns(f: real -> real, p: real, g: real -> real, q: real, i: nat)
    requires forall m :: 0.0 < m < 1.0 && f(m) < p ==> g(m) < q
    ensures
      var (lo, hi) := Bisect(f, p, i);
      var (lo', hi') := Bisect(g, q, i);
      && 0.0 <= lo && 0.0 <= lo' && hi <= 1.0 && hi' <= 1.0
      && hi - lo == hi' - lo' == Width(i)
      && (lo == lo' || hi <= lo')
  {
    WidthPositive(i);
    if i > 0 {
      CoupledRuns(f, p, g, q, i - 1);
      WidthPositive(i - 1);
      var (lo, hi) := Bisect(f, p, i - 1);
      var mid := (lo + hi) / 2.0;
      assert 0.0 < mid < 1.0;
    }
  }

  lemma MidpointOrdered(f: real -> real, p: real, g: real -> real, q: real, i: nat)
    requires forall m :: 0.0 < m < 1.0 && f(m) < p ==> g(m) < q
    ensures 0.0 < Midpoint(f, p, i) <= Midpoint(g, q, i) < 1.0
  {
    CoupledRuns(f, p, g, q, i);
    WidthPositive(i);
  }

  /** The quantile of a fixed curve is monotone in the level, whatever the curve is. */
  lemma QuantileMonotone(beta: Beta, p: real, q: real, a: real, b: real, i: nat)
    requires 0.0 <= p <= q <= 1.0 && 0.0 < a && 0.0 < b
    ensures QuantileOf(beta, p, a, b, i).Ok? && QuantileOf(beta, q, a, b, i).Ok?
    ensures 0.0 <= QuantileOf(beta, p, a, b, i).value <= QuantileOf(beta, q, a, b, i).value <= 1.0
  {
    var f := Cdf(beta, a, b);
    MidpointOrdered(f, p, f, q, i);
    MidpointOrdered(f, p, f, p, i);
    MidpointOrdered(f, q, f, q, i);
  }

  // ----- Clopper-Pearson -----

  predicate CountsValid(successes: int, n: int) { 0 <= n && 0 <= successes <= n }
  predicate AlphaValid(alpha: real) { 0.0 < alpha < 1.0 }

  function ClopperPearsonInterval(beta: Beta, successes: int, n: int, alpha: real, steps: nat := STEPS): Result<(real, real)> {
    if !CountsValid(successes, n) || !AlphaValid(alpha) then ValueError
    else if n == 0 then Ok((0.0, 1.0))
    else
      var lower := if successes == 0 then Ok(0.0)
                   else QuantileOf(beta, alpha / 2.0, successes as real, (n - successes + 1) as real, steps);
      var upper := if successes == n then Ok(1.0)
                   else QuantileOf(beta, 1.0 - alpha / 2.0, (successes + 1) as real, (n - successes) as real, steps);
      if lower.Ok? && upper.Ok? then Ok((lower.value, upper.value)) else ValueError
  }

  function ClopperPearsonUpper(beta: Beta, successes: int, n: int, alpha: real, steps: nat := STEPS): Result<real> {
    if !CountsValid(successes, n) || !AlphaValid(alpha) then ValueError
    else if n == 0 then Ok(1.0)
    else if successes == n then Ok(1.0)
    else QuantileOf(beta, 1.0 - alpha, (successes + 1) as real, (n - successes) as real, steps)
  }

  /** The quantile exists exactly at a level in [0, 1] with positive parameters, and is exact at both ends. */
  lemma QuantileDefined(beta: Beta, p: real, a: real, b: real, steps: nat)
    ensures QuantileOf(beta, p, a, b, steps).Ok? <==> 0.0 <= p <= 1.0 && 0.0 < a && 0.0 < b
    ensures 0.0 < a && 0.0 < b ==> QuantileOf(beta, 0.0, a, b, steps) == Ok(0.0) && QuantileOf(beta, 1.0, a, b, steps) == Ok(1.0)
  {
  }

  /** A valid call never fails and an invalid one always does; no trials, no success and no failure give exact ends. */
  lemma IntervalDefined(beta: Beta, s: int, n: int, alpha: real, steps: nat)
    ensures ClopperPearsonInterval(beta, s, n, alpha, steps).Ok? <==> 0 <= s <= n && 0.0 < alpha < 1.0
    ensures ClopperPearsonUpper(beta, s, n, alpha, steps).Ok? <==> 0 <= s <= n && 0.0 < alpha < 1.0
    ensures 0 <= s <= n && 0.0 < alpha < 1.0 ==>
      var (lower, upper) := ClopperPearsonInterval(beta, s, n, alpha, steps).value;
      && (s == 0 ==> lower == 0.0) && (s == n ==> upper == 1.0 && ClopperPearsonUpper(beta, s, n, alpha, steps) == Ok(1.0))
  {
  }

  /** A smaller alpha gives an interval that contains the one of a larger alpha. */
  lemma SmallerAlphaContains(beta: Beta, s: int, n: int, alpha: real, larger: real, steps: nat)
    requires CountsValid(s, n) && AlphaValid(alpha) && AlphaValid(larger) && alpha <= larger
    ensures
      var wide, narrow := ClopperPearsonInterval(beta, s, n, alpha, steps), ClopperPearsonInterval(beta, s, n, larger, steps);
      && wide.Ok? && narrow.Ok?
      && wide.value.0 <= narrow.value.0
      && narrow.value.1 <= wide.value.1
  {
    if 0 < s {
      QuantileMonotone(beta, alpha / 2.0, larger / 2.0, s as real, (n - s + 1) as real, steps);
    }
    if s < n {
      QuantileMonotone(beta, 1.0 - larger / 2.0, 1.0 - alpha / 2.0, (s + 1) as real, (n - s) as real, steps);
    }
  }

  /** The one-sided bound at alpha never exceeds the two-sided one, and at alpha / 2 is equal to it. */
  lemma OneSidedUpper(beta: Beta, s: int, n: int, alpha: real, steps: nat)
    requires CountsValid(s, n) && AlphaValid(alpha)
    ensures
      var upper, halved := ClopperPearsonUpper(beta, s, n, alpha, steps), ClopperPearsonUpper(beta, s, n, alpha / 2.0, steps);
      var both := ClopperPearsonInterval(beta, s, n, alpha, steps);
      upper.Ok? && halved.Ok? && both.Ok? && upper.value <= both.value.1 == halved.value
  {
    if s < n {
      QuantileMonotone(beta, 1.0 - alpha, 1.0 - alpha / 2.0, (s + 1) as real, (n - s) as real, steps);
    }
  }

  // ----- inversion of the exact binomial tests -----

  /** The probability of s or more successes in n trials of probability x, by the last trial. */
  function Tail(n: nat, s: nat, x: real): real {
    if s == 0 then 1.0
    else if n == 0 then 0.0
    else Mul(x, Tail(n - 1, s - 1, x)) + Mul(1.0 - x, Tail(n - 1, s, x))
  }

  /** A mixture of two values lies between them. */
  lemma MixBetween(x: real, u: real, v: real)
    requires 0.0 <= x <= 1.0 && v <= u
    ensures v <= Mul(x, u) + Mul(1.0 - x, v) <= u
  {
    MulMono(v, u, x);
    MulMono(v, u, 1.0 - x);
    MulAdd(x, 1.0 - x, u);
    MulAdd(x, 1.0 - x, v);
  }

  lemma {:induction false} TailOrdered(n: nat, s: nat, x: real)
    requires 0.0 <= x <= 1.0
    ensures 0.0 <= Tail(n, s + 1, x) <= Tail(n, s, x) <= 1.0
  {
    if n > 0 {
      TailOrdered(n - 1, s, x);
      MixBetween(x, Tail(n - 1, s, x), Tail(n - 1, s + 1, x));
      if s > 0 {
        TailOrdered(n - 1, s - 1, x);
        MixBetween(x, Tail(n - 1, s - 1, x), Tail(n - 1, s, x));
      }
    }
  }

  /** More likely success makes s or more successes more likely. */
  lemma {:induction false} TailMonotone(n: nat, s: nat, x: real, y: real)
    requires 0.0 <= x <= y <= 1.0
    ensures Tail(n, s, x) <= Tail(n, s, y)
  {
    if s > 0 && n > 0 {
      TailMonotone(n - 1, s - 1, x, y);
      TailMonotone(n - 1, s, x, y);
      TailOrdered(n - 1, s - 1, x);
      MulMono(Tail(n - 1, s - 1, x), Tail(n - 1, s - 1, y), y);
      MulMono(Tail(n - 1, s, x), Tail(n - 1, s, y), 1.0 - y);
      Shift(x, y, Tail(n - 1, s - 1, x), Tail(n - 1, s, x));
    }
  }

  /** Moving weight to the larger of two values does not lower the mixture. */
  lemma Shift(x: real, y: real, u: real, v: real)
    requires x <= y && v <= u
    ensures Mul(x, u) + Mul(1.0 - x, v) <= Mul(y, u) + Mul(1.0 - y, v)
  {
    MulMono(v, u, y - x);
    MulAdd(y, x, u);
    MulAdd(y, x, v);
    MulAdd(1.0, x, v);
    MulAdd(1.0, y, v);
  }

  /** For a fair trial the tail is the one the sign test counts. */
  lemma {:induction false} FairTail(n: nat, s: nat)
    ensures Mul(Tail(n, s, 0.5), Pow2(n) as real) == SumComb(n, s, n + 1) as real
  {
    if s == 0 {
      RowSum(n);
    } else if n == 0 {
      assert SumComb(0, s, 1) == 0;
    } else {
      FairTail(n - 1, s - 1);
      FairTail(n - 1, s);
      SumPascalFrom(n, s, n + 1);
      assert SumComb(n - 1, s, n + 1) == SumComb(n - 1, s, n) + if s <= n then Comb(n - 1, n) else 0;
      HalvesAdd(Tail(n - 1, s - 1, 0.5), Tail(n - 1, s, 0.5), Pow2(n - 1) as real);
    }
  }

  lemma HalvesAdd(u: real, v: real, d: real)
    ensures Mul(Mul(0.5, u) + Mul(1.0 - 0.5, v), 2.0 * d) == Mul(u, d) + Mul(v, d)
  {
    assert Mul(0.5, u) + Mul(1.0 - 0.5, v) == (u + v) / 2.0;
    MulAdd(u, v, d);
    Halve(u + v, d);
  }

  lemma Halve(x: real, d: real)
    ensures Mul(x / 2.0, 2.0 * d) == Mul(x, d)
  {
    MulAdd(d, d, x / 2.0);
    MulAdd(x / 2.0, x / 2.0, d);
  }

  lemma {:induction false} TailEnds(n: nat, s: nat)
    requires 0 < s
    ensures Tail(n, s, 0.0) == 0.0
    ensures s <= n ==> Tail(n, s, 1.0) == 1.0
  {
    if n > 0 {
      TailEnds(n - 1, s);
      if s > 1 {
        TailEnds(n - 1, s - 1);
      }
    }
  }

  /** The contract of the incomplete beta function at whole shape parameters. */
  ghost predicate IsBinomialTail(beta: Beta) {
    forall n: nat, s: nat, x: real ::
      1 <= s <= n && 0.0 < x < 1.0 ==> beta(s as real, (n - s + 1) as real, x) == Tail(n, s, x)
  }

  lemma CdfIsTail(beta: Beta, n: nat, s: nat, x: real)
    requires IsBinomialTail(beta) && 1 <= s <= n && 0.0 <= x <= 1.0
    ensures Cdf(beta, s as real, (n - s + 1) as real)(x) == Tail(n, s, x)
  {
    TailEnds(n, s);
    if 0.0 < x < 1.0 {
      assert beta(s as real, (n - s + 1) as real, x) == Tail(n, s, x);
    }
  }

  /** The quantile of level p is the success probability at which s or more successes have probability p. */
  lemma QuantileInvertsTail(beta: Beta, n: nat, s: nat, p: real, steps: nat, x: real)
    requires IsBinomialTail(beta) && 1 <= s <= n && 0.0 < p < 1.0 && 0.0 <= x <= 1.0
    ensures
      var r := QuantileOf(beta, p, s as real, (n - s + 1) as real, steps);
      && r.Ok?
      && 0.0 < r.value < 1.0
      && (Tail(n, s, x) < p ==> x < r.value + Width(steps + 1))
      && (Tail(n, s, x) >= p ==> x > r.value - Width(steps + 1))
  {
    var f := Cdf(beta, s as real, (n - s + 1) as real);
    CdfIsTail(beta, n, s, x);
    forall u, v | 0.0 <= u <= v <= 1.0 ensures f(u) <= f(v) {
      CdfIsTail(beta, n, s, u);
      CdfIsTail(beta, n, s, v);
      TailMonotone(n, s, u, v);
    }
    MidpointLocates(f, p, steps, x);
  }

  /** The interval is ordered, in [0, 1]. */
  lemma IntervalOrdered(beta: Beta, s: int, n: int, alpha: real, steps: nat)
    requires IsBinomialTail(beta) && CountsValid(s, n) && AlphaValid(alpha)
    ensures
      var r := ClopperPearsonInterval(beta, s, n, alpha, steps);
      r.Ok? && 0.0 <= r.value.0 <= r.value.1 <= 1.0
  {
    if 0 < s {
      QuantileInvertsTail(beta, n, s, alpha / 2.0, steps, 0.0);
    }
    if s < n {
      QuantileInvertsTail(beta, n, s + 1, 1.0 - alpha / 2.0, steps, 0.0);
    }
    if 0 < s < n {
      var f := Cdf(beta, s as real, (n - s + 1) as real);
      var g := Cdf(beta, (s + 1) as real, (n - s) as real);
      forall m | 0.0 < m < 1.0 && f(m) < alpha / 2.0 ensures g(m) < 1.0 - alpha / 2.0 {
        CdfIsTail(beta, n, s, m);
        CdfIsTail(beta, n, s + 1, m);
        TailOrdered(n, s, m);
      }
      MidpointOrdered(f, alpha / 2.0, g, 1.0 - alpha / 2.0, steps);
    }
  }

  /** Up to the last bracket the interval is the set of accepted success probabilities. */
  lemma IntervalInvertsTests(beta: Beta, s: nat, n: nat, alpha: real, steps: nat, x: real)
    requires IsBinomialTail(beta) && s <= n && 0 < n && AlphaValid(alpha) && 0.0 <= x <= 1.0
    ensures
      var r := ClopperPearsonInterval(beta, s, n, alpha, steps);
      var e := Width(steps + 1);
      // accepted: neither one-sided exact binomial test rejects x at alpha / 2
      var accepted := Tail(n, s, x) >= alpha / 2.0 && 1.0 - Tail(n, s + 1, x) > alpha / 2.0;
      && r.Ok?
      && (accepted ==> r.value.0 - e < x < r.value.1 + e)
      && (!accepted ==> x < r.value.0 + e || x > r.value.1 - e)
  {
    WidthPositive(steps + 1);
    if 0 < s {
      QuantileInvertsTail(beta, n, s, alpha / 2.0, steps, x);
    }
    if s < n {
      QuantileInvertsTail(beta, n, s + 1, 1.0 - alpha / 2.0, steps, x);
    } else {
      BeyondAll(n, x);
    }
  }

  lemma {:induction false} BeyondAll(n: nat, x: real)
    ensures Tail(n, n + 1, x) == 0.0
  {
    if n > 0 {
      BeyondAll(n - 1, x);
      BeyondAllMore(n - 1, n + 1, x);
    }
  }

  lemma {:induction false} BeyondAllMore(n: nat, s: nat, x: real)
    requires s > n
    ensures Tail(n, s, x) == 0.0
  {
    if n > 0 {
      BeyondAllMore(n - 1, s - 1, x);
      BeyondAllMore(n - 1, s, x);
    }
  }

  function Power(x: real, n: nat): real { if n == 0 then 1.0 else Mul(x, Power(x, n - 1)) }

  lemma {:induction false} SomeSuccess(n: nat, x: real)
    ensures Tail(n, 1, x) == 1.0 - Power(1.0 - x, n)
  {
    if n > 0 {
      SomeSuccess(n - 1, x);
      MulAdd(1.0, Power(1.0 - x, n - 1), 1.0 - x);
    }
  }

  /** With no success the one-sided bound is 1 - alpha ** (1 / n): the x with (1 - x)^n == alpha. */
  lemma ZeroSuccessUpper(beta: Beta, n: nat, alpha: real, steps: nat, x: real)
    requires IsBinomialTail(beta) && 0 < n && AlphaValid(alpha) && 0.0 <= x <= 1.0
    ensures
      var r := ClopperPearsonUpper(beta, 0, n, alpha, steps);
      && r.Ok?
      && (Power(1.0 - x, n) > alpha ==> x < r.value + Width(steps + 1))
      && (Power(1.0 - x, n) <= alpha ==> x > r.value - Width(steps + 1))
  {
    SomeSuccess(n, x);
    QuantileInvertsTail(beta, n, 1, 1.0 - alpha, steps, x);
  }
}
