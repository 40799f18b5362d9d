/** One-way ANOVA intra-class correlation (intra_class_correlation in wevibe_bench/stats.py). */
module Icc {
  import opened Folds
  import opened RealArith
  import opened Wrappers
  import opened Percentiles

  // ----- the quantities of the source -----

  function NonEmpty(groups: seq<seq<real>>): (r: seq<seq<real>>)
    ensures forall g <- r :: |g| > 0 && g in groups
    ensures forall g <- groups :: |g| > 0 ==> g in r
  {
    if |groups| == 0 then []
    else NonEmpty(groups[..|groups| - 1]) + if |groups[|groups| - 1]| > 0 then [groups[|groups| - 1]] else []
  }

  function Flatten(groups: seq<seq<real>>): seq<real> {
    if |groups| == 0 then [] else Flatten(groups[..|groups| - 1]) + groups[|groups| - 1]
  }

  /** Leaving out the groups without values loses no value and moves none. */
  lemma {:induction false} ValuesKept(groups: seq<seq<real>>)
    ensures Flatten(NonEmpty(groups)) == Flatten(groups)
    ensures |NonEmpty(groups)| <= |groups| && (|NonEmpty(groups)| == |groups| <==> forall g <- groups :: |g| > 0)
  {
    if |groups| > 0 {
      var front, g := groups[..|groups| - 1], groups[|groups| - 1];
      ValuesKept(front);
      LastOrEarlier(groups);
      if |g| > 0 {
        assert (NonEmpty(front) + [g])[..|NonEmpty(front)|] == NonEmpty(front);
      } else {
        assert NonEmpty(groups) == NonEmpty(front) && Flatten(front) + g == Flatten(front);
      }
    }
  }

  /** sum((value - m) ** 2) */
  function Deviation(s: seq<real>, m: real): real {
    if |s| == 0 then 0.0 else Deviation(s[..|s| - 1], m) + Square(s[|s| - 1] - m)
  }

  /** sum(len(group) * (fmean(group) - m) ** 2) */
  function Between(groups: seq<seq<real>>, m: real): real {
    if |groups| == 0 then 0.0
    else
      var g := groups[|groups| - 1];
      Between(groups[..|groups| - 1], m) + Mul(|g| as real, Square(Mean(g) - m))
  }

  function Correlation(groups: seq<seq<real>>): Option<real> {
    var nonEmpty := NonEmpty(groups);
    if |nonEmpty| < 2 then None
    else
      var values := Flatten(nonEmpty);
      var grandMean := Mean(values);
      var totalSs := Deviation(values, grandMean);
      if totalSs == 0.0 || |values| <= |nonEmpty| then None
      else Ratio(totalSs, Between(nonEmpty, grandMean), |values|, |nonEmpty|)
  }

  /** The mean squares and their ratio. */
  function Ratio(totalSs: real, ssBetween: real, n: nat, k: nat): Option<real>
    requires 2 <= k < n
  {
    var ssWithin := totalSs - ssBetween;
    var msBetween := ssBetween / (k - 1) as real;
    var msWithin := ssWithin / (n - k) as real;
    var denom := msBetween + Mul(n as real / k as real - 1.0, msWithin);
    if denom == 0.0 then None else Some((msBetween - msWithin) / denom)
  }

  // ----- the sum-of-squares decomposition -----

  /** The squared deviations from each group's own mean, which the source never sums. */
  function Within(groups: seq<seq<real>>): real {
    if |groups| == 0 then 0.0
    else Within(groups[..|groups| - 1]) + Deviation(groups[|groups| - 1], Mean(groups[|groups| - 1]))
  }

  lemma SquareOfSum(a: real, b: real)
    ensures Square(a + b) == Square(a) + 2.0 * Mul(b, a) + Square(b)
  {
    MulAdd(a, b, a + b);
    MulAdd(a, b, a);
    MulAdd(a, b, b);
    MulComm(a, b);
  }

  lemma SquareNonNegative(a: real)
    ensures Square(a) >= 0.0
    ensures Square(a) == 0.0 <==> a == 0.0
  {
    if a > 0.0 {
      MulPositive(a, a);
    } else if a < 0.0 {
      MulPositive(-a, -a);
      MulAdd(0.0, a, -a);
      MulAdd(0.0, a, a);
    }
  }

  /** Moving the centre from c to m. */
  lemma {:induction false} DeviationShift(s: seq<real>, c: real, m: real)
    ensures Deviation(s, m)
         == Deviation(s, c) + 2.0 * Mul(c - m, Sum(s) - Mul(|s| as real, c)) + Mul(|s| as real, Square(c - m))
  {
    var b := c - m;
    if |s| > 0 {
      var n, v := |s| as real, s[|s| - 1];
      var front := s[..|s| - 1];
      DeviationShift(front, c, m);
      SquareOfSum(v - c, b);
      MulAdd(n, 1.0, c);
      MulAdd(n, 1.0, Square(b));
      MulAdd(Sum(front) - Mul(n - 1.0, c), v - c, b);
    }
  }

  lemma DeviationFromMean(s: seq<real>, m: real)
    requires |s| > 0
    ensures Deviation(s, m) == Deviation(s, Mean(s)) + Mul(|s| as real, Square(Mean(s) - m))
  {
    QuotientMul(Sum(s), |s| as real);
    MulComm(Mean(s), |s| as real);
    DeviationFromCentre(s, Mean(s), m);
  }

  lemma DeviationFromCentre(s: seq<real>, c: real, m: real)
    requires Mul(|s| as real, c) == Sum(s)
    ensures Deviation(s, m) == Deviation(s, c) + Mul(|s| as real, Square(c - m))
  {
    DeviationShift(s, c, m);
    MulComm(c - m, 0.0);
  }

  lemma {:induction false} DeviationAppend(a: seq<real>, b: seq<real>, m: real)
    ensures Deviation(a + b, m) == Deviation(a, m) + Deviation(b, m)
  {
    if |b| == 0 {
      assert a + b == a;
    } else {
      assert (a + b)[..|a + b| - 1] == a + b[..|b| - 1];
      DeviationAppend(a, b[..|b| - 1], m);
    }
  }

  /** ss_within, which the source gets by subtraction, is the sum of squared within-group deviations. */
  lemma {:induction false} Decomposition(groups: seq<seq<real>>, m: real)
    requires forall g <- groups :: |g| > 0
    ensures Deviation(Flatten(groups), m) - Between(groups, m) == Within(groups)
  {
    if |groups| > 0 {
      var front, g := groups[..|groups| - 1], groups[|groups| - 1];
      assert g in groups && forall x <- front :: x in groups;
      Decomposition(front, m);
      DeviationAppend(Flatten(front), g, m);
      DeviationFromMean(g, m);
    }
  }

  // ----- signs and zeros -----

  lemma {:induction false} DeviationSign(s: seq<real>, m: real)
    ensures Deviation(s, m) >= 0.0
    ensures Deviation(s, m) == 0.0 <==> forall v <- s :: v == m
  {
    if |s| > 0 {
      var front, v := s[..|s| - 1], s[|s| - 1];
      DeviationSign(front, m);
      SquareNonNegative(v - m);
      assert v in s && forall x :: x in s <==> x in front || x == v;
    }
  }

  ghost predicate Constant(s: seq<real>) { forall i, j :: 0 <= i < |s| && 0 <= j < |s| ==> s[i] == s[j] }

  lemma DeviationZero(s: seq<real>)
    requires |s| > 0
    ensures Deviation(s, Mean(s)) >= 0.0
    ensures Deviation(s, Mean(s)) == 0.0 <==> Constant(s)
  {
    DeviationSign(s, Mean(s));
    if Constant(s) {
      MeanBetween(s, s[0], s[0]);
    } else {
      var i, j :| 0 <= i < |s| && 0 <= j < |s| && s[i] != s[j];
      assert s[i] in s && s[j] in s;
    }
  }

  lemma {:induction false} WithinSign(groups: seq<seq<real>>)
    requires forall g <- groups :: |g| > 0
    ensures Within(groups) >= 0.0
    ensures Within(groups) == 0.0 <==> forall g <- groups :: Constant(g)
  {
    if |groups| > 0 {
      var front, g := groups[..|groups| - 1], groups[|groups| - 1];
      assert groups == front + [g];
      WithinSign(front);
      DeviationZero(g);
    }
  }

  lemma {:induction false} BetweenSign(groups: seq<seq<real>>, m: real)
    requires forall g <- groups :: |g| > 0
    ensures Between(groups, m) >= 0.0
    ensures Between(groups, m) == 0.0 <==> forall g <- groups :: Mean(g) == m
  {
    if |groups| > 0 {
      var front, g := groups[..|groups| - 1], groups[|groups| - 1];
      assert groups == front + [g];
      BetweenSign(front, m);
      SquareNonNegative(Mean(g) - m);
      if Mean(g) != m {
        MulPositive(|g| as real, Square(Mean(g) - m));
      }
    }
  }

  lemma {:induction false} FlattenLength(groups: seq<seq<real>>)
    requires forall g <- groups :: |g| > 0
    ensures |Flatten(groups)| >= |groups|
    ensures |Flatten(groups)| == |groups| <==> forall g <- groups :: |g| == 1
  {
    if |groups| > 0 {
      var front, g := groups[..|groups| - 1], groups[|groups| - 1];
      assert groups == front + [g];
      FlattenLength(front);
    }
  }

  // ----- the ratio -----

  lemma QuotientSign(x: real, d: real)
    requires x >= 0.0 && d > 0.0
    ensures x / d >= 0.0 && (x / d == 0.0 <==> x == 0.0)
  {
    DivideBy(0.0, x, d);
    DivideBy(x, 0.0, d);
  }

  /** (b - w) / (b + (m - 1) w) for mean squares b and w that are not both zero. */
  lemma RatioRange(b: real, w: real, m: real)
    requires b >= 0.0 && w >= 0.0 && b + w > 0.0 && m > 1.0
    ensures b + Mul(m - 1.0, w) > 0.0
    ensures
      var r := (b - w) / (b + Mul(m - 1.0, w));
      && -1.0 / (m - 1.0) <= r <= 1.0
      && (r == 1.0 <==> w == 0.0)
      && (r == -1.0 / (m - 1.0) <==> b == 0.0)
  {
    var d := b + Mul(m - 1.0, w);
    MulNonNegative(m - 1.0, w);
    if w > 0.0 {
      MulPositive(m - 1.0, w);
    }
    RatioTop(b, w, m, d);
    RatioBottom(b, w, m, d);
  }

  lemma RatioTop(b: real, w: real, m: real, d: real)
    requires b >= 0.0 && w >= 0.0 && m > 1.0 && d == b + Mul(m - 1.0, w) && d > 0.0
    ensures (b - w) / d <= 1.0 && ((b - w) / d == 1.0 <==> w == 0.0)
  {
    MulAdd(m, 1.0, w);
    MulNonNegative(m, w);
    if w > 0.0 {
      MulPositive(m, w);
    }
    DivideBy(b - w, d, d);
    DivideBy(d, b - w, d);
    QuotientMul(d, d);
    Cancel(d / d, 1.0, d);
  }

  lemma RatioBottom(b: real, w: real, m: real, d: real)
    requires b >= 0.0 && w >= 0.0 && m > 1.0 && d == b + Mul(m - 1.0, w) && d > 0.0
    ensures -1.0 / (m - 1.0) <= (b - w) / d && ((b - w) / d == -1.0 / (m - 1.0) <==> b == 0.0)
  {
    var e := m - 1.0;
    var low := -1.0 / e;
    QuotientMul(-1.0, e);
    // low * d == low * b - w
    MulAdd(b, Mul(e, w), low);
    MulAssoc(low, e, w);
    assert Mul(low, d) == Mul(low, b) - w;
    assert low < 0.0 by {
      if low >= 0.0 {
        MulNonNegative(low, e);
      }
    }
    MulMono(low, 0.0, b);
    if b > 0.0 {
      MulStrict(low, 0.0, b);
    }
    var r := (b - w) / d;
    QuotientMul(b - w, d);
    if r < low {
      MulStrict(r, low, d);
    }
    if r == low {
      assert Mul(low, b) == b;
    } else if b == 0.0 {
      Cancel(r, low, d);
    }
  }

  // ----- the result -----

  predicate AllSingletons(groups: seq<seq<real>>) { forall g <- groups :: |g| <= 1 }

  /** Two groups with values, two different values, and a group with two values. */
  ghost predicate Estimable(groups: seq<seq<real>>) {
    |NonEmpty(groups)| >= 2 && !Constant(Flatten(NonEmpty(groups))) && !AllSingletons(groups)
  }

  /** r lies in [-1/(m-1), 1] for the mean group size m > 1, and reaches an end exactly when no group
      varies inside and when all group means agree. */
  ghost predicate Ranged(gs: seq<seq<real>>, r: real) {
    && 0 < |gs| < |Flatten(gs)|
    && var m := |Flatten(gs)| as real / |gs| as real;
    && m > 1.0
    && -1.0 / (m - 1.0) <= r <= 1.0
    && (r == 1.0 <==> forall g <- gs :: Constant(g))
    && (r == -1.0 / (m - 1.0) <==> forall g <- gs :: Mean(g) == Mean(Flatten(gs)))
  }

  /** None comes from the first three guards alone. Otherwise the result is in its range and solves the
      equation of the two mean squares, with k - 1 degrees of freedom between the k groups and n - k
      within them; so it is positive exactly when the mean square between is the larger. */
  lemma WellFounded(groups: seq<seq<real>>)
    ensures Correlation(groups).Some? <==> Estimable(groups)
    ensures Estimable(groups) ==>
      var gs := NonEmpty(groups);
      && Ranged(gs, Correlation(groups).value)
      && Solves(Correlation(groups).value, Between(gs, Mean(Flatten(gs))), Within(gs), |Flatten(gs)|, |gs|)
  {
    GuardsAre(groups);
    if Estimable(groups) {
      RatioOfGroups(NonEmpty(groups));
      GroupsSolve(NonEmpty(groups));
    }
  }

  /** What the source computes from the groups that hold values. */
  function RatioOf(gs: seq<seq<real>>): Option<real>
    requires 2 <= |gs| < |Flatten(gs)|
  {
    var values := Flatten(gs);
    Ratio(Deviation(values, Mean(values)), Between(gs, Mean(values)), |values|, |gs|)
  }

  lemma GuardsAre(groups: seq<seq<real>>)
    ensures
      var gs := NonEmpty(groups);
      && (Estimable(groups) <==> 2 <= |gs| < |Flatten(gs)| && !Constant(Flatten(gs)))
      && Correlation(groups) == if Estimable(groups) then RatioOf(gs) else None
  {
    var gs := NonEmpty(groups);
    FlattenLength(gs);
    if |gs| >= 2 {
      DeviationZero(Flatten(gs));
      assert |Flatten(gs)| == |gs| <==> AllSingletons(groups);
    }
  }

  lemma RatioOfGroups(gs: seq<seq<real>>)
    requires (forall g <- gs :: |g| > 0) && 2 <= |gs| < |Flatten(gs)| && !Constant(Flatten(gs))
    ensures RatioOf(gs).Some? && Ranged(gs, RatioOf(gs).value)
  {
    var values := Flatten(gs);
    var mean := Mean(values);
    var n, k := |values|, |gs|;
    Decomposition(gs, mean);
    DeviationZero(values);
    WithinSign(gs);
    BetweenSign(gs, mean);
    var b, w := Between(gs, mean), Within(gs);
    QuotientSign(b, (k - 1) as real);
    QuotientSign(w, (n - k) as real);
    MeanSize(n, k);
    RatioRange(b / (k - 1) as real, w / (n - k) as real, n as real / k as real);
  }

  lemma PositiveDenominator(gs: seq<seq<real>>)
    requires (forall g <- gs :: |g| > 0) && 2 <= |gs| < |Flatten(gs)| && !Constant(Flatten(gs))
    ensures
      var n, k := |Flatten(gs)|, |gs|;
      var b, w := Between(gs, Mean(Flatten(gs))) / (k - 1) as real, Within(gs) / (n - k) as real;
      b + Mul(n as real / k as real - 1.0, w) > 0.0
  {
    var values := Flatten(gs);
    var n, k, mean := |values|, |gs|, Mean(values);
    Decomposition(gs, mean);
    DeviationZero(values);
    WithinSign(gs);
    BetweenSign(gs, mean);
    QuotientSign(Between(gs, mean), (k - 1) as real);
    QuotientSign(Within(gs), (n - k) as real);
    MeanSize(n, k);
    RatioRange(Between(gs, mean) / (k - 1) as real, Within(gs) / (n - k) as real, n as real / k as real);
  }

  lemma MeanSize(n: nat, k: nat)
    requires 0 < k < n
    ensures n as real / k as real > 1.0
  {
    QuotientMul(n as real, k as real);
    if n as real / k as real <= 1.0 {
      MulMono(n as real / k as real, 1.0, k as real);
    }
  }

  // ----- its value -----

  /** r * ((n - k) B + (m - 1) (k - 1) W) == (n - k) B - (k - 1) W for the mean group size m = n / k, and
      r is positive exactly when the right-hand side is. */
  ghost predicate Solves(r: real, between: real, within: real, n: nat, k: nat)
    requires 0 < k
  {
    var b, w := Mul((n - k) as real, between), Mul((k - 1) as real, within);
    Mul(r, b + Mul(n as real / k as real - 1.0, w)) == b - w && (r > 0.0 <==> b > w)
  }

  lemma RatioSolves(between: real, within: real, n: nat, k: nat)
    requires 2 <= k < n
    requires
      var b, w := between / (k - 1) as real, within / (n - k) as real;
      b + Mul(n as real / k as real - 1.0, w) > 0.0
    ensures
      var b, w := between / (k - 1) as real, within / (n - k) as real;
      Solves((b - w) / (b + Mul(n as real / k as real - 1.0, w)), between, within, n, k)
  {
    var b, w, e := between / (k - 1) as real, within / (n - k) as real, n as real / k as real - 1.0;
    var d := b + Mul(e, w);
    QuotientMul(between, (k - 1) as real);
    QuotientMul(within, (n - k) as real);
    QuotientMul(b - w, d);
    Scaled((b - w) / d, b, w, e, (k - 1) as real, (n - k) as real);
    DivideBy(0.0, b - w, d);
    DivideBy(b - w, 0.0, d);
  }

  /** An equation in the mean squares b and w holds of their sums of squares, weighted crosswise. */
  lemma Scaled(r: real, b: real, w: real, e: real, c: real, d: real)
    requires c > 0.0 && d > 0.0 && Mul(r, b + Mul(e, w)) == b - w
    ensures Mul(r, Mul(d, Mul(b, c)) + Mul(e, Mul(c, Mul(w, d)))) == Mul(d, Mul(b, c)) - Mul(c, Mul(w, d))
    ensures b > w <==> Mul(d, Mul(b, c)) > Mul(c, Mul(w, d))
  {
    var s := Mul(c, d);
    Cross(b, c, d);
    Cross(w, d, c);
    MulComm(c, d);
    Through(e, s, w);
    MulAdd(b, Mul(e, w), s);
    Through(r, s, b + Mul(e, w));
    MulAdd(b, w, s);
    MulPositive(c, d);
    if b > w {
      MulStrict(w, b, s);
    } else {
      MulMono(b, w, s);
    }
  }

  lemma Cross(x: real, c: real, d: real)
    ensures Mul(d, Mul(x, c)) == Mul(Mul(c, d), x)
  {
    MulComm(x, c);
    MulAssoc(d, c, x);
    MulComm(c, d);
  }

  lemma Through(a: real, s: real, x: real)
    ensures Mul(a, Mul(s, x)) == Mul(s, Mul(a, x))
  {
    MulAssoc(a, s, x);
    MulComm(a, s);
    MulAssoc(s, a, x);
  }

  lemma GroupsSolve(gs: seq<seq<real>>)
    requires (forall g <- gs :: |g| > 0) && 2 <= |gs| < |Flatten(gs)| && !Constant(Flatten(gs))
    ensures RatioOf(gs).Some? && Solves(RatioOf(gs).value, Between(gs, Mean(Flatten(gs))), Within(gs), |Flatten(gs)|, |gs|)
  {
    Decomposition(gs, Mean(Flatten(gs)));
    PositiveDenominator(gs);
    RatioSolves(Between(gs, Mean(Flatten(gs))), Within(gs), |Flatten(gs)|, |gs|);
  }
}
