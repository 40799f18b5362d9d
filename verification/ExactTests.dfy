/** The exact paired tests of wevibe_bench/stats.py and the pre-registered decision rule. */
module ExactTests {
  import opened Binomial
  import opened RealArith

  function Min(a: nat, b: nat): nat { if b < a then b else a }

  // ----- counting pairs -----

  function CountIf<T>(s: seq<T>, f: T -> bool): nat {
    if |s| == 0 then 0 else CountIf(s[..|s| - 1], f) + if f(s[|s| - 1]) then 1 else 0
  }

  lemma {:induction false} CountSame<T, U>(s: seq<T>, t: seq<U>, f: T -> bool, g: U -> bool)
    requires |s| == |t| && forall i :: 0 <= i < |s| ==> f(s[i]) == g(t[i])
    ensures CountIf(s, f) == CountIf(t, g)
  {
    if |s| > 0 {
      CountSame(s[..|s| - 1], t[..|t| - 1], f, g);
    }
  }

  /** The positions that hold. */
  function Where<T>(s: seq<T>, f: T -> bool): set<int> {
    set i | 0 <= i < |s| && f(s[i])
  }

  /** Counting from the left is the number of positions that hold. */
  lemma {:induction false} CountIsNumber<T>(s: seq<T>, f: T -> bool)
    ensures CountIf(s, f) == |Where(s, f)|
  {
    if |s| == 0 {
      assert Where(s, f) == {};
    } else {
      var n := |s| - 1;
      CountIsNumber(s[..n], f);
      assert Where(s, f) == Where(s[..n], f) + if f(s[n]) then {n} else {};
    }
  }

  const Rose := (p: (real, real)) => p.1 > p.0
  const Fell := (p: (real, real)) => p.1 < p.0

  // ----- p-values -----

  /** The one-sided p-value: b or more of b + c fair flips. */
  function PGreater(b: nat, c: nat): real {
    if b + c == 0 then 1.0 else UpperTail(b, c) as real / Pow2(b + c) as real
  }

  /** Twice the smaller tail, at most 1. */
  function PTwoSided(b: nat, c: nat): real {
    if b + c == 0 then 1.0
    else RMin(1.0, 2.0 * (SumComb(b + c, 0, Min(b, c) + 1) as real / Pow2(b + c) as real))
  }

  datatype Alternative = Greater | TwoSided | Other(name: string)

  datatype McNemar =
    | ValueError(reason: string)
    | Tested(discordant: nat, b: nat, c: nat, p: real, infiniteOdds: bool, oddsRatio: real, propB: real)

  /** mcnemar_exact without its interval keys. */
  function McNemarExact(b: int, c: int, alternative: Alternative): McNemar {
    if b < 0 || c < 0 then ValueError("discordant counts must be non-negative")
    else if alternative.Other? then ValueError("alternative must be 'greater' or 'two-sided'")
    else if b + c == 0 then Tested(0, b, c, 1.0, false, 1.0, 0.0)
    else
      var p := if alternative.Greater? then PGreater(b, c) else PTwoSided(b, c);
      Tested(b + c, b, c, p, c == 0, if c == 0 then 0.0 else b as real / c as real, b as real / (b + c) as real)
  }

  /** It fails exactly on a negative count or an unknown alternative. The odds ratio is b over c, infinite
      when only c is nothing and one when both are; propB is the share of b. */
  lemma McNemarReports(b: int, c: int, alternative: Alternative)
    ensures
      var r := McNemarExact(b, c, alternative);
      && (r.ValueError? <==> b < 0 || c < 0 || alternative.Other?)
      && (r.Tested? ==>
            && r.b == b && r.c == c && r.discordant == b + c
            && r.p == (if alternative.Greater? then PGreater(b, c) else PTwoSided(b, c))
            && (r.infiniteOdds <==> b > 0 && c == 0)
            && (c > 0 ==> Mul(r.oddsRatio, c as real) == b as real) && (b == c == 0 ==> r.oddsRatio == 1.0)
            && Mul(r.propB, (b + c) as real) == b as real)
  {
    if b >= 0 && c >= 0 && b + c > 0 {
      QuotientMul(b as real, (b + c) as real);
      if c > 0 {
        QuotientMul(b as real, c as real);
      }
    }
  }

  // ----- the sign test -----

  datatype SignTest = SignTest(nPairs: nat, nEffective: nat, nPositive: nat, nNegative: nat, nTies: nat, p: real)

  function SignTestOf(pairs: seq<(real, real)>): SignTest {
    var up, down := CountIf(pairs, Rose), CountIf(pairs, Fell);
    CountsFit(pairs);
    SignTest(|pairs|, up + down, up, down, |pairs| - up - down, PTwoSided(up, down))
  }

  lemma {:induction false} CountsFit(pairs: seq<(real, real)>)
    ensures CountIf(pairs, Rose) + CountIf(pairs, Fell) <= |pairs|
  {
    if |pairs| > 0 {
      CountsFit(pairs[..|pairs| - 1]);
    }
  }

  method ExactPairedSignTest(pairs: seq<(real, real)>) returns (r: SignTest)
    ensures r == SignTestOf(pairs)
  {
    var up, down, ties := 0, 0, 0;
    for i := 0 to |pairs|
      invariant up == CountIf(pairs[..i], Rose) && down == CountIf(pairs[..i], Fell) && up + down + ties == i
    {
      assert pairs[..i + 1][..i] == pairs[..i];
      var (before, after) := pairs[i];
      if after > before {
        up := up + 1;
      } else if after < before {
        down := down + 1;
      } else {
        ties := ties + 1;
      }
    }
    assert pairs[..|pairs|] == pairs;
    var n := up + down;
    var p := 1.0;
    if n != 0 {
      var observed := Min(up, down);
      var tail := SumComb(n, 0, observed + 1) as real / Pow2(n) as real;
      p := RMin(1.0, 2.0 * tail);
    }
    r := SignTest(|pairs|, n, up, down, ties, p);
  }

  function Swapped(pairs: seq<(real, real)>): seq<(real, real)> {
    seq(|pairs|, i requires 0 <= i < |pairs| => (pairs[i].1, pairs[i].0))
  }

  /** The counts of the sign test are the pairs that rose, fell and tied. */
  lemma SignTestCounts(pairs: seq<(real, real)>)
    ensures
      var r := SignTestOf(pairs);
      && r.nPairs == |pairs| == r.nPositive + r.nNegative + r.nTies && r.nEffective == r.nPositive + r.nNegative
      && r.nPositive == |set i | 0 <= i < |pairs| && pairs[i].0 < pairs[i].1|
      && r.nNegative == |set i | 0 <= i < |pairs| && pairs[i].0 > pairs[i].1|
      && r.p == PTwoSided(r.nPositive, r.nNegative)
  {
    CountsFit(pairs);
    CountIsNumber(pairs, Rose);
    CountIsNumber(pairs, Fell);
    assert Where(pairs, Rose) == set i | 0 <= i < |pairs| && pairs[i].0 < pairs[i].1;
    assert Where(pairs, Fell) == set i | 0 <= i < |pairs| && pairs[i].0 > pairs[i].1;
  }

  /** Exchanging before and after exchanges the counts and changes nothing else. */
  lemma SignTestIsSymmetric(pairs: seq<(real, real)>)
    ensures
      var r, s := SignTestOf(pairs), SignTestOf(Swapped(pairs));
      s == r.(nPositive := r.nNegative, nNegative := r.nPositive)
  {
    CountSame(pairs, Swapped(pairs), Rose, Fell);
    CountSame(pairs, Swapped(pairs), Fell, Rose);
  }

  // ----- identities -----

  lemma HalfQuotient(x: real, d: real)
    requires d > 0.0
    ensures x / d <= 0.5 <==> 2.0 * x <= d
  {
  }

  /** The two one-sided p-values sum to one plus the probability of the observed split. */
  lemma OneSidedPair(b: nat, c: nat)
    requires b + c > 0
    ensures PGreater(b, c) + PGreater(c, b) == 1.0 + Comb(b + c, b) as real / Pow2(b + c) as real
  {
    TailsOverlap(b, c);
    assert c + b == b + c;
    QuotientSum(UpperTail(b, c) as real, UpperTail(c, b) as real, Pow2(b + c) as real, Comb(b + c, b) as real);
  }

  /** The two-sided p-value doubles the one-sided p-value of the larger count. */
  lemma TwoSidedDoubles(b: nat, c: nat)
    ensures PTwoSided(b, c) == RMin(1.0, 2.0 * RMin(PGreater(b, c), PGreater(c, b)))
  {
    LowerTail(b, c);
    LowerTail(c, b);
    if b <= c {
      SumMonotone(b + c, c, b + c + 1, b);
      DivideBy(UpperTail(c, b) as real, UpperTail(b, c) as real, Pow2(b + c) as real);
    } else {
      SumMonotone(b + c, b, b + c + 1, c);
      DivideBy(UpperTail(b, c) as real, UpperTail(c, b) as real, Pow2(b + c) as real);
    }
  }

  /** The sign test is two-sided McNemar on its non-tied pairs: twice the smaller of the two
      directional tests, at most 1. */
  lemma SignTestIsTwoSidedMcNemar(pairs: seq<(real, real)>)
    ensures
      var r := SignTestOf(pairs);
      var m := McNemarExact(r.nPositive, r.nNegative, TwoSided);
      var rose, fell := McNemarExact(r.nPositive, r.nNegative, Greater), McNemarExact(r.nNegative, r.nPositive, Greater);
      && m.Tested? && m.p == r.p && m.discordant == r.nEffective
      && rose.Tested? && fell.Tested? && r.p == RMin(1.0, 2.0 * RMin(rose.p, fell.p))
  {
    var r := SignTestOf(pairs);
    TwoSidedDoubles(r.nPositive, r.nNegative);
    assert PGreater(0, 0) == 1.0;
  }

  /** The one-sided p-value is at most 1/2 exactly when b exceeds c. */
  lemma PGreaterVersusHalf(b: nat, c: nat)
    ensures PGreater(b, c) <= 0.5 <==> b > c
  {
    if b + c > 0 {
      TailVersusHalf(b, c);
      HalfQuotient(UpperTail(b, c) as real, Pow2(b + c) as real);
    }
  }

  // ----- the floor of the two-sided test -----

  lemma {:induction false} FloorTail(n: nat, k: nat)
    requires k > 0
    ensures SumComb(n, 0, k) >= 1
  {
    SumFirst(n, 0, k);
  }

  /** No split of n non-tied pairs has a p-value under 2^(1-n), and the one-sided split attains it. */
  lemma SignTestFloor(b: nat, c: nat)
    requires b + c > 0
    ensures PTwoSided(b, c) >= RMin(1.0, 2.0 / Pow2(b + c) as real)
    ensures Min(b, c) == 0 ==> PTwoSided(b, c) == RMin(1.0, 2.0 / Pow2(b + c) as real)
  {
    var n := b + c;
    FloorTail(n, Min(b, c) + 1);
    DivideBy(1.0, SumComb(n, 0, Min(b, c) + 1) as real, Pow2(n) as real);
    assert SumComb(n, 0, 1) == 1 by {
      assert SumComb(n, 0, 0) == 0;
    }
  }

  lemma {:induction false} Pow2Grows(m: nat, n: nat)
    requires m <= n
    ensures Pow2(m) <= Pow2(n)
  {
    if m < n {
      Pow2Grows(m, n - 1);
    }
  }

  lemma SmallPowers()
    ensures Pow2(5) == 32 && Pow2(6) == 64
  {
    assert Pow2(2) == 4 && Pow2(3) == 8 && Pow2(4) == 16;
  }

  lemma FloorOfFew(n: nat)
    requires 0 < n < 6
    ensures RMin(1.0, 2.0 / Pow2(n) as real) >= 0.05
  {
    SmallPowers();
    Pow2Grows(n, 5);
    InverseOrder(2.0, Pow2(n) as real, 32.0);
  }

  lemma TooFewPairs(b: nat, c: nat)
    requires b + c < 6
    ensures PTwoSided(b, c) >= 0.05
  {
    if b + c > 0 {
      SignTestFloor(b, c);
      FloorOfFew(b + c);
    }
  }

  lemma EnoughPairs(n: nat)
    requires n >= 6
    ensures PTwoSided(n, 0) < 0.05
  {
    SignTestFloor(n, 0);
    SmallPowers();
    Pow2Grows(6, n);
    InverseOrder(2.0, 64.0, Pow2(n) as real);
  }

  /** Two-sided p < 0.05 is reachable with n non-tied pairs exactly when n is at least six. */
  lemma SixPairsNeeded(n: nat)
    ensures (exists b: nat, c: nat :: b + c == n && PTwoSided(b, c) < 0.05) <==> n >= 6
  {
    if n >= 6 {
      EnoughPairs(n);
      assert n + 0 == n && PTwoSided(n, 0) < 0.05;
    } else {
      forall b: nat, c: nat | b + c == n ensures PTwoSided(b, c) >= 0.05 {
        TooFewPairs(b, c);
      }
    }
  }

  // ----- the level of the tests -----

  /** How many of the 2^n outcomes of n fair flips have a number of heads below hi that f accepts. */
  function Weight(n: nat, f: nat -> bool, hi: nat): nat {
    if hi == 0 then 0 else Weight(n, f, hi - 1) + if f(hi - 1) then Comb(n, hi - 1) else 0
  }

  /** The splits of n the one-sided test calls significant at a level, in either direction, and the two-sided ones. */
  function Rising(n: nat, alpha: real): nat -> bool { (b: nat) => b <= n && PGreater(b, n - b) <= alpha }
  function Falling(n: nat, alpha: real): nat -> bool { (b: nat) => b <= n && PGreater(n - b, b) <= alpha }
  function Either(n: nat, alpha: real): nat -> bool { (b: nat) => b <= n && PTwoSided(b, n - b) <= alpha }

  lemma {:induction false} WeightAtMostSum(n: nat, f: nat -> bool, lo: nat, hi: nat)
    requires lo <= hi
    ensures Weight(n, f, hi) <= Weight(n, f, lo) + SumComb(n, lo, hi)
    ensures (forall b :: lo <= b < hi ==> f(b)) ==> Weight(n, f, hi) == Weight(n, f, lo) + SumComb(n, lo, hi)
  {
    if lo < hi {
      WeightAtMostSum(n, f, lo, hi - 1);
    }
  }

  lemma {:induction false} WeightOfEither(n: nat, f: nat -> bool, g: nat -> bool, h: nat -> bool, hi: nat)
    requires forall b: nat :: f(b) ==> g(b) || h(b)
    ensures Weight(n, f, hi) <= Weight(n, g, hi) + Weight(n, h, hi)
  {
    if hi > 0 {
      WeightOfEither(n, f, g, h, hi - 1);
    }
  }

  lemma QuotientBound(x: real, d: real, alpha: real)
    requires d > 0.0
    ensures x / d <= alpha <==> x <= Mul(alpha, d)
  {
    QuotientMul(x, d);
    if x / d <= alpha {
      MulMono(x / d, alpha, d);
    } else {
      MulStrict(alpha, x / d, d);
    }
  }

  /** A split is significant when its tail holds at most alpha * 2^n outcomes. */
  lemma TailOf(b: nat, c: nat, alpha: real)
    ensures PGreater(b, c) <= alpha <==> UpperTail(b, c) as real <= Mul(alpha, Pow2(b + c) as real)
  {
    RowSum(0);
    QuotientBound(UpperTail(b, c) as real, Pow2(b + c) as real, alpha);
  }

  /** The significant splits of one direction lie in a tail: the outermost of them bounds them all. */
  lemma {:induction false} FallingLevel(n: nat, alpha: real, hi: nat)
    requires 0.0 <= alpha && hi <= n + 1
    ensures Weight(n, Falling(n, alpha), hi) as real <= Mul(alpha, Pow2(n) as real)
  {
    if hi == 0 {
      MulNonNegative(alpha, Pow2(n) as real);
    } else if Falling(n, alpha)(hi - 1) {
      TailOf(n - (hi - 1), hi - 1, alpha);
      LowerTail(n - (hi - 1), hi - 1);
      WeightAtMostSum(n, Falling(n, alpha), 0, hi);
    } else {
      FallingLevel(n, alpha, hi - 1);
    }
  }

  lemma {:induction false} RisingLevel(n: nat, alpha: real, lo: nat)
    requires 0.0 <= alpha && lo <= n + 1
    ensures (Weight(n, Rising(n, alpha), n + 1) - Weight(n, Rising(n, alpha), lo)) as real <= Mul(alpha, Pow2(n) as real)
    decreases n + 1 - lo
  {
    if lo == n + 1 {
      MulNonNegative(alpha, Pow2(n) as real);
    } else if Rising(n, alpha)(lo) {
      TailOf(lo, n - lo, alpha);
      WeightAtMostSum(n, Rising(n, alpha), lo, n + 1);
    } else {
      RisingLevel(n, alpha, lo + 1);
    }
  }

  /** Every split past a significant one is significant. */
  lemma BeyondIsRising(n: nat, b: nat, alpha: real)
    requires b <= n && PGreater(b, n - b) <= alpha
    ensures forall k :: b <= k < n + 1 ==> Rising(n, alpha)(k)
  {
    TailOf(b, n - b, alpha);
    forall k | b <= k < n + 1 ensures Rising(n, alpha)(k) {
      SumMonotone(n, k, n + 1, b);
      TailOf(k, n - k, alpha);
    }
  }

  /** The one-sided test keeps its level: under the null hypothesis it rejects with probability at most
      alpha, for every n. */
  lemma OneSidedKeepsLevel(n: nat, alpha: real)
    requires 0.0 <= alpha
    ensures Weight(n, Rising(n, alpha), n + 1) as real <= Mul(alpha, Pow2(n) as real)
  {
    RisingLevel(n, alpha, 0);
  }

  /** At a level that is one of its p-values it rejects with exactly that probability. */
  lemma LevelAttained(b: nat, c: nat)
    ensures
      Weight(b + c, Rising(b + c, PGreater(b, c)), b + c + 1) as real == Mul(PGreater(b, c), Pow2(b + c) as real)
  {
    var n, alpha := b + c, PGreater(b, c);
    OneSidedKeepsLevel(n, alpha) by {
      TailOf(b, c, 0.0);
      DivideBy(0.0, UpperTail(b, c) as real, Pow2(n) as real);
    }
    BeyondIsRising(n, b, alpha);
    WeightAtMostSum(n, Rising(n, alpha), b, n + 1);
    TailEquals(b, c);
  }

  lemma TailEquals(b: nat, c: nat)
    ensures UpperTail(b, c) as real == Mul(PGreater(b, c), Pow2(b + c) as real)
  {
    RowSum(0);
    QuotientMul(UpperTail(b, c) as real, Pow2(b + c) as real);
  }

  lemma EitherIsHalved(n: nat, alpha: real, b: nat)
    requires alpha < 1.0 && Either(n, alpha)(b)
    ensures Rising(n, alpha / 2.0)(b) || Falling(n, alpha / 2.0)(b)
  {
    TwoSidedDoubles(b, n - b);
  }

  /** So does the two-sided test, which halves its level between the directions. */
  lemma TwoSidedKeepsLevel(n: nat, alpha: real)
    requires 0.0 <= alpha
    ensures Weight(n, Either(n, alpha), n + 1) as real <= Mul(alpha, Pow2(n) as real)
  {
    if alpha < 1.0 {
      forall b: nat | Either(n, alpha)(b) ensures Rising(n, alpha / 2.0)(b) || Falling(n, alpha / 2.0)(b) {
        EitherIsHalved(n, alpha, b);
      }
      WeightOfEither(n, Either(n, alpha), Rising(n, alpha / 2.0), Falling(n, alpha / 2.0), n + 1);
      RisingLevel(n, alpha / 2.0, 0);
      FallingLevel(n, alpha / 2.0, n + 1);
      MulAdd(alpha / 2.0, alpha / 2.0, Pow2(n) as real);
    } else {
      WeightAtMostSum(n, Either(n, alpha), 0, n + 1);
      RowSum(n);
      MulMono(1.0, alpha, Pow2(n) as real);
    }
  }

  // ----- the paired binary contrast and the decision rule -----

  datatype Contrast = Contrast(nPairs: nat, bothSurvive: nat, b: nat, c: nat, bothDie: nat,
                               noOutcomeRate: real, shippedRate: real, riskDifference: real, p: real)

  const Both := (p: (bool, bool)) => p.0 && p.1
  const First := (p: (bool, bool)) => p.0 && !p.1
  const Second := (p: (bool, bool)) => !p.0 && p.1

  lemma RateDifference(both: nat, b: nat, c: nat, n: nat)
    ensures n > 0 ==> (both + b) as real / n as real - (both + c) as real / n as real == (b as real - c as real) / n as real
  {
  }

  /** The table of a contrast is the count of each kind of pair, and the risk difference is
      the discordant excess over all pairs. */
  method PairedBinaryContrast(pairs: seq<(bool, bool)>) returns (r: Contrast)
    ensures r.nPairs == |pairs| == r.bothSurvive + r.b + r.c + r.bothDie
    ensures r.bothSurvive == CountIf(pairs, Both) && r.b == CountIf(pairs, First) && r.c == CountIf(pairs, Second)
    ensures r.riskDifference == if |pairs| == 0 then 0.0 else (r.b as real - r.c as real) / |pairs| as real
    ensures Mul(r.noOutcomeRate, |pairs| as real) == (r.bothSurvive + r.b) as real
    ensures Mul(r.shippedRate, |pairs| as real) == (r.bothSurvive + r.c) as real
    ensures r.p == PGreater(r.b, r.c)
  {
    var both, b, c, neither := 0, 0, 0, 0;
    for i := 0 to |pairs|
      invariant both == CountIf(pairs[..i], Both) && b == CountIf(pairs[..i], First) && c == CountIf(pairs[..i], Second)
      invariant both + b + c + neither == i
    {
      assert pairs[..i + 1][..i] == pairs[..i];
      var (noOutcome, shipped) := pairs[i];
      if noOutcome && shipped {
        both := both + 1;
      } else if noOutcome && !shipped {
        b := b + 1;
      } else if !noOutcome && shipped {
        c := c + 1;
      } else {
        neither := neither + 1;
      }
    }
    assert pairs[..|pairs|] == pairs;
    var n := |pairs|;
    RateDifference(both, b, c, n);
    var noOutcomeRate := if n == 0 then 0.0 else (both + b) as real / n as real;
    var shippedRate := if n == 0 then 0.0 else (both + c) as real / n as real;
    if n > 0 {
      QuotientMul((both + b) as real, n as real);
      QuotientMul((both + c) as real, n as real);
    }
    var m := McNemarExact(b, c, Greater);
    r := Contrast(n, both, b, c, neither, noOutcomeRate, shippedRate, noOutcomeRate - shippedRate, m.p);
  }

  /** The cells of a contrast's table as numbers of pairs: both survive, only without the outcome, only with it. */
  lemma TableCounts(pairs: seq<(bool, bool)>)
    ensures CountIf(pairs, Both) == |set i | 0 <= i < |pairs| && pairs[i].0 && pairs[i].1|
    ensures CountIf(pairs, First) == |set i | 0 <= i < |pairs| && pairs[i].0 && !pairs[i].1|
    ensures CountIf(pairs, Second) == |set i | 0 <= i < |pairs| && !pairs[i].0 && pairs[i].1|
  {
    CountIsNumber(pairs, Both);
    CountIsNumber(pairs, First);
    CountIsNumber(pairs, Second);
    assert Where(pairs, Both) == set i | 0 <= i < |pairs| && pairs[i].0 && pairs[i].1;
    assert Where(pairs, First) == set i | 0 <= i < |pairs| && pairs[i].0 && !pairs[i].1;
    assert Where(pairs, Second) == set i | 0 <= i < |pairs| && !pairs[i].0 && pairs[i].1;
  }

  datatype Decision = Decision(directionOk: bool, effectOk: bool, reverseOk: bool, significant: bool, passes: bool)

  function MeetsMinimumEffect(r: Contrast, minRiskDifference: real, maxReverse: int, alpha: real): Decision {
    var direction, effect := r.b > r.c, r.riskDifference >= minRiskDifference;
    var reverse, significant := r.c <= maxReverse, r.p < alpha;
    Decision(direction, effect, reverse, significant, direction && effect && reverse && significant)
  }

  /** The verdict takes all four tests: direction, effect, few enough reversals, significance. */
  lemma VerdictIs(r: Contrast, minRiskDifference: real, maxReverse: int, alpha: real)
    ensures
      var d := MeetsMinimumEffect(r, minRiskDifference, maxReverse, alpha);
      && (d.directionOk <==> r.b > r.c) && (d.effectOk <==> r.riskDifference >= minRiskDifference)
      && (d.reverseOk <==> r.c <= maxReverse) && (d.significant <==> r.p < alpha)
      && (d.passes <==> d.directionOk && d.effectOk && d.reverseOk && d.significant)
  {
  }

  /** At any level up to 1/2 a significant contrast has the pre-registered direction, so the
      separate direction check never decides the verdict. */
  lemma SignificanceImpliesDirection(r: Contrast, minRiskDifference: real, maxReverse: int, alpha: real)
    requires r.p == PGreater(r.b, r.c) && alpha <= 0.5
    ensures
      var d := MeetsMinimumEffect(r, minRiskDifference, maxReverse, alpha);
      && (d.significant ==> d.directionOk)
      && (d.passes <==> r.riskDifference >= minRiskDifference && r.c <= maxReverse && PGreater(r.b, r.c) < alpha)
  {
    PGreaterVersusHalf(r.b, r.c);
  }

  /** An even split has a p-value above 1/2 by less than any given margin, eventually. */
  lemma EvenSplitNearHalf(twice: real) returns (m: nat)
    requires twice > 0.0
    ensures PGreater(m, m) < 0.5 + twice / 2.0
  {
    m := LargeMultiple(twice);
    OneSidedPair(m, m);
    assert m + m == 2 * m;
    CentralRatio(m, twice);
  }

  lemma CentralRatio(m: nat, x: real)
    requires m > 0 && x > 0.0 && Mul(m as real, Square(x)) > 1.0
    ensures Comb(2 * m, m) as real / Pow2(2 * m) as real < x
  {
    CentralBound(m);
    CastProducts(m, Comb(2 * m, m), Pow2(2 * m));
    SquareBound(m as real, Comb(2 * m, m) as real, Pow2(2 * m) as real, x);
  }

  lemma CastMul(a: nat, b: nat)
    ensures (a * b) as real == Mul(a as real, b as real)
  {
  }

  lemma CastProducts(m: nat, c: nat, p: nat)
    requires (2 * m + 1) * (c * c) <= p * p
    ensures Mul(2.0 * m as real + 1.0, Square(c as real)) <= Square(p as real)
  {
    CastMul(c, c);
    CastMul(p, p);
    CastMul(2 * m + 1, c * c);
    assert (2 * m + 1) as real == 2.0 * m as real + 1.0;
  }

  /** One half is the exact level: up to it significance always implies b > c, above it some
      even split is already significant. */
  lemma HalfIsTheExactLevel(alpha: real)
    ensures (forall b: nat, c: nat :: PGreater(b, c) < alpha ==> b > c) <==> alpha <= 0.5
  {
    if alpha <= 0.5 {
      forall b: nat, c: nat | PGreater(b, c) < alpha ensures b > c {
        PGreaterVersusHalf(b, c);
      }
    } else {
      var m := EvenSplitNearHalf(2.0 * alpha - 1.0);
      assert PGreater(m, m) < alpha && !(m > m);
    }
  }
}
