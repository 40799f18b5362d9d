/** Percentile interpolation, its second implementation in scripts/measure_episode_duration.py,
    and the cluster bootstrap interval of wevibe_bench/stats.py. */
module Percentiles {
  import opened Folds
  import opened RealArith
  import opened Wrappers

  // ----- sorting -----

  ghost predicate Sorted(s: seq<real>) {
    forall i, j :: 0 <= i <= j < |s| ==> s[i] <= s[j]
  }

  function Insert(x: real, s: seq<real>): (r: seq<real>)
    ensures |r| == |s| + 1
  {
    if |s| == 0 || x <= s[0] then [x] + s else [s[0]] + Insert(x, s[1..])
  }

  /** list.sort; SortedIsUnique shows that no other sort could answer differently. */
  function Sort(s: seq<real>): (r: seq<real>)
    ensures |r| == |s|
  {
    if |s| == 0 then [] else Insert(s[|s| - 1], Sort(s[..|s| - 1]))
  }

  lemma {:induction false} InsertSorts(x: real, s: seq<real>)
    requires Sorted(s)
    ensures Sorted(Insert(x, s)) && multiset(Insert(x, s)) == multiset(s) + multiset{x}
  {
    if |s| > 0 && x > s[0] {
      assert s == [s[0]] + s[1..];
      InsertSorts(x, s[1..]);
      var r := Insert(x, s[1..]);
      forall i | 0 <= i < |r| ensures s[0] <= r[i] {
        assert r[i] in multiset(r);
        assert r[i] == x || r[i] in s[1..];
      }
    }
  }

  lemma {:induction false} SortSorts(s: seq<real>)
    ensures Sorted(Sort(s)) && multiset(Sort(s)) == multiset(s)
  {
    if |s| > 0 {
      SortSorts(s[..|s| - 1]);
      InsertSorts(s[|s| - 1], Sort(s[..|s| - 1]));
      assert s == s[..|s| - 1] + [s[|s| - 1]];
    }
  }

  lemma SortedTail(a: seq<real>)
    requires Sorted(a) && |a| > 0
    ensures Sorted(a[1..]) && multiset(a[1..]) == multiset(a) - multiset{a[0]}
  {
    assert a == [a[0]] + a[1..];
  }

  lemma SortedHeads(a: seq<real>, b: seq<real>)
    requires Sorted(a) && Sorted(b) && multiset(a) == multiset(b) && |a| > 0
    ensures |a| == |b| && a[0] == b[0]
  {
    assert |a| == |multiset(a)| == |multiset(b)| == |b|;
    assert a[0] in multiset(b) && b[0] in multiset(a);
  }

  lemma {:induction false} SortedIsUnique(a: seq<real>, b: seq<real>)
    requires Sorted(a) && Sorted(b) && multiset(a) == multiset(b)
    ensures a == b
    decreases |a|
  {
    if |a| == 0 {
      assert |multiset(b)| == 0;
    } else {
      SortedHeads(a, b);
      SortedTail(a);
      SortedTail(b);
      SortedIsUnique(a[1..], b[1..]);
      Rejoined(a, b);
    }
  }

  lemma Rejoined(a: seq<real>, b: seq<real>)
    requires |a| > 0 && |b| > 0 && a[0] == b[0] && a[1..] == b[1..]
    ensures a == b
  {
    assert a == [a[0]] + a[1..] && b == [b[0]] + b[1..];
  }

  lemma SortMembers(s: seq<real>, x: real)
    ensures x in Sort(s) <==> x in s
  {
    SortSorts(s);
    assert x in Sort(s) <==> x in multiset(Sort(s));
    assert x in s <==> x in multiset(s);
  }

  // ----- interpolation -----

  function Ceil(x: real): int { -((-x).Floor) }

  /** stats._percentile */
  function Percentile(sorted: seq<real>, p: real): real
    requires |sorted| > 0 && 0.0 <= p <= 1.0
  {
    if |sorted| == 1 then sorted[0]
    else
      var position := Mul(p, (|sorted| - 1) as real);
      PositionInRange(p, |sorted| - 1);
      var lo, hi := position.Floor, Ceil(position);
      if lo == hi then sorted[lo]
      else
        var weight := position - lo as real;
        Mul(sorted[lo], 1.0 - weight) + Mul(sorted[hi], weight)
  }

  lemma PositionInRange(p: real, n: nat)
    requires 0.0 <= p <= 1.0
    ensures 0.0 <= Mul(p, n as real) <= n as real
  {
    MulMono(p, 1.0, n as real);
    MulNonNegative(p, n as real);
  }

  /** The straight line through the values at the positions either side of pos. */
  function Line(s: seq<real>, pos: real): real
    requires |s| > 0 && 0.0 <= pos <= (|s| - 1) as real
  {
    var k := pos.Floor;
    if k == |s| - 1 then s[k] else s[k] + Mul(s[k + 1] - s[k], pos - k as real)
  }

  lemma PercentileIsLine(s: seq<real>, p: real)
    requires |s| > 0 && 0.0 <= p <= 1.0
    ensures 0.0 <= Mul(p, (|s| - 1) as real) <= (|s| - 1) as real
    ensures Percentile(s, p) == Line(s, Mul(p, (|s| - 1) as real))
  {
    PositionInRange(p, |s| - 1);
    var pos := Mul(p, (|s| - 1) as real);
    var k := pos.Floor;
    if |s| > 1 && pos != k as real {
      assert Ceil(pos) == k + 1;
      var w := pos - k as real;
      MulAdd(s[k + 1], s[k], w);
      MulAdd(1.0, w, s[k]);
    }
  }

  lemma LineBetween(s: seq<real>, pos: real)
    requires |s| > 0 && Sorted(s) && 0.0 <= pos <= (|s| - 1) as real
    ensures s[pos.Floor] <= Line(s, pos)
    ensures pos.Floor < |s| - 1 ==> Line(s, pos) <= s[pos.Floor + 1]
  {
    var k := pos.Floor;
    if k < |s| - 1 {
      MulNonNegative(s[k + 1] - s[k], pos - k as real);
      MulMono(pos - k as real, 1.0, s[k + 1] - s[k]);
    }
  }

  lemma LineMonotone(s: seq<real>, x: real, y: real)
    requires |s| > 0 && Sorted(s) && 0.0 <= x <= y <= (|s| - 1) as real
    ensures Line(s, x) <= Line(s, y)
  {
    LineBetween(s, x);
    LineBetween(s, y);
    var k := x.Floor;
    if y.Floor == k && k < |s| - 1 {
      MulMono(x - k as real, y - k as real, s[k + 1] - s[k]);
    }
  }

  /** A percentile whose position lies a fraction f past index k is that far from value k to the next one. */
  lemma PercentileAt(s: seq<real>, p: real, k: nat, f: real)
    requires |s| > 0 && 0.0 <= p <= 1.0 && 0.0 <= f < 1.0
    requires k < |s| && Mul(p, (|s| - 1) as real) == k as real + f
    ensures f == 0.0 ==> Percentile(s, p) == s[k]
    ensures f > 0.0 ==> k + 1 < |s| && Percentile(s, p) == s[k] + Mul(f, s[k + 1] - s[k])
  {
    PercentileIsLine(s, p);
    MulComm(f, if k + 1 < |s| then s[k + 1] - s[k] else 0.0);
  }

  /** Percentiles of sorted values rise with p, from the minimum at 0 to the maximum at 1. */
  lemma PercentileMonotone(s: seq<real>, p: real, q: real)
    requires |s| > 0 && Sorted(s) && 0.0 <= p <= q <= 1.0
    ensures s[0] <= Percentile(s, p) <= Percentile(s, q) <= s[|s| - 1]
    ensures Percentile(s, 0.0) == s[0] && Percentile(s, 1.0) == s[|s| - 1]
  {
    var n := (|s| - 1) as real;
    PercentileIsLine(s, p);
    PercentileIsLine(s, q);
    MulMono(p, q, n);
    LineMonotone(s, Mul(p, n), Mul(q, n));
    LineBetween(s, Mul(p, n));
    LineBetween(s, Mul(q, n));
  }

  // ----- the second implementation -----

  /** percentile in measure_episode_duration, once the values are ordered. */
  function PercentileOfOrdered(ordered: seq<real>, p: real): real
    requires |ordered| > 0 && 0.0 <= p <= 1.0
  {
    if |ordered| == 1 then ordered[0]
    else
      var pos := Mul((|ordered| - 1) as real, p);
      PositionInRange(p, |ordered| - 1);
      MulComm((|ordered| - 1) as real, p);
      var lower := pos.Floor;
      var upper := if lower + 1 < |ordered| - 1 then lower + 1 else |ordered| - 1;
      var fraction := pos - lower as real;
      ordered[lower] + Mul(ordered[upper] - ordered[lower], fraction)
  }

  /** percentile in measure_episode_duration: q in percent, on unsorted values. */
  function EpisodePercentile(values: seq<real>, q: real): Result<Option<real>> {
    if |values| == 0 then Ok(None)
    else if q < 0.0 || q > 100.0 then ValueError
    else Ok(Some(PercentileOfOrdered(Sort(values), q / 100.0)))
  }

  lemma OrderedAgree(s: seq<real>, p: real)
    requires |s| > 0 && 0.0 <= p <= 1.0
    ensures PercentileOfOrdered(s, p) == Percentile(s, p)
  {
    PercentileIsLine(s, p);
    MulComm((|s| - 1) as real, p);
  }

  /** The two implementations agree at q == 100 p, and the second fails exactly outside [0, 100]. */
  lemma PercentilesAgree(values: seq<real>, p: real)
    ensures EpisodePercentile(values, 100.0 * p).ValueError? <==> |values| > 0 && !(0.0 <= p <= 1.0)
    ensures |values| > 0 && 0.0 <= p <= 1.0 ==> EpisodePercentile(values, 100.0 * p) == Ok(Some(Percentile(Sort(values), p)))
  {
    if |values| > 0 && 0.0 <= p <= 1.0 {
      OrderedAgree(Sort(values), p);
      assert 100.0 * p / 100.0 == p;
    }
  }

  // ----- the cluster bootstrap -----

  /** Every draw picks one of n clusters. */
  ghost predicate DrawsFrom(pick: (nat, nat) -> nat, n: nat) {
    forall i, j :: pick(i, j) < n
  }

  /** The sample of iteration i after j draws, flattened. */
  ghost function Sample(clusters: seq<seq<real>>, pick: (nat, nat) -> nat, i: nat, j: nat): seq<real>
    requires DrawsFrom(pick, |clusters|)
  {
    if j == 0 then [] else Sample(clusters, pick, i, j - 1) + clusters[pick(i, j - 1)]
  }

  ghost function Estimates(clusters: seq<seq<real>>, statistic: seq<real> -> real, pick: (nat, nat) -> nat, n: nat): (r: seq<real>)
    requires DrawsFrom(pick, |clusters|)
    ensures |r| == n
  {
    if n == 0 then []
    else Estimates(clusters, statistic, pick, n - 1) + [statistic(Sample(clusters, pick, n - 1, |clusters|))]
  }

  /** A resample grows by whole clusters, draw by draw. */
  lemma {:induction false} SampleGrows(clusters: seq<seq<real>>, pick: (nat, nat) -> nat, i: nat, j: nat, n: nat)
    requires DrawsFrom(pick, |clusters|) && j < n
    ensures Sample(clusters, pick, i, 0) == []
    ensures Sample(clusters, pick, i, j) + clusters[pick(i, j)] <= Sample(clusters, pick, i, n)
  {
    if j < n - 1 {
      SampleGrows(clusters, pick, i, j, n - 1);
    }
  }

  lemma {:induction false} EstimateAt(clusters: seq<seq<real>>, statistic: seq<real> -> real, pick: (nat, nat) -> nat, n: nat, i: nat)
    requires DrawsFrom(pick, |clusters|) && i < n
    ensures Estimates(clusters, statistic, pick, n)[i] == statistic(Sample(clusters, pick, i, |clusters|))
  {
    if i < n - 1 {
      EstimateAt(clusters, statistic, pick, n - 1, i);
    }
  }

  predicate BootstrapValid(clusters: seq<seq<real>>, iterations: int, alpha: real) {
    0.0 < alpha < 1.0 && iterations > 0 && |clusters| > 0 && forall c <- clusters :: |c| > 0
  }

  function Ends(sorted: seq<real>, alpha: real): (real, real)
    requires |sorted| > 0 && 0.0 < alpha < 1.0
  {
    (Percentile(sorted, alpha / 2.0), Percentile(sorted, 1.0 - alpha / 2.0))
  }

  lemma EndsNested(s: seq<real>, alpha: real, larger: real)
    requires |s| > 0 && Sorted(s) && 0.0 < alpha <= larger < 1.0
    ensures s[0] <= Ends(s, alpha).0 <= Ends(s, larger).0 <= Ends(s, larger).1 <= Ends(s, alpha).1 <= s[|s| - 1]
  {
    NestedAt(s, alpha / 2.0, larger / 2.0);
  }

  lemma NestedAt(s: seq<real>, p: real, q: real)
    requires |s| > 0 && Sorted(s) && 0.0 <= p <= q <= 0.5
    ensures
      s[0] <= Percentile(s, p) <= Percentile(s, q) <= Percentile(s, 1.0 - q) <= Percentile(s, 1.0 - p) <= s[|s| - 1]
  {
    PercentileMonotone(s, p, q);
    PercentileMonotone(s, q, 1.0 - q);
    PercentileMonotone(s, 1.0 - q, 1.0 - p);
  }

  ghost function Interval(clusters: seq<seq<real>>, statistic: seq<real> -> real, iterations: int, alpha: real,
                          pick: (nat, nat) -> nat): Result<(real, real)>
    requires |clusters| > 0 ==> DrawsFrom(pick, |clusters|)
  {
    if !BootstrapValid(clusters, iterations, alpha) then ValueError
    else
      Ok(Ends(Sort(Estimates(clusters, statistic, pick, iterations)), alpha))
  }

  method ClusterBootstrapCi(clusters: seq<seq<real>>, statistic: seq<real> -> real, iterations: int, alpha: real,
                            pick: (nat, nat) -> nat) returns (r: Result<(real, real)>)
    requires |clusters| > 0 ==> DrawsFrom(pick, |clusters|)
    ensures r == Interval(clusters, statistic, iterations, alpha, pick)
  {
    if !(0.0 < alpha < 1.0) || iterations <= 0 || |clusters| == 0 || (exists c <- clusters :: |c| == 0) {
      return ValueError;
    }
    var estimates: seq<real> := [];
    for i := 0 to iterations
      invariant estimates == Estimates(clusters, statistic, pick, i)
    {
      var sample: seq<real> := [];
      for j := 0 to |clusters|
        invariant sample == Sample(clusters, pick, i, j)
      {
        sample := sample + clusters[pick(i, j)];
      }
      estimates := estimates + [statistic(sample)];
    }
    var sorted := Sort(estimates);
    r := Ok((Percentile(sorted, alpha / 2.0), Percentile(sorted, 1.0 - alpha / 2.0)));
  }

  /** It fails exactly on an alpha outside (0, 1), without iterations, or without clusters that all hold
      values; otherwise its ends are the alpha / 2 and 1 - alpha / 2 percentiles of the sorted statistics of
      one resample per iteration, each of as many draws as there are clusters. */
  lemma IntervalIs(clusters: seq<seq<real>>, statistic: seq<real> -> real, iterations: int, alpha: real, pick: (nat, nat) -> nat)
    returns (estimates: seq<real>, sorted: seq<real>)
    requires |clusters| > 0 ==> DrawsFrom(pick, |clusters|)
    ensures Interval(clusters, statistic, iterations, alpha, pick).Ok? <==>
      0.0 < alpha < 1.0 && iterations > 0 && |clusters| > 0 && forall c <- clusters :: |c| > 0
    ensures Interval(clusters, statistic, iterations, alpha, pick).Ok? ==>
      && Sorted(sorted) && |sorted| == |estimates| == iterations && multiset(sorted) == multiset(estimates)
      && (forall i :: 0 <= i < iterations ==> estimates[i] == statistic(Sample(clusters, pick, i, |clusters|)))
      && var (low, high) := Interval(clusters, statistic, iterations, alpha, pick).value;
      low == Percentile(sorted, alpha / 2.0) && high == Percentile(sorted, 1.0 - alpha / 2.0)
  {
    estimates, sorted := [], [];
    if BootstrapValid(clusters, iterations, alpha) {
      estimates := Estimates(clusters, statistic, pick, iterations);
      sorted := Sort(estimates);
      SortSorts(estimates);
      forall i | 0 <= i < iterations ensures estimates[i] == statistic(Sample(clusters, pick, i, |clusters|)) {
        EstimateAt(clusters, statistic, pick, iterations, i);
      }
    }
  }

  lemma {:induction false} EstimateIs(clusters: seq<seq<real>>, statistic: seq<real> -> real, pick: (nat, nat) -> nat, n: nat, x: real)
    requires DrawsFrom(pick, |clusters|) && x in Estimates(clusters, statistic, pick, n)
    ensures exists i: nat :: x == statistic(Sample(clusters, pick, i, |clusters|))
  {
    if x in Estimates(clusters, statistic, pick, n - 1) {
      EstimateIs(clusters, statistic, pick, n - 1, x);
    } else {
      assert x == statistic(Sample(clusters, pick, n - 1, |clusters|));
    }
  }

  /** The interval is ordered and lies within any bounds of the statistic on the resamples. */
  lemma IntervalBounded(clusters: seq<seq<real>>, statistic: seq<real> -> real, iterations: int, alpha: real,
                        pick: (nat, nat) -> nat, lo: real, hi: real)
    requires BootstrapValid(clusters, iterations, alpha) && DrawsFrom(pick, |clusters|)
    requires forall i: nat :: lo <= statistic(Sample(clusters, pick, i, |clusters|)) <= hi
    ensures
      var r := Interval(clusters, statistic, iterations, alpha, pick);
      r.Ok? && lo <= r.value.0 <= r.value.1 <= hi
  {
    var estimates := Estimates(clusters, statistic, pick, iterations);
    var s := Sort(estimates);
    SortSorts(estimates);
    forall x | x in estimates ensures lo <= x <= hi {
      EstimateIs(clusters, statistic, pick, iterations, x);
    }
    SortMembers(estimates, s[0]);
    SortMembers(estimates, s[|s| - 1]);
    EndsNested(s, alpha, alpha);
  }

  /** With the same draws a smaller alpha gives an interval that contains that of a larger alpha. */
  lemma SmallerAlphaContains(clusters: seq<seq<real>>, statistic: seq<real> -> real, iterations: int, alpha: real,
                             larger: real, pick: (nat, nat) -> nat)
    requires BootstrapValid(clusters, iterations, alpha) && BootstrapValid(clusters, iterations, larger)
    requires DrawsFrom(pick, |clusters|) && alpha <= larger
    ensures
      var wide := Interval(clusters, statistic, iterations, alpha, pick);
      var narrow := Interval(clusters, statistic, iterations, larger, pick);
      wide.Ok? && narrow.Ok? && wide.value.0 <= narrow.value.0 <= narrow.value.1 <= wide.value.1
  {
    var estimates := Estimates(clusters, statistic, pick, iterations);
    var s := Sort(estimates);
    SortSorts(estimates);
    EndsNested(s, alpha, larger);
  }

  // ----- the default statistic -----

  /** statistics.fmean; undefined on no values. */
  function Mean(s: seq<real>): real {
    if |s| == 0 then 0.0 else Sum(s) / |s| as real
  }

  lemma MeanIs(s: seq<real>)
    ensures Mul(Mean(s), |s| as real) == Sum(s)
  {
    if |s| > 0 {
      QuotientMul(Sum(s), |s| as real);
    }
  }

  lemma {:induction false} SumBetween(s: seq<real>, lo: real, hi: real)
    requires forall x <- s :: lo <= x <= hi
    ensures Mul(lo, |s| as real) <= Sum(s) <= Mul(hi, |s| as real)
  {
    if |s| > 0 {
      var front := s[..|s| - 1];
      assert forall x <- front :: x in s;
      SumBetween(front, lo, hi);
      assert s[|s| - 1] in s;
      MulAdd(|s| as real, 1.0, lo);
      MulAdd(|s| as real, 1.0, hi);
    }
  }

  lemma MeanBetween(s: seq<real>, lo: real, hi: real)
    requires |s| > 0 && forall x <- s :: lo <= x <= hi
    ensures lo <= Mean(s) <= hi
  {
    var n := |s| as real;
    SumBetween(s, lo, hi);
    QuotientMul(Sum(s), n);
    if Mean(s) < lo {
      MulStrict(Mean(s), lo, n);
    }
    if Mean(s) > hi {
      MulStrict(hi, Mean(s), n);
    }
  }

  lemma {:induction false} SampleDrawn(clusters: seq<seq<real>>, pick: (nat, nat) -> nat, i: nat, j: nat)
    requires DrawsFrom(pick, |clusters|) && forall c <- clusters :: |c| > 0
    ensures j > 0 ==> |Sample(clusters, pick, i, j)| > 0
    ensures forall x <- Sample(clusters, pick, i, j) :: exists c <- clusters :: x in c
  {
    if j > 0 {
      SampleDrawn(clusters, pick, i, j - 1);
      assert clusters[pick(i, j - 1)] in clusters;
    }
  }

  /** The interval of the mean never leaves the range of the observations. */
  lemma MeanIntervalInRange(clusters: seq<seq<real>>, iterations: int, alpha: real, pick: (nat, nat) -> nat, lo: real, hi: real)
    requires BootstrapValid(clusters, iterations, alpha) && DrawsFrom(pick, |clusters|)
    requires forall c <- clusters :: forall x <- c :: lo <= x <= hi
    ensures
      var r := Interval(clusters, Mean, iterations, alpha, pick);
      r.Ok? && lo <= r.value.0 <= r.value.1 <= hi
  {
    forall i: nat ensures lo <= Mean(Sample(clusters, pick, i, |clusters|)) <= hi {
      SampleDrawn(clusters, pick, i, |clusters|);
      MeanBetween(Sample(clusters, pick, i, |clusters|), lo, hi);
    }
    IntervalBounded(clusters, Mean, iterations, alpha, pick, lo, hi);
  }

  /** One cluster leaves nothing to resample: both ends are its statistic. */
  lemma OneClusterDegenerate(cluster: seq<real>, statistic: seq<real> -> real, iterations: int, alpha: real, pick: (nat, nat) -> nat)
    requires BootstrapValid([cluster], iterations, alpha) && DrawsFrom(pick, 1)
    ensures Interval([cluster], statistic, iterations, alpha, pick) == Ok((statistic(cluster), statistic(cluster)))
  {
    forall i: nat ensures statistic(Sample([cluster], pick, i, 1)) == statistic(cluster) {
      assert pick(i, 0) == 0;
      assert Sample([cluster], pick, i, 0) == [];
      assert Sample([cluster], pick, i, 1) == [] + cluster == cluster;
    }
    IntervalBounded([cluster], statistic, iterations, alpha, pick, statistic(cluster), statistic(cluster));
  }
}
