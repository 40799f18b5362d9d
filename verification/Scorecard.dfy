/** The model diffs of a scorecard and the integrity gate (wevibe_bench/scorecard.py). */
module Scorecard {
  import opened Folds
  import opened Names
  import opened RealArith
  import opened Wrappers

  /** The fields of a cell that reach a diff. */
  datatype Cell = Cell(
    model: string, condition: string, resolved: bool, inputTokens: int, outputTokens: int, costUsd: real, scored: bool,
    http429: Option<int>, http402: Option<int>, retries: Option<int>, upstreamErrors: Option<int>,
    medianMs: Option<int>, maxMs: Option<int>)

  datatype Contention = Contention(
    cellCount: nat, measuredCellCount: nat,
    http429Mean: Option<real>, http429Max: Option<int>, http402Mean: Option<real>, http402Max: Option<int>,
    retryMean: Option<real>, retryMax: Option<int>, upstreamMean: Option<real>, upstreamMax: Option<int>,
    medianMsMean: Option<real>, maxMsMax: Option<int>)

  datatype ModelDiff = ModelDiff(
    model: string, onCondition: string, offPassRate: real, onPassRate: real, liftPp: real,
    offTokens: int, onTokens: int, tokenDeltaPct: real, offCost: real, onCost: real, costDeltaPct: real,
    offN: nat, onScoredN: nat, onNotScoredN: nat, offContention: Contention, onContention: Contention)

  const OFF := "OFF"
  predicate OnStyle(condition: string) { "ON" <= condition }

  // ----- contention -----

  function Present(o: Option<int>): seq<int> { if o.Some? then [o.value] else [] }

  const Identity := (x: int) => x
  const Http429 := (c: Cell) => Present(c.http429)
  const Http402 := (c: Cell) => Present(c.http402)
  const Retries := (c: Cell) => Present(c.retries)
  const UpstreamErrors := (c: Cell) => Present(c.upstreamErrors)
  const MedianMs := (c: Cell) => Present(c.medianMs)
  const MaxMs := (c: Cell) => Present(c.maxMs)

  const Measured := (c: Cell) =>
    if c.http429.Some? || c.http402.Some? || c.retries.Some? || c.upstreamErrors.Some? || c.maxMs.Some? || c.medianMs.Some?
    then [c] else []

  function MeanInt(values: seq<int>): Option<real> {
    if |values| == 0 then None else Some(SumBy(values, Identity) as real / |values| as real)
  }

  function MaxInt(values: seq<int>): (r: Option<int>)
    ensures r.None? <==> |values| == 0
    ensures r.Some? ==> r.value in values && forall v <- values :: v <= r.value
  {
    if |values| == 0 then None
    else
      var front, v := values[..|values| - 1], values[|values| - 1];
      assert forall x <- values :: x in front || x == v;
      var most := MaxInt(front);
      if most.None? || v > most.value then Some(v) else most
  }

  function ContentionSummary(cells: seq<Cell>): Contention {
    var measured := FlatMap(cells, Measured);
    var http429, http402 := FlatMap(measured, Http429), FlatMap(measured, Http402);
    var retries, upstream := FlatMap(measured, Retries), FlatMap(measured, UpstreamErrors);
    Contention(
      |cells|, |measured|, MeanInt(http429), MaxInt(http429), MeanInt(http402), MaxInt(http402),
      MeanInt(retries), MaxInt(retries), MeanInt(upstream), MaxInt(upstream),
      MeanInt(FlatMap(measured, MedianMs)), MaxInt(FlatMap(measured, MaxMs)))
  }

  /** mean is that of the values that are there. */
  ghost predicate Averages(column: seq<Option<int>>, mean: Option<real>) {
    var values := FlatMap(column, Present);
    && (mean.None? <==> forall o <- column :: o.None?)
    && (mean.Some? ==> Mul(mean.value, |values| as real) == SumBy(values, Identity) as real)
  }

  /** max is the largest of them. */
  ghost predicate Tops(column: seq<Option<int>>, max: Option<int>) {
    && (max.None? <==> forall o <- column :: o.None?)
    && (max.Some? ==> max in column && forall o <- column :: o.Some? ==> o.value <= max.value)
  }

  lemma {:induction false} PresentMembers(column: seq<Option<int>>, v: int)
    ensures v in FlatMap(column, Present) <==> Some(v) in column
  {
    if |column| > 0 {
      PresentMembers(column[..|column| - 1], v);
      LastOrEarlier(column);
    }
  }

  lemma NonePresent(column: seq<Option<int>>)
    ensures FlatMap(column, Present) == [] <==> forall o <- column :: o.None?
  {
    var values := FlatMap(column, Present);
    if |values| > 0 {
      assert values[0] in values;
      PresentMembers(column, values[0]);
    }
    if o :| o in column && o.Some? {
      PresentMembers(column, o.value);
    }
  }

  lemma AverageOf(column: seq<Option<int>>)
    ensures Averages(column, MeanInt(FlatMap(column, Present)))
  {
    var values := FlatMap(column, Present);
    NonePresent(column);
    if |values| > 0 {
      QuotientMul(SumBy(values, Identity) as real, |values| as real);
    }
  }

  lemma TopOf(column: seq<Option<int>>)
    ensures Tops(column, MaxInt(FlatMap(column, Present)))
  {
    var values := FlatMap(column, Present);
    NonePresent(column);
    if |values| > 0 {
      PresentMembers(column, MaxInt(values).value);
    }
    forall o <- column | o.Some? ensures o.value in values {
      PresentMembers(column, o.value);
    }
  }

  /** A cell with one of the values is measured, so its values are not lost. */
  lemma {:induction false} MeasuredEnough(cells: seq<Cell>, g: Cell -> seq<int>)
    requires forall c :: Measured(c) == [] ==> g(c) == []
    ensures FlatMap(FlatMap(cells, Measured), g) == FlatMap(cells, g)
  {
    if |cells| > 0 {
      var front, c := cells[..|cells| - 1], cells[|cells| - 1];
      MeasuredEnough(front, g);
      FlatMapAppend(FlatMap(front, Measured), Measured(c), g);
      assert [c][..0] == [];
    }
  }

  lemma {:induction false} ColumnValues(cells: seq<Cell>, column: seq<Option<int>>, g: Cell -> seq<int>)
    requires |column| == |cells| && forall i :: 0 <= i < |cells| ==> g(cells[i]) == Present(column[i])
    ensures FlatMap(cells, g) == FlatMap(column, Present)
  {
    if |cells| > 0 {
      ColumnValues(cells[..|cells| - 1], column[..|cells| - 1], g);
    }
  }

  /** What a summary says of one counter. */
  lemma ColumnIs(cells: seq<Cell>, column: seq<Option<int>>, g: Cell -> seq<int>)
    requires |column| == |cells| && forall i :: 0 <= i < |cells| ==> g(cells[i]) == Present(column[i])
    requires forall c :: Measured(c) == [] ==> g(c) == []
    ensures Averages(column, MeanInt(FlatMap(FlatMap(cells, Measured), g)))
    ensures Tops(column, MaxInt(FlatMap(FlatMap(cells, Measured), g)))
  {
    MeasuredEnough(cells, g);
    ColumnValues(cells, column, g);
    AverageOf(column);
    TopOf(column);
  }

  const AnyMeasured := (c: Cell) =>
    c.http429.Some? || c.http402.Some? || c.retries.Some? || c.upstreamErrors.Some? || c.maxMs.Some? || c.medianMs.Some?

  function CellsWhere(cells: seq<Cell>, f: Cell -> bool): set<int> {
    set i | 0 <= i < |cells| && f(cells[i])
  }

  lemma {:induction false} KeptIsNumber(cells: seq<Cell>, keep: Cell -> seq<Cell>, f: Cell -> bool)
    requires forall c :: keep(c) == if f(c) then [c] else []
    ensures |FlatMap(cells, keep)| == |CellsWhere(cells, f)|
  {
    if |cells| == 0 {
      assert CellsWhere(cells, f) == {};
    } else {
      var n := |cells| - 1;
      KeptIsNumber(cells[..n], keep, f);
      assert CellsWhere(cells, f) == CellsWhere(cells[..n], f) + if f(cells[n]) then {n} else {};
    }
  }

  /** A summary counts all its cells, and as measured those with any of the counters. */
  lemma SummaryCounts(cells: seq<Cell>)
    ensures ContentionSummary(cells).cellCount == |cells|
    ensures ContentionSummary(cells).measuredCellCount
         == |set i | 0 <= i < |cells| && (cells[i].http429.Some? || cells[i].http402.Some? || cells[i].retries.Some?
                 || cells[i].upstreamErrors.Some? || cells[i].maxMs.Some? || cells[i].medianMs.Some?)|
  {
    KeptIsNumber(cells, Measured, AnyMeasured);
    assert CellsWhere(cells, AnyMeasured)
        == set i | 0 <= i < |cells| && (cells[i].http429.Some? || cells[i].http402.Some? || cells[i].retries.Some?
                 || cells[i].upstreamErrors.Some? || cells[i].maxMs.Some? || cells[i].medianMs.Some?);
  }

  /** The 429 and 402 figures of a summary are the mean and the maximum of their own counters over the cells that have them. */
  lemma HttpCounters(cells: seq<Cell>)
    ensures
      var column := seq(|cells|, i requires 0 <= i < |cells| => cells[i].http429);
      Averages(column, ContentionSummary(cells).http429Mean) && Tops(column, ContentionSummary(cells).http429Max)
    ensures
      var column := seq(|cells|, i requires 0 <= i < |cells| => cells[i].http402);
      Averages(column, ContentionSummary(cells).http402Mean) && Tops(column, ContentionSummary(cells).http402Max)
  {
    ColumnIs(cells, seq(|cells|, i requires 0 <= i < |cells| => cells[i].http429), Http429);
    ColumnIs(cells, seq(|cells|, i requires 0 <= i < |cells| => cells[i].http402), Http402);
  }

  /** The same for retries and upstream errors. */
  lemma RetryCounters(cells: seq<Cell>)
    ensures
      var column := seq(|cells|, i requires 0 <= i < |cells| => cells[i].retries);
      Averages(column, ContentionSummary(cells).retryMean) && Tops(column, ContentionSummary(cells).retryMax)
    ensures
      var column := seq(|cells|, i requires 0 <= i < |cells| => cells[i].upstreamErrors);
      Averages(column, ContentionSummary(cells).upstreamMean) && Tops(column, ContentionSummary(cells).upstreamMax)
  {
    ColumnIs(cells, seq(|cells|, i requires 0 <= i < |cells| => cells[i].retries), Retries);
    ColumnIs(cells, seq(|cells|, i requires 0 <= i < |cells| => cells[i].upstreamErrors), UpstreamErrors);
  }

  /** The mean of the cells' median latencies and the maximum of their maxima. */
  lemma Latencies(cells: seq<Cell>)
    ensures
      var column := seq(|cells|, i requires 0 <= i < |cells| => cells[i].medianMs);
      Averages(column, ContentionSummary(cells).medianMsMean)
    ensures
      var column := seq(|cells|, i requires 0 <= i < |cells| => cells[i].maxMs);
      Tops(column, ContentionSummary(cells).maxMsMax)
  {
    ColumnIs(cells, seq(|cells|, i requires 0 <= i < |cells| => cells[i].medianMs), MedianMs);
    ColumnIs(cells, seq(|cells|, i requires 0 <= i < |cells| => cells[i].maxMs), MaxMs);
  }

  // ----- one row -----

  const ResolvedOf := (c: Cell) => if c.resolved then 1 else 0
  const TokensOf := (c: Cell) => c.inputTokens + c.outputTokens
  const CostOf := (c: Cell) => c.costUsd

  function Rate(hits: int, n: nat): real { if n == 0 then 0.0 else hits as real / n as real }
  function DeltaPct(off: real, on: real): real { if off == 0.0 then 0.0 else (on - off) / off * 100.0 }

  /** A row from the cells of its two arms and the number of excluded cells. */
  function Row(model: string, condition: string, off: seq<Cell>, onScored: seq<Cell>, excluded: nat): ModelDiff {
    var offRate := Rate(SumBy(off, ResolvedOf), |off|);
    var onRate := Rate(SumBy(onScored, ResolvedOf), |onScored|);
    var offTokens, onTokens := SumBy(off, TokensOf), SumBy(onScored, TokensOf);
    var offCost, onCost := CostBy(off, CostOf), CostBy(onScored, CostOf);
    ModelDiff(
      model, condition, offRate, onRate, (onRate - offRate) * 100.0,
      offTokens, onTokens, DeltaPct(offTokens as real, onTokens as real), offCost, onCost, DeltaPct(offCost, onCost),
      |off|, |onScored|, excluded, ContentionSummary(off), ContentionSummary(onScored))
  }

  /** The cells of one model and condition whose scored flag is one of the given. */
  function Keep(model: string, condition: string, flags: set<bool>): Cell -> seq<Cell> {
    (c: Cell) => if c.model == model && c.condition == condition && c.scored in flags then [c] else []
  }

  function Select(cells: seq<Cell>, model: string, condition: string, flags: set<bool>): seq<Cell> {
    FlatMap(cells, Keep(model, condition, flags))
  }

  function Diff(cells: seq<Cell>, model: string, condition: string): ModelDiff {
    Row(model, condition, Select(cells, model, OFF, {true, false}), Select(cells, model, condition, {true}),
        |Select(cells, model, condition, {false})|)
  }

  // ----- what a row says -----

  /** f on the cells of one model, condition and flag, 0 on all others. */
  function Where(model: string, condition: string, flags: set<bool>, f: Cell -> int): Cell -> int {
    (c: Cell) => if c.model == model && c.condition == condition && c.scored in flags then f(c) else 0
  }

  const OneEach := (c: Cell) => 1

  lemma {:induction false} SumOfSelected(cells: seq<Cell>, model: string, condition: string, flags: set<bool>, f: Cell -> int)
    ensures SumBy(Select(cells, model, condition, flags), f) == SumBy(cells, Where(model, condition, flags, f))
  {
    if |cells| > 0 {
      var front, c := cells[..|cells| - 1], cells[|cells| - 1];
      SumOfSelected(front, model, condition, flags, f);
      SumByAppend(Select(front, model, condition, flags), Keep(model, condition, flags)(c), f);
      SumOfOne(Keep(model, condition, flags)(c), f);
    }
  }

  /** The same for costs. */
  function CostWhere(model: string, condition: string, flags: set<bool>): Cell -> real {
    (c: Cell) => if c.model == model && c.condition == condition && c.scored in flags then c.costUsd else 0.0
  }

  lemma {:induction false} CostOfSelected(cells: seq<Cell>, model: string, condition: string, flags: set<bool>)
    ensures CostBy(Select(cells, model, condition, flags), CostOf) == CostBy(cells, CostWhere(model, condition, flags))
  {
    if |cells| > 0 {
      var front, c := cells[..|cells| - 1], cells[|cells| - 1];
      CostOfSelected(front, model, condition, flags);
      CostByAppend(Select(front, model, condition, flags), Keep(model, condition, flags)(c), CostOf);
      CostOfOne(Keep(model, condition, flags)(c));
    }
  }

  lemma CostOfOne(s: seq<Cell>)
    requires |s| <= 1
    ensures CostBy(s, CostOf) == if |s| == 0 then 0.0 else s[0].costUsd
  {
    if |s| == 1 {
      assert s[..0] == [];
    }
  }

  lemma SumOfOne(s: seq<Cell>, f: Cell -> int)
    requires |s| <= 1
    ensures SumBy(s, f) == if |s| == 0 then 0 else f(s[0])
  {
    if |s| == 1 {
      assert s[..0] == [];
    }
  }

  lemma {:induction false} SumOfOnes(s: seq<Cell>)
    ensures SumBy(s, OneEach) == |s|
  {
    if |s| > 0 {
      SumOfOnes(s[..|s| - 1]);
    }
  }

  /** The counts and sums of an arm are sums over the whole card. */
  lemma ArmSums(cells: seq<Cell>, m: string, condition: string, flags: set<bool>)
    ensures
      var arm := Select(cells, m, condition, flags);
      && |arm| == SumBy(cells, Where(m, condition, flags, OneEach))
      && SumBy(arm, ResolvedOf) == SumBy(cells, Where(m, condition, flags, ResolvedOf))
      && SumBy(arm, TokensOf) == SumBy(cells, Where(m, condition, flags, TokensOf))
  {
    SumOfOnes(Select(cells, m, condition, flags));
    SumOfSelected(cells, m, condition, flags, OneEach);
    SumOfSelected(cells, m, condition, flags, ResolvedOf);
    SumOfSelected(cells, m, condition, flags, TokensOf);
  }

  /** rate is hits per n, and 0 of nothing. */
  predicate RateOf(rate: real, hits: int, n: nat) {
    if n == 0 then rate == 0.0 else Mul(rate, n as real) == hits as real
  }

  /** pct is the change that takes off to on, and 0 from nothing. */
  predicate DeltaOf(pct: real, off: real, on: real) {
    if off == 0.0 then pct == 0.0 else Mul(1.0 + pct / 100.0, off) == on
  }

  lemma RateMeans(hits: int, n: nat)
    ensures RateOf(Rate(hits, n), hits, n)
  {
    if n > 0 {
      QuotientMul(hits as real, n as real);
    }
  }

  lemma DeltaMeans(off: real, on: real)
    ensures DeltaOf(DeltaPct(off, on), off, on)
  {
    if off != 0.0 {
      QuotientMul(on - off, off);
      MulAdd(1.0, (on - off) / off, off);
      assert DeltaPct(off, on) / 100.0 == (on - off) / off;
    }
  }

  /** The rates, the lift and the deltas of a row follow from its counts and sums. */
  ghost predicate Coherent(d: ModelDiff, offHits: int, onHits: int) {
    && RateOf(d.offPassRate, offHits, d.offN) && RateOf(d.onPassRate, onHits, d.onScoredN)
    && d.offPassRate + d.liftPp / 100.0 == d.onPassRate
    && DeltaOf(d.tokenDeltaPct, d.offTokens as real, d.onTokens as real)
    && DeltaOf(d.costDeltaPct, d.offCost, d.onCost)
  }

  lemma RowCoherent(m: string, condition: string, off: seq<Cell>, on: seq<Cell>, n: nat)
    ensures Coherent(Row(m, condition, off, on, n), SumBy(off, ResolvedOf), SumBy(on, ResolvedOf))
  {
    RateMeans(SumBy(off, ResolvedOf), |off|);
    RateMeans(SumBy(on, ResolvedOf), |on|);
    LiftMeans(Rate(SumBy(off, ResolvedOf), |off|), Rate(SumBy(on, ResolvedOf), |on|));
    DeltaMeans(SumBy(off, TokensOf) as real, SumBy(on, TokensOf) as real);
    DeltaMeans(CostBy(off, CostOf), CostBy(on, CostOf));
  }

  lemma LiftMeans(off: real, on: real)
    ensures off + (on - off) * 100.0 / 100.0 == on
  {
  }

  /** The counts and sums of a row are those of its arms. */
  ghost predicate FromArms(d: ModelDiff, off: seq<Cell>, on: seq<Cell>, n: nat) {
    && d.offN == |off| && d.onScoredN == |on| && d.onNotScoredN == n
    && d.offTokens == SumBy(off, TokensOf) && d.onTokens == SumBy(on, TokensOf)
    && d.offCost == CostBy(off, CostOf) && d.onCost == CostBy(on, CostOf)
  }

  lemma RowFromArms(m: string, condition: string, off: seq<Cell>, on: seq<Cell>, n: nat)
    ensures FromArms(Row(m, condition, off, on, n), off, on, n)
  {
  }

  lemma RowMeaning(d: ModelDiff, cells: seq<Cell>, m: string, condition: string)
    requires FromArms(d, Select(cells, m, OFF, {true, false}), Select(cells, m, condition, {true}), |Select(cells, m, condition, {false})|)
    requires Coherent(d, SumBy(Select(cells, m, OFF, {true, false}), ResolvedOf), SumBy(Select(cells, m, condition, {true}), ResolvedOf))
    ensures Means(d, cells, m, condition)
  {
    ArmSums(cells, m, OFF, {true, false});
    ArmSums(cells, m, condition, {true});
    ArmSums(cells, m, condition, {false});
    CostOfSelected(cells, m, OFF, {true, false});
    CostOfSelected(cells, m, condition, {true});
  }

  /** Every count, rate, token sum and cost of a row is the sum over the whole card that its name says:
      OFF cells whatever their flag, ON cells of the row's condition that are scored, and the rest. */
  ghost predicate Means(d: ModelDiff, cells: seq<Cell>, m: string, condition: string) {
    && d.offN == SumBy(cells, Where(m, OFF, {true, false}, OneEach))
    && d.onScoredN == SumBy(cells, Where(m, condition, {true}, OneEach))
    && d.onNotScoredN == SumBy(cells, Where(m, condition, {false}, OneEach))
    && d.offTokens == SumBy(cells, Where(m, OFF, {true, false}, TokensOf))
    && d.onTokens == SumBy(cells, Where(m, condition, {true}, TokensOf))
    && d.offCost == CostBy(cells, CostWhere(m, OFF, {true, false})) && d.onCost == CostBy(cells, CostWhere(m, condition, {true}))
    && Coherent(d, SumBy(cells, Where(m, OFF, {true, false}, ResolvedOf)), SumBy(cells, Where(m, condition, {true}, ResolvedOf)))
  }

  /** f over the cells that keep accepts. */
  function Total(cells: seq<Cell>, keep: Cell -> bool, f: Cell -> int): int {
    SumBy(cells, (c: Cell) => if keep(c) then f(c) else 0)
  }

  /** The counts and sums of a row: the OFF cells whatever their flag, the scored cells of its condition, and
      for the excluded count the others of its condition. */
  ghost predicate Says(d: ModelDiff, cells: seq<Cell>, m: string, condition: string) {
    var off := (c: Cell) => c.model == m && c.condition == "OFF";
    var on := (c: Cell) => c.model == m && c.condition == condition && c.scored;
    var excluded := (c: Cell) => c.model == m && c.condition == condition && !c.scored;
    var tokens := (c: Cell) => c.inputTokens + c.outputTokens;
    && d.model == m && d.onCondition == condition
    && d.offN == Total(cells, off, (c: Cell) => 1) && d.onScoredN == Total(cells, on, (c: Cell) => 1)
    && d.onNotScoredN == Total(cells, excluded, (c: Cell) => 1)
    && d.offTokens == Total(cells, off, tokens) && d.onTokens == Total(cells, on, tokens)
    && d.offCost == CostBy(cells, (c: Cell) => if off(c) then c.costUsd else 0.0)
    && d.onCost == CostBy(cells, (c: Cell) => if on(c) then c.costUsd else 0.0)
  }

  /** Its rates and changes: hits per cell and 0 of no cells, the lift in points, and what takes the OFF sum to
      the ON sum in percent, 0 from nothing. */
  ghost predicate Compares(d: ModelDiff, cells: seq<Cell>, m: string, condition: string) {
    var hit := (c: Cell) => if c.resolved then 1 else 0;
    var offHits := Total(cells, (c: Cell) => c.model == m && c.condition == "OFF", hit);
    var onHits := Total(cells, (c: Cell) => c.model == m && c.condition == condition && c.scored, hit);
    && (if d.offN == 0 then d.offPassRate == 0.0 else Mul(d.offPassRate, d.offN as real) == offHits as real)
    && (if d.onScoredN == 0 then d.onPassRate == 0.0 else Mul(d.onPassRate, d.onScoredN as real) == onHits as real)
    && d.offPassRate + d.liftPp / 100.0 == d.onPassRate
    && (if d.offTokens == 0 then d.tokenDeltaPct == 0.0
        else Mul(1.0 + d.tokenDeltaPct / 100.0, d.offTokens as real) == d.onTokens as real)
    && (if d.offCost == 0.0 then d.costDeltaPct == 0.0 else Mul(1.0 + d.costDeltaPct / 100.0, d.offCost) == d.onCost)
  }

  lemma DiffMeaning(cells: seq<Cell>, m: string, condition: string)
    ensures Says(Diff(cells, m, condition), cells, m, condition) && Compares(Diff(cells, m, condition), cells, m, condition)
  {
    DiffMeans(cells, m, condition);
    MeansSays(Diff(cells, m, condition), cells, m, condition);
    MeansCompares(Diff(cells, m, condition), cells, m, condition);
  }

  lemma MeansSays(d: ModelDiff, cells: seq<Cell>, m: string, condition: string)
    requires Means(d, cells, m, condition) && d.model == m && d.onCondition == condition
    ensures Says(d, cells, m, condition)
  {
    var off := (c: Cell) => c.model == m && c.condition == "OFF";
    var on := (c: Cell) => c.model == m && c.condition == condition && c.scored;
    var excluded := (c: Cell) => c.model == m && c.condition == condition && !c.scored;
    var tokens := (c: Cell) => c.inputTokens + c.outputTokens;
    TotalIs(cells, Where(m, OFF, {true, false}, OneEach), off, (c: Cell) => 1);
    TotalIs(cells, Where(m, condition, {true}, OneEach), on, (c: Cell) => 1);
    TotalIs(cells, Where(m, condition, {false}, OneEach), excluded, (c: Cell) => 1);
    TotalIs(cells, Where(m, OFF, {true, false}, TokensOf), off, tokens);
    TotalIs(cells, Where(m, condition, {true}, TokensOf), on, tokens);
    CostBySame(cells, CostWhere(m, OFF, {true, false}), (c: Cell) => if off(c) then c.costUsd else 0.0);
    CostBySame(cells, CostWhere(m, condition, {true}), (c: Cell) => if on(c) then c.costUsd else 0.0);
  }

  lemma TotalIs(cells: seq<Cell>, where: Cell -> int, keep: Cell -> bool, f: Cell -> int)
    requires forall c <- cells :: where(c) == if keep(c) then f(c) else 0
    ensures SumBy(cells, where) == Total(cells, keep, f)
  {
    SumBySame(cells, where, (c: Cell) => if keep(c) then f(c) else 0);
  }

  lemma MeansCompares(d: ModelDiff, cells: seq<Cell>, m: string, condition: string)
    requires Means(d, cells, m, condition)
    ensures Compares(d, cells, m, condition)
  {
    var hit := (c: Cell) => if c.resolved then 1 else 0;
    TotalIs(cells, Where(m, OFF, {true, false}, ResolvedOf), (c: Cell) => c.model == m && c.condition == "OFF", hit);
    TotalIs(cells, Where(m, condition, {true}, ResolvedOf), (c: Cell) => c.model == m && c.condition == condition && c.scored, hit);
  }

  lemma DiffMeans(cells: seq<Cell>, m: string, condition: string)
    ensures Means(Diff(cells, m, condition), cells, m, condition)
  {
    var off, on := Select(cells, m, OFF, {true, false}), Select(cells, m, condition, {true});
    var n := |Select(cells, m, condition, {false})|;
    RowCoherent(m, condition, off, on, n);
    RowFromArms(m, condition, off, on, n);
    RowMeaning(Row(m, condition, off, on, n), cells, m, condition);
  }

  /** The contention of a row's arms: of the model's OFF cells, and of the scored cells of its condition. */
  lemma ArmsContend(cells: seq<Cell>, m: string, condition: string)
    ensures
      var off := FlatMap(cells, (c: Cell) => if c.model == m && c.condition == "OFF" then [c] else []);
      Diff(cells, m, condition).offContention == ContentionSummary(off)
    ensures
      var on := FlatMap(cells, (c: Cell) => if c.model == m && c.condition == condition && c.scored then [c] else []);
      Diff(cells, m, condition).onContention == ContentionSummary(on)
  {
    FlatMapSame(cells, Keep(m, OFF, {true, false}), (c: Cell) => if c.model == m && c.condition == "OFF" then [c] else []);
    FlatMapSame(cells, Keep(m, condition, {true}),
                (c: Cell) => if c.model == m && c.condition == condition && c.scored then [c] else []);
  }

  // ----- the rows in order -----

  const ModelOf := (c: Cell) => [c.model]
  function OnConditionOf(model: string): Cell -> seq<string> {
    (c: Cell) => if c.model == model && OnStyle(c.condition) then [c.condition] else []
  }

  function Models(cells: seq<Cell>): seq<string> { SortedSet(FlatMap(cells, ModelOf)) }
  function Conditions(cells: seq<Cell>, model: string): seq<string> { SortedSet(FlatMap(cells, OnConditionOf(model))) }

  function Rows(cells: seq<Cell>, model: string, conditions: seq<string>): seq<ModelDiff> {
    if |conditions| == 0 then []
    else Rows(cells, model, conditions[..|conditions| - 1]) + [Diff(cells, model, conditions[|conditions| - 1])]
  }

  function RowsOfModels(cells: seq<Cell>, models: seq<string>): seq<ModelDiff> {
    if |models| == 0 then []
    else
      var m := models[|models| - 1];
      RowsOfModels(cells, models[..|models| - 1]) + Rows(cells, m, Conditions(cells, m))
  }

  function ModelDiffsOf(cells: seq<Cell>): seq<ModelDiff> { RowsOfModels(cells, Models(cells)) }

  lemma RowsStep(cells: seq<Cell>, model: string, conditions: seq<string>, j: nat)
    requires j < |conditions|
    ensures Rows(cells, model, conditions[..j + 1]) == Rows(cells, model, conditions[..j]) + [Diff(cells, model, conditions[j])]
  {
    assert conditions[..j + 1][..j] == conditions[..j];
  }

  lemma RowsOfModelsStep(cells: seq<Cell>, models: seq<string>, i: nat)
    requires i < |models|
    ensures RowsOfModels(cells, models[..i + 1])
         == RowsOfModels(cells, models[..i]) + Rows(cells, models[i], Conditions(cells, models[i]))
  {
    assert models[..i + 1][..i] == models[..i];
  }

  class Scorecard {
    var cells: seq<Cell>

    constructor ()
      ensures cells == []
    {
      cells := [];
    }

    method AddCell(cell: Cell)
      modifies this
      ensures cells == old(cells) + [cell]
    {
      cells := cells + [cell];
    }

    method ModelDiffs() returns (diffs: seq<ModelDiff>)
      ensures diffs == ModelDiffsOf(cells)
    {
      diffs := [];
      var models := Models(cells);
      for i := 0 to |models|
        invariant diffs == RowsOfModels(cells, models[..i])
      {
        RowsOfModelsStep(cells, models, i);
        diffs := RowsOfModel(models[i], diffs);
      }
      assert models[..|models|] == models;
    }

    method OneRow(model: string, condition: string, off: seq<Cell>) returns (r: ModelDiff)
      requires off == Select(cells, model, OFF, {true, false})
      ensures r == Diff(cells, model, condition)
    {
      var onScored := Select(cells, model, condition, {true});
      var onNotScored := Select(cells, model, condition, {false});
      r := Row(model, condition, off, onScored, |onNotScored|);
    }

    /** The rows of one model, appended. */
    method RowsOfModel(model: string, before: seq<ModelDiff>) returns (diffs: seq<ModelDiff>)
      ensures diffs == before + Rows(cells, model, Conditions(cells, model))
    {
      diffs := before;
      var conditions := Conditions(cells, model);
      var off := Select(cells, model, OFF, {true, false});
      for j := 0 to |conditions|
        invariant diffs == before + Rows(cells, model, conditions[..j])
      {
        var row := OneRow(model, conditions[j], off);
        RowsStep(cells, model, conditions, j);
        Regroup(before, Rows(cells, model, conditions[..j]), [row]);
        diffs := diffs + [row];
      }
      assert conditions[..|conditions|] == conditions;
    }
  }

  // ----- which rows there are -----

  ghost predicate HasKey(cells: seq<Cell>, model: string, condition: string) {
    OnStyle(condition) && exists c <- cells :: c.model == model && c.condition == condition
  }

  lemma {:induction false} ModelsAre(cells: seq<Cell>, m: string)
    ensures m in FlatMap(cells, ModelOf) <==> exists c <- cells :: c.model == m
  {
    if |cells| > 0 {
      ModelsAre(cells[..|cells| - 1], m);
      LastOrEarlier(cells);
    }
  }

  lemma {:induction false} ConditionsAre(cells: seq<Cell>, m: string, condition: string)
    ensures condition in FlatMap(cells, OnConditionOf(m)) <==> HasKey(cells, m, condition)
  {
    if |cells| > 0 {
      ConditionsAre(cells[..|cells| - 1], m, condition);
      LastOrEarlier(cells);
    }
  }

  lemma HasKeyInModels(cells: seq<Cell>, m: string, condition: string)
    requires HasKey(cells, m, condition)
    ensures m in Models(cells) && condition in Conditions(cells, m)
  {
    ModelsAre(cells, m);
    SortedSetIs(FlatMap(cells, ModelOf));
    ConditionsAre(cells, m, condition);
    SortedSetIs(FlatMap(cells, OnConditionOf(m)));
  }

  function PairUp(m: string, conditions: seq<string>): seq<(string, string)> {
    seq(|conditions|, i requires 0 <= i < |conditions| => (m, conditions[i]))
  }

  function KeysIn(cells: seq<Cell>): string -> seq<(string, string)> {
    (m: string) => PairUp(m, Conditions(cells, m))
  }

  /** The (model, condition) of each row, in order. */
  function KeysOf(cells: seq<Cell>): seq<(string, string)> { FlatMap(Models(cells), KeysIn(cells)) }

  /** rows[i] is f of keys[i]. */
  ghost predicate Fits<K, V>(rows: seq<V>, keys: seq<K>, f: K -> V) {
    |rows| == |keys| && forall i :: 0 <= i < |keys| ==> rows[i] == f(keys[i])
  }

  lemma FitsAppend<K, V>(r: seq<V>, s: seq<V>, j: seq<K>, k: seq<K>, f: K -> V)
    requires Fits(r, j, f) && Fits(s, k, f)
    ensures Fits(r + s, j + k, f)
  {
  }

  lemma FitsMore<K, V>(r: seq<V>, j: seq<K>, k: K, f: K -> V)
    requires Fits(r, j, f)
    ensures Fits(r + [f(k)], j + [k], f)
  {
  }

  lemma PairUpMore(m: string, conditions: seq<string>)
    requires |conditions| > 0
    ensures PairUp(m, conditions) == PairUp(m, conditions[..|conditions| - 1]) + [(m, conditions[|conditions| - 1])]
  {
  }

  function DiffAt(cells: seq<Cell>): ((string, string)) -> ModelDiff {
    (k: (string, string)) => Diff(cells, k.0, k.1)
  }

  lemma {:induction false} RowsFit(cells: seq<Cell>, model: string, conditions: seq<string>)
    ensures Fits(Rows(cells, model, conditions), PairUp(model, conditions), DiffAt(cells))
  {
    if |conditions| > 0 {
      var front, c := conditions[..|conditions| - 1], conditions[|conditions| - 1];
      RowsFit(cells, model, front);
      FitsMore(Rows(cells, model, front), PairUp(model, front), (model, c), DiffAt(cells));
      PairUpMore(model, conditions);
    }
  }

  lemma {:induction false} RowsFitKeys(cells: seq<Cell>, models: seq<string>)
    ensures Fits(RowsOfModels(cells, models), FlatMap(models, KeysIn(cells)), DiffAt(cells))
  {
    if |models| > 0 {
      var front, m := models[..|models| - 1], models[|models| - 1];
      RowsFitKeys(cells, front);
      RowsFit(cells, m, Conditions(cells, m));
      FitsAppend(RowsOfModels(cells, front), Rows(cells, m, Conditions(cells, m)),
                 FlatMap(front, KeysIn(cells)), PairUp(m, Conditions(cells, m)), DiffAt(cells));
    }
  }

  lemma KeyAt(cells: seq<Cell>, model: string, m: string, condition: string)
    ensures (m, condition) in PairUp(model, Conditions(cells, model)) <==> m == model && HasKey(cells, m, condition)
  {
    PairUpMembers(model, Conditions(cells, model), m, condition);
    ConditionsAre(cells, model, condition);
    SortedSetIs(FlatMap(cells, OnConditionOf(model)));
  }

  lemma {:induction false} KeysCollect(cells: seq<Cell>, models: seq<string>, m: string, condition: string)
    ensures (m, condition) in FlatMap(models, KeysIn(cells)) <==> m in models && HasKey(cells, m, condition)
  {
    if |models| > 0 {
      KeysCollect(cells, models[..|models| - 1], m, condition);
      KeyAt(cells, models[|models| - 1], m, condition);
      LastOrEarlier(models);
    }
  }

  lemma PairUpMembers(m: string, conditions: seq<string>, n: string, condition: string)
    ensures (n, condition) in PairUp(m, conditions) <==> n == m && condition in conditions
  {
    if n == m && condition in conditions {
      var i :| 0 <= i < |conditions| && conditions[i] == condition;
      assert PairUp(m, conditions)[i] == (n, condition);
    }
  }

  /** There is one row per model and ON-style condition that has a cell. */
  lemma KeysAre(cells: seq<Cell>, m: string, condition: string)
    ensures (m, condition) in KeysOf(cells) <==> HasKey(cells, m, condition)
  {
    KeysCollect(cells, Models(cells), m, condition);
    if HasKey(cells, m, condition) {
      HasKeyInModels(cells, m, condition);
    }
  }

  // ----- the rows of a card -----

  ghost predicate InOrder(keys: seq<(string, string)>) {
    forall i, j :: 0 <= i < j < |keys| ==> Less(keys[i].0, keys[j].0) || (keys[i].0 == keys[j].0 && Less(keys[i].1, keys[j].1))
  }

  lemma PairsInOrder(m: string, conditions: seq<string>)
    requires Ascending(conditions)
    ensures InOrder(PairUp(m, conditions)) && forall k <- PairUp(m, conditions) :: k.0 == m
  {
    forall i, j | 0 <= i < j < |conditions| ensures Less(conditions[i], conditions[j]) {
      AscendingAt(conditions, i, j);
    }
  }

  lemma JoinInOrder(a: seq<(string, string)>, b: seq<(string, string)>)
    requires InOrder(a) && InOrder(b) && forall x <- a, y <- b :: Less(x.0, y.0)
    ensures InOrder(a + b)
  {
    var r := a + b;
    forall i, j | 0 <= i < j < |r| ensures Less(r[i].0, r[j].0) || (r[i].0 == r[j].0 && Less(r[i].1, r[j].1)) {
      if i < |a| <= j {
        assert r[i] in a && r[j] in b;
      }
    }
  }

  lemma {:induction false} KeysInOrder(cells: seq<Cell>, models: seq<string>)
    requires forall i, j :: 0 <= i < j < |models| ==> Less(models[i], models[j])
    ensures InOrder(FlatMap(models, KeysIn(cells))) && forall k <- FlatMap(models, KeysIn(cells)) :: k.0 in models
  {
    if |models| > 0 {
      var front, m := models[..|models| - 1], models[|models| - 1];
      KeysInOrder(cells, front);
      SortedSetIs(FlatMap(cells, OnConditionOf(m)));
      PairsInOrder(m, Conditions(cells, m));
      JoinInOrder(FlatMap(front, KeysIn(cells)), PairUp(m, Conditions(cells, m)));
      LastOrEarlier(models);
    }
  }

  /** A card has a row for a model and a condition exactly when the condition begins with ON and some cell has both. */
  lemma RowPresent(cells: seq<Cell>, m: string, condition: string)
    ensures (exists d <- ModelDiffsOf(cells) :: d.model == m && d.onCondition == condition)
       <==> "ON" <= condition && exists c <- cells :: c.model == m && c.condition == condition
  {
    KeysAre(cells, m, condition);
    RowCount(cells);
    if d :| d in ModelDiffsOf(cells) && d.model == m && d.onCondition == condition {
      var i :| 0 <= i < |ModelDiffsOf(cells)| && ModelDiffsOf(cells)[i] == d;
      RowIs(cells, i);
      assert KeysOf(cells)[i] == (m, condition);
    }
    if HasKey(cells, m, condition) {
      var i :| 0 <= i < |KeysOf(cells)| && KeysOf(cells)[i] == (m, condition);
      RowIs(cells, i);
      assert ModelDiffsOf(cells)[i] in ModelDiffsOf(cells);
    }
  }

  /** The rows are strictly ordered by model and then by condition, so no two have the same. */
  lemma RowsInOrder(cells: seq<Cell>, i: nat, j: nat)
    requires i < j < |ModelDiffsOf(cells)|
    ensures
      var d, e := ModelDiffsOf(cells)[i], ModelDiffsOf(cells)[j];
      Less(d.model, e.model) || (d.model == e.model && Less(d.onCondition, e.onCondition))
  {
    RowCount(cells);
    SortedSetIs(FlatMap(cells, ModelOf));
    forall a, b | 0 <= a < b < |Models(cells)| ensures Less(Models(cells)[a], Models(cells)[b]) {
      AscendingAt(Models(cells), a, b);
    }
    KeysInOrder(cells, Models(cells));
    RowIs(cells, i);
    RowIs(cells, j);
  }

  // ----- the keys fix the order -----

  /** Models without a row, dropped. */
  function LiveIn(cells: seq<Cell>): string -> seq<string> {
    (m: string) => if |Conditions(cells, m)| > 0 then [m] else []
  }

  lemma {:induction false} LiveAscends(cells: seq<Cell>, models: seq<string>)
    requires Ascending(models)
    ensures Ascending(FlatMap(models, LiveIn(cells)))
    ensures forall m :: m in FlatMap(models, LiveIn(cells)) <==> m in models && |Conditions(cells, m)| > 0
    ensures FlatMap(FlatMap(models, LiveIn(cells)), KeysIn(cells)) == FlatMap(models, KeysIn(cells))
  {
    if |models| > 0 {
      var head, rest := models[..1], models[1..];
      assert models == head + rest && head == [models[0]];
      FlatMapAppend(head, rest, LiveIn(cells));
      FlatMapAppend(head, rest, KeysIn(cells));
      assert FlatMap(head, LiveIn(cells)) == LiveIn(cells)(models[0]) && FlatMap(head, KeysIn(cells)) == KeysIn(cells)(models[0]) by {
        assert head[..0] == [];
      }
      LiveAscends(cells, rest);
      var live := FlatMap(rest, LiveIn(cells));
      if |Conditions(cells, models[0])| > 0 {
        assert ([models[0]] + live)[1..] == live;
        FlatMapAppend(head, live, KeysIn(cells));
      } else {
        assert [] + live == live;
      }
    }
  }

  ghost predicate SameKeys(xs: seq<Cell>, ys: seq<Cell>) {
    forall m, condition :: HasKey(xs, m, condition) <==> HasKey(ys, m, condition)
  }

  lemma SameConditions(xs: seq<Cell>, ys: seq<Cell>, m: string)
    requires SameKeys(xs, ys)
    ensures Conditions(xs, m) == Conditions(ys, m)
  {
    SortedSetIs(FlatMap(xs, OnConditionOf(m)));
    SortedSetIs(FlatMap(ys, OnConditionOf(m)));
    forall c ensures c in Conditions(xs, m) <==> c in Conditions(ys, m) {
      ConditionsAre(xs, m, c);
      ConditionsAre(ys, m, c);
    }
    AscendingUnique(Conditions(xs, m), Conditions(ys, m));
  }

  lemma {:induction false} SameKeysIn(xs: seq<Cell>, ys: seq<Cell>, models: seq<string>)
    requires SameKeys(xs, ys)
    ensures FlatMap(models, KeysIn(xs)) == FlatMap(models, KeysIn(ys))
  {
    if |models| > 0 {
      SameKeysIn(xs, ys, models[..|models| - 1]);
      SameConditions(xs, ys, models[|models| - 1]);
    }
  }

  function Live(cells: seq<Cell>): seq<string> { FlatMap(Models(cells), LiveIn(cells)) }

  lemma LiveIs(cells: seq<Cell>)
    ensures Ascending(Live(cells)) && KeysOf(cells) == FlatMap(Live(cells), KeysIn(cells))
    ensures forall m :: m in Live(cells) <==> |Conditions(cells, m)| > 0
  {
    SortedSetIs(FlatMap(cells, ModelOf));
    LiveAscends(cells, Models(cells));
    forall m | |Conditions(cells, m)| > 0 ensures m in Models(cells) {
      var c := Conditions(cells, m)[0];
      assert c in Conditions(cells, m);
      SortedSetIs(FlatMap(cells, OnConditionOf(m)));
      ConditionsAre(cells, m, c);
      HasKeyInModels(cells, m, c);
    }
  }

  /** Equal sets of keys give equal lists of keys. */
  lemma KeysDetermined(xs: seq<Cell>, ys: seq<Cell>)
    requires SameKeys(xs, ys)
    ensures KeysOf(xs) == KeysOf(ys)
  {
    LiveIs(xs);
    LiveIs(ys);
    forall m ensures m in Live(xs) <==> m in Live(ys) {
      SameConditions(xs, ys, m);
    }
    AscendingUnique(Live(xs), Live(ys));
    SameKeysIn(xs, ys, Live(xs));
  }

  lemma FitsEqual<K, V>(r: seq<V>, s: seq<V>, keys: seq<K>, f: K -> V, g: K -> V)
    requires Fits(r, keys, f) && Fits(s, keys, g) && forall k <- keys :: f(k) == g(k)
    ensures r == s
  {
    forall i | 0 <= i < |keys| ensures r[i] == s[i] {
      assert keys[i] in keys;
    }
  }

  /** Cards with the same keys and the same diff at each key have the same diffs. */
  lemma DiffsDetermined(xs: seq<Cell>, ys: seq<Cell>)
    requires SameKeys(xs, ys)
    requires forall m, condition :: HasKey(xs, m, condition) ==> DiffAt(xs)((m, condition)) == DiffAt(ys)((m, condition))
    ensures ModelDiffsOf(xs) == ModelDiffsOf(ys)
  {
    KeysDetermined(xs, ys);
    RowsFitKeys(xs, Models(xs));
    RowsFitKeys(ys, Models(ys));
    var keys := KeysOf(xs);
    forall k | k in keys ensures DiffAt(xs)(k) == DiffAt(ys)(k) {
      KeysAre(xs, k.0, k.1);
      assert k == (k.0, k.1);
    }
    FitsEqual(ModelDiffsOf(xs), ModelDiffsOf(ys), keys, DiffAt(xs), DiffAt(ys));
  }

  // ----- permutation invariance -----

  lemma SameMembers<T>(xs: seq<T>, ys: seq<T>)
    requires multiset(xs) == multiset(ys)
    ensures |xs| == |ys| && forall x :: x in xs <==> x in ys
  {
    assert |xs| == |multiset(xs)| == |multiset(ys)| == |ys|;
    assert forall x :: x in xs <==> x in multiset(xs);
    assert forall x :: x in ys <==> x in multiset(ys);
  }

  lemma ValuesPermuted(xs: seq<int>, ys: seq<int>)
    requires multiset(xs) == multiset(ys)
    ensures MeanInt(xs) == MeanInt(ys) && MaxInt(xs) == MaxInt(ys)
  {
    SameMembers(xs, ys);
    SumByPermuted(xs, ys, Identity);
  }

  lemma CounterPermuted(xs: seq<Cell>, ys: seq<Cell>, counter: Cell -> seq<int>)
    requires multiset(xs) == multiset(ys)
    ensures MeanInt(FlatMap(xs, counter)) == MeanInt(FlatMap(ys, counter))
    ensures MaxInt(FlatMap(xs, counter)) == MaxInt(FlatMap(ys, counter))
  {
    FlatMapPermuted(xs, ys, counter);
    ValuesPermuted(FlatMap(xs, counter), FlatMap(ys, counter));
  }

  lemma ContentionPermuted(xs: seq<Cell>, ys: seq<Cell>)
    requires multiset(xs) == multiset(ys)
    ensures ContentionSummary(xs) == ContentionSummary(ys)
  {
    SameMembers(xs, ys);
    FlatMapPermuted(xs, ys, Measured);
    var mx, my := FlatMap(xs, Measured), FlatMap(ys, Measured);
    SameMembers(mx, my);
    CounterPermuted(mx, my, Http429);
    CounterPermuted(mx, my, Http402);
    CounterPermuted(mx, my, Retries);
    CounterPermuted(mx, my, UpstreamErrors);
    CounterPermuted(mx, my, MedianMs);
    CounterPermuted(mx, my, MaxMs);
  }

  lemma ArmPermuted(xs: seq<Cell>, ys: seq<Cell>)
    requires multiset(xs) == multiset(ys)
    ensures |xs| == |ys| && SumBy(xs, ResolvedOf) == SumBy(ys, ResolvedOf) && SumBy(xs, TokensOf) == SumBy(ys, TokensOf)
    ensures CostBy(xs, CostOf) == CostBy(ys, CostOf) && ContentionSummary(xs) == ContentionSummary(ys)
  {
    SameMembers(xs, ys);
    SumByPermuted(xs, ys, ResolvedOf);
    SumByPermuted(xs, ys, TokensOf);
    CostByPermuted(xs, ys, CostOf);
    ContentionPermuted(xs, ys);
  }

  lemma RowPermuted(m: string, condition: string, off: seq<Cell>, off': seq<Cell>, on: seq<Cell>, on': seq<Cell>, n: nat)
    requires multiset(off) == multiset(off') && multiset(on) == multiset(on')
    ensures Row(m, condition, off, on, n) == Row(m, condition, off', on', n)
  {
    ArmPermuted(off, off');
    ArmPermuted(on, on');
  }

  lemma SelectPermuted(xs: seq<Cell>, ys: seq<Cell>, m: string, condition: string, flags: set<bool>)
    requires multiset(xs) == multiset(ys)
    ensures multiset(Select(xs, m, condition, flags)) == multiset(Select(ys, m, condition, flags))
    ensures |Select(xs, m, condition, flags)| == |Select(ys, m, condition, flags)|
  {
    FlatMapPermuted(xs, ys, Keep(m, condition, flags));
    SameMembers(Select(xs, m, condition, flags), Select(ys, m, condition, flags));
  }

  lemma DiffPermuted(xs: seq<Cell>, ys: seq<Cell>, m: string, condition: string)
    requires multiset(xs) == multiset(ys)
    ensures Diff(xs, m, condition) == Diff(ys, m, condition)
  {
    SelectPermuted(xs, ys, m, OFF, {true, false});
    SelectPermuted(xs, ys, m, condition, {true});
    SelectPermuted(xs, ys, m, condition, {false});
    RowPermuted(m, condition, Select(xs, m, OFF, {true, false}), Select(ys, m, OFF, {true, false}),
                Select(xs, m, condition, {true}), Select(ys, m, condition, {true}), |Select(xs, m, condition, {false})|);
  }

  /** The diffs do not depend on the order of the cells. */
  lemma DiffsPermuted(xs: seq<Cell>, ys: seq<Cell>)
    requires multiset(xs) == multiset(ys)
    ensures ModelDiffsOf(xs) == ModelDiffsOf(ys)
  {
    SameMembers(xs, ys);
    forall m, condition | HasKey(xs, m, condition) ensures DiffAt(xs)((m, condition)) == DiffAt(ys)((m, condition)) {
      DiffPermuted(xs, ys, m, condition);
    }
    DiffsDetermined(xs, ys);
  }

  // ----- the integrity gate -----

  /** d is c, or both are not scored and agree on model and on a condition other than OFF. */
  predicate SameForDiffs(c: Cell, d: Cell) {
    c == d || (!c.scored && !d.scored && c.condition != OFF && c.model == d.model && c.condition == d.condition)
  }

  ghost predicate AllSameForDiffs(xs: seq<Cell>, ys: seq<Cell>) {
    |xs| == |ys| && forall i :: 0 <= i < |xs| ==> SameForDiffs(xs[i], ys[i])
  }

  lemma {:induction false} SelectUntouched(xs: seq<Cell>, ys: seq<Cell>, m: string, condition: string, flags: set<bool>)
    requires AllSameForDiffs(xs, ys)
    ensures condition == OFF || flags == {true} ==> Select(xs, m, condition, flags) == Select(ys, m, condition, flags)
    ensures |Select(xs, m, condition, flags)| == |Select(ys, m, condition, flags)|
  {
    if |xs| > 0 {
      SelectUntouched(xs[..|xs| - 1], ys[..|ys| - 1], m, condition, flags);
      assert SameForDiffs(xs[|xs| - 1], ys[|xs| - 1]);
    }
  }

  lemma KeysUntouched(xs: seq<Cell>, ys: seq<Cell>, m: string, condition: string)
    requires AllSameForDiffs(xs, ys) && HasKey(xs, m, condition)
    ensures HasKey(ys, m, condition)
  {
    var c :| c in xs && c.model == m && c.condition == condition;
    var i :| 0 <= i < |xs| && xs[i] == c;
    assert SameForDiffs(xs[i], ys[i]) && ys[i] in ys;
  }

  /** Changing outcome, tokens, cost or contention of not-scored ON cells changes no diff. */
  lemma NotScoredNeverCounts(xs: seq<Cell>, ys: seq<Cell>)
    requires AllSameForDiffs(xs, ys)
    ensures ModelDiffsOf(xs) == ModelDiffsOf(ys)
  {
    forall m, condition ensures HasKey(xs, m, condition) <==> HasKey(ys, m, condition) {
      if HasKey(xs, m, condition) {
        KeysUntouched(xs, ys, m, condition);
      }
      if HasKey(ys, m, condition) {
        KeysUntouched(ys, xs, m, condition);
      }
    }
    forall m, condition | HasKey(xs, m, condition) ensures DiffAt(xs)((m, condition)) == DiffAt(ys)((m, condition)) {
      SelectUntouched(xs, ys, m, OFF, {true, false});
      SelectUntouched(xs, ys, m, condition, {true});
      SelectUntouched(xs, ys, m, condition, {false});
    }
    DiffsDetermined(xs, ys);
  }

  // ----- adding a cell -----

  function Excluding(d: ModelDiff): ModelDiff { d.(onNotScoredN := d.onNotScoredN + 1) }

  lemma RowExcluding(m: string, condition: string, off: seq<Cell>, on: seq<Cell>, n: nat)
    ensures Row(m, condition, off, on, n + 1) == Excluding(Row(m, condition, off, on, n))
  {
  }

  lemma DiffKey(cells: seq<Cell>, m: string, condition: string)
    ensures Diff(cells, m, condition).model == m && Diff(cells, m, condition).onCondition == condition
  {
  }

  predicate Selected(x: Cell, m: string, condition: string, flags: set<bool>) {
    x.model == m && x.condition == condition && x.scored in flags
  }

  lemma SelectMore(cells: seq<Cell>, x: Cell, m: string, condition: string, flags: set<bool>)
    ensures Selected(x, m, condition, flags) ==>
      |Select(cells + [x], m, condition, flags)| == |Select(cells, m, condition, flags)| + 1
    ensures !Selected(x, m, condition, flags) ==>
      Select(cells + [x], m, condition, flags) == Select(cells, m, condition, flags)
  {
    assert (cells + [x])[..|cells|] == cells;
    assert Select(cells, m, condition, flags) + [] == Select(cells, m, condition, flags);
  }

  lemma DiffFrom(cells: seq<Cell>, m: string, condition: string, off: seq<Cell>, on: seq<Cell>, n: nat)
    requires Select(cells, m, OFF, {true, false}) == off && Select(cells, m, condition, {true}) == on
    requires |Select(cells, m, condition, {false})| == n
    ensures Diff(cells, m, condition) == Row(m, condition, off, on, n)
  {
  }

  /** A not-scored cell outside OFF adds one to the excluded count of its own row. */
  lemma DiffOfOwnRow(cells: seq<Cell>, x: Cell)
    requires !x.scored && x.condition != OFF
    ensures Diff(cells + [x], x.model, x.condition) == Excluding(Diff(cells, x.model, x.condition))
  {
    var m, c := x.model, x.condition;
    var off, on, n := Select(cells, m, OFF, {true, false}), Select(cells, m, c, {true}), |Select(cells, m, c, {false})|;
    SelectMore(cells, x, m, OFF, {true, false});
    SelectMore(cells, x, m, c, {true});
    SelectMore(cells, x, m, c, {false});
    DiffFrom(cells, m, c, off, on, n);
    DiffFrom(cells + [x], m, c, off, on, n + 1);
    RowExcluding(m, c, off, on, n);
  }

  /** No cell changes a row of another model, and none outside OFF a row of another condition. */
  lemma DiffOfOtherRow(cells: seq<Cell>, x: Cell, m: string, condition: string)
    requires x.model != m || (x.condition != OFF && x.condition != condition)
    ensures Diff(cells + [x], m, condition) == Diff(cells, m, condition)
  {
    SelectMore(cells, x, m, OFF, {true, false});
    SelectMore(cells, x, m, condition, {true});
    SelectMore(cells, x, m, condition, {false});
  }

  /** Any OFF cell is counted in every row of its model. */
  lemma OffCellCounts(cells: seq<Cell>, x: Cell, condition: string)
    requires x.condition == OFF
    ensures Diff(cells + [x], x.model, condition).offN == Diff(cells, x.model, condition).offN + 1
  {
    SelectMore(cells, x, x.model, OFF, {true, false});
  }

  lemma KeyMore(cells: seq<Cell>, x: Cell, m: string, condition: string)
    ensures HasKey(cells + [x], m, condition)
       <==> HasKey(cells, m, condition) || (OnStyle(condition) && x.model == m && x.condition == condition)
  {
    assert forall c :: c in cells + [x] <==> c in cells || c == x;
  }

  lemma SameKeysMore(cells: seq<Cell>, x: Cell)
    requires OnStyle(x.condition) ==> HasKey(cells, x.model, x.condition)
    ensures SameKeys(cells, cells + [x])
  {
    forall m, condition ensures HasKey(cells, m, condition) <==> HasKey(cells + [x], m, condition) {
      KeyMore(cells, x, m, condition);
    }
  }

  /** Row i of a card, by its key. */
  lemma RowIs(cells: seq<Cell>, i: nat)
    requires i < |KeysOf(cells)|
    ensures |ModelDiffsOf(cells)| == |KeysOf(cells)|
    ensures
      var (m, condition) := KeysOf(cells)[i];
      && HasKey(cells, m, condition)
      && ModelDiffsOf(cells)[i] == Diff(cells, m, condition)
      && ModelDiffsOf(cells)[i].model == m && ModelDiffsOf(cells)[i].onCondition == condition
  {
    RowsFitKeys(cells, Models(cells));
    var (m, condition) := KeysOf(cells)[i];
    assert (m, condition) in KeysOf(cells);
    KeysAre(cells, m, condition);
    DiffKey(cells, m, condition);
  }

  lemma RowCount(cells: seq<Cell>)
    ensures |ModelDiffsOf(cells)| == |KeysOf(cells)|
  {
    RowsFitKeys(cells, Models(cells));
  }

  /** A row after a not-scored cell joined its card: one more excluded if it is the cell's row. */
  function With(d: ModelDiff, x: Cell): ModelDiff {
    if d.model == x.model && d.onCondition == x.condition then Excluding(d) else d
  }

  lemma RowWith(cells: seq<Cell>, x: Cell, i: nat)
    requires !x.scored && x.condition != OFF && KeysOf(cells + [x]) == KeysOf(cells) && i < |KeysOf(cells)|
    ensures |ModelDiffsOf(cells)| == |KeysOf(cells)| == |ModelDiffsOf(cells + [x])|
    ensures ModelDiffsOf(cells + [x])[i] == With(ModelDiffsOf(cells)[i], x)
  {
    RowIs(cells, i);
    RowIs(cells + [x], i);
    var (m, condition) := KeysOf(cells)[i];
    if m == x.model && condition == x.condition {
      DiffOfOwnRow(cells, x);
    } else {
      DiffOfOtherRow(cells, x, m, condition);
    }
  }

  /** Adding a not-scored cell to a condition that exists adds one to its excluded count and
      changes nothing else. */
  lemma AddingNotScored(cells: seq<Cell>, x: Cell)
    requires !x.scored && HasKey(cells, x.model, x.condition)
    ensures
      var before, after := ModelDiffsOf(cells), ModelDiffsOf(cells + [x]);
      |after| == |before| && forall i :: 0 <= i < |before| ==> after[i] == With(before[i], x)
  {
    OffIsNotOnStyle();
    SameKeysMore(cells, x);
    KeysDetermined(cells, cells + [x]);
    RowCount(cells);
    RowCount(cells + [x]);
    forall i | 0 <= i < |KeysOf(cells)| ensures ModelDiffsOf(cells + [x])[i] == With(ModelDiffsOf(cells)[i], x) {
      RowWith(cells, x, i);
    }
  }

  lemma OffIsNotOnStyle()
    ensures !OnStyle(OFF)
  {
    assert OFF[1] != "ON"[1];
  }

  // ----- what the gate covers -----

  /** The same rows up to the excluded counts. */
  predicate SameFigures(d: ModelDiff, e: ModelDiff) { d == e.(onNotScoredN := d.onNotScoredN) }
  ghost predicate SameCounted(a: seq<ModelDiff>, b: seq<ModelDiff>) {
    |a| == |b| && forall i :: 0 <= i < |a| ==> SameFigures(a[i], b[i])
  }

  /** The gate holds for a cell that is not OFF and whose row, if it is ON-style, exists already;
      for an OFF cell it holds only where the model has no row. */
  ghost predicate GateHolds(cells: seq<Cell>, x: Cell) {
    if x.condition == OFF then forall condition :: !HasKey(cells, x.model, condition)
    else OnStyle(x.condition) ==> HasKey(cells, x.model, x.condition)
  }

  /** The scored flag of an OFF cell is never read: a not-scored cell leaves all counted figures
      alone exactly when GateHolds. */
  lemma GateExactly(cells: seq<Cell>, x: Cell)
    requires !x.scored
    ensures SameCounted(ModelDiffsOf(cells), ModelDiffsOf(cells + [x])) <==> GateHolds(cells, x)
  {
    if x.condition == OFF {
      if forall condition :: !HasKey(cells, x.model, condition) {
        OffCellUnseen(cells, x);
      } else {
        OffCellShows(cells, x);
      }
    } else if !OnStyle(x.condition) {
      OtherCellUnseen(cells, x);
    } else if HasKey(cells, x.model, x.condition) {
      OwnRowUnseen(cells, x);
    } else {
      NewRowShows(cells, x);
    }
  }

  lemma SameCountedRefl(a: seq<ModelDiff>)
    ensures SameCounted(a, a)
  {
  }

  lemma OwnRowUnseen(cells: seq<Cell>, x: Cell)
    requires !x.scored && HasKey(cells, x.model, x.condition)
    ensures SameCounted(ModelDiffsOf(cells), ModelDiffsOf(cells + [x]))
  {
    AddingNotScored(cells, x);
    WithCounted(ModelDiffsOf(cells), ModelDiffsOf(cells + [x]), x);
  }

  lemma WithCounted(a: seq<ModelDiff>, b: seq<ModelDiff>, x: Cell)
    requires |a| == |b| && forall i :: 0 <= i < |a| ==> b[i] == With(a[i], x)
    ensures SameCounted(a, b)
  {
  }

  lemma OffCellUnseen(cells: seq<Cell>, x: Cell)
    requires x.condition == OFF && forall condition :: !HasKey(cells, x.model, condition)
    ensures SameCounted(ModelDiffsOf(cells), ModelDiffsOf(cells + [x]))
  {
    OffIsNotOnStyle();
    SameKeysMore(cells, x);
    forall m, condition | HasKey(cells, m, condition) ensures DiffAt(cells)((m, condition)) == DiffAt(cells + [x])((m, condition)) {
      DiffOfOtherRow(cells, x, m, condition);
    }
    DiffsDetermined(cells, cells + [x]);
    SameCountedRefl(ModelDiffsOf(cells));
  }

  lemma OtherCellUnseen(cells: seq<Cell>, x: Cell)
    requires x.condition != OFF && !OnStyle(x.condition)
    ensures SameCounted(ModelDiffsOf(cells), ModelDiffsOf(cells + [x]))
  {
    SameKeysMore(cells, x);
    forall m, condition | HasKey(cells, m, condition) ensures DiffAt(cells)((m, condition)) == DiffAt(cells + [x])((m, condition)) {
      DiffOfOtherRow(cells, x, m, condition);
    }
    DiffsDetermined(cells, cells + [x]);
    SameCountedRefl(ModelDiffsOf(cells));
  }

  lemma OffCellShows(cells: seq<Cell>, x: Cell)
    requires x.condition == OFF && exists condition :: HasKey(cells, x.model, condition)
    ensures !SameCounted(ModelDiffsOf(cells), ModelDiffsOf(cells + [x]))
  {
    var condition :| HasKey(cells, x.model, condition);
    OffIsNotOnStyle();
    SameKeysMore(cells, x);
    KeysDetermined(cells, cells + [x]);
    KeysAre(cells, x.model, condition);
    var i :| 0 <= i < |KeysOf(cells)| && KeysOf(cells)[i] == (x.model, condition);
    RowIs(cells, i);
    RowIs(cells + [x], i);
    OffCellCounts(cells, x, condition);
    assert !SameFigures(ModelDiffsOf(cells)[i], ModelDiffsOf(cells + [x])[i]);
  }

  lemma NewRowShows(cells: seq<Cell>, x: Cell)
    requires OnStyle(x.condition) && !HasKey(cells, x.model, x.condition)
    ensures !SameCounted(ModelDiffsOf(cells), ModelDiffsOf(cells + [x]))
  {
    KeyMore(cells, x, x.model, x.condition);
    KeysAre(cells + [x], x.model, x.condition);
    var i :| 0 <= i < |KeysOf(cells + [x])| && KeysOf(cells + [x])[i] == (x.model, x.condition);
    RowIs(cells + [x], i);
    RowCount(cells);
    if i < |ModelDiffsOf(cells)| {
      RowIs(cells, i);
      assert !SameFigures(ModelDiffsOf(cells)[i], ModelDiffsOf(cells + [x])[i]);
    }
  }
}
