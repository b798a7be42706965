/** Directional accuracy: how often the candidates, the ranked and the Top-K went up or down, the lift of the Top-K
    over its population, and the aggregation of both over a panel. */
module DirectionalAccuracy {
  import opened Wrappers
  import opened FiniteSums
  import opened Ordering
  import opened Correlation
  import opened CandidateRanking
  import opened CandidateDatasets
  import opened CandidateEvaluation

  // ---- outcome counts ----

  datatype Counts = Counts(observed: int, positive: int, negative: int, neutral: int)

  function CountSign(values: seq<real>, sign: int): int {
    if values == [] then 0 else
      CountSign(values[..|values| - 1], sign) + if Sign(values[|values| - 1]) == sign then 1 else 0
  }

  function Sign(x: real): int {
    if x > 0.0 then 1 else if x < 0.0 then -1 else 0
  }

  function OutcomeCounts(values: seq<real>): Counts {
    Counts(|values|, CountSign(values, 1), CountSign(values, -1), CountSign(values, 0))
  }

  predicate ValidCounts(c: Counts) {
    c.observed >= 0 && c.positive >= 0 && c.negative >= 0 && c.neutral >= 0
    && c.positive + c.negative + c.neutral == c.observed
  }

  function AddCounts(a: Counts, b: Counts): Counts {
    Counts(a.observed + b.observed, a.positive + b.positive, a.negative + b.negative, a.neutral + b.neutral)
  }

  function SumCounts(groups: seq<Counts>): Counts {
    if groups == [] then Counts(0, 0, 0, 0) else AddCounts(SumCounts(groups[..|groups| - 1]), groups[|groups| - 1])
  }

  predicate AtMostCounts(a: Counts, b: Counts) {
    a.observed <= b.observed && a.positive <= b.positive && a.negative <= b.negative && a.neutral <= b.neutral
  }

  lemma {:induction false} CountsPartition(values: seq<real>)
    ensures ValidCounts(OutcomeCounts(values))
  {
    if values != [] {
      CountsPartition(values[..|values| - 1]);
    }
  }

  lemma {:induction false} CountSignConcat(a: seq<real>, b: seq<real>, sign: int)
    ensures CountSign(a + b, sign) == CountSign(a, sign) + CountSign(b, sign)
    decreases |b|
  {
    if b == [] {
      assert a + b == a;
    } else {
      CountSignConcat(a, b[..|b| - 1], sign);
      assert (a + b)[..|a + b| - 1] == a + b[..|b| - 1];
    }
  }

  function Concatenated(groups: seq<seq<real>>): seq<real> {
    if groups == [] then [] else Concatenated(groups[..|groups| - 1]) + groups[|groups| - 1]
  }

  function CountEach(groups: seq<seq<real>>): seq<Counts> {
    seq(|groups|, i requires 0 <= i < |groups| => OutcomeCounts(groups[i]))
  }

  lemma {:induction false} CountsConcat(a: seq<real>, b: seq<real>)
    ensures OutcomeCounts(a + b) ==
            Counts(|a| + |b|, CountSign(a, 1) + CountSign(b, 1), CountSign(a, -1) + CountSign(b, -1),
                   CountSign(a, 0) + CountSign(b, 0))
  {
    CountSignConcat(a, b, 1);
    CountSignConcat(a, b, -1);
    CountSignConcat(a, b, 0);
  }

  lemma SumCountsStep(groups: seq<seq<real>>)
    requires groups != []
    ensures SumCounts(CountEach(groups)) ==
            AddCounts(SumCounts(CountEach(groups[..|groups| - 1])), OutcomeCounts(groups[|groups| - 1]))
  {
    assert CountEach(groups)[..|groups| - 1] == CountEach(groups[..|groups| - 1]);
  }

  /** Pooling: summed slice counts are the counts of all slices' values together. */
  lemma {:induction false} PooledCounts(groups: seq<seq<real>>)
    ensures SumCounts(CountEach(groups)) == OutcomeCounts(Concatenated(groups))
  {
    if groups != [] {
      PooledCounts(groups[..|groups| - 1]);
      SumCountsStep(groups);
      CountsConcat(Concatenated(groups[..|groups| - 1]), groups[|groups| - 1]);
    }
  }

  // ---- Top-K within ranked within candidates ----

  ghost function Showing(targets: map<int, TargetCell>, symbols: set<int>, sign: int): set<int> {
    set s | s in symbols && ObservedTarget(targets, s).Some? && Sign(ObservedTarget(targets, s).value) == sign
  }

  /** Counting values of distinct symbols is counting symbols. */
  lemma {:induction false} CountIsCardinality(targets: map<int, TargetCell>, symbols: seq<int>, sign: int)
    requires Distinct(symbols)
    ensures CountSign(TargetValues(targets, symbols), sign) == |Showing(targets, Elements(symbols), sign)|
  {
    if symbols == [] {
      assert Showing(targets, Elements(symbols), sign) == {};
    } else {
      var init, last := symbols[..|symbols| - 1], symbols[|symbols| - 1];
      CountIsCardinality(targets, init, sign);
      assert last !in init;
      LastShows(targets, init, last, sign);
      assert symbols == init + [last];
      CountSignConcat(TargetValues(targets, init),
                      if ObservedTarget(targets, last).Some? then [ObservedTarget(targets, last).value] else [], sign);
    }
  }

  lemma LastShows(targets: map<int, TargetCell>, init: seq<int>, last: int, sign: int)
    requires last !in init
    ensures |Showing(targets, Elements(init + [last]), sign)| == |Showing(targets, Elements(init), sign)|
            + if ObservedTarget(targets, last).Some? && Sign(ObservedTarget(targets, last).value) == sign then 1 else 0
  {
    var before, after := Showing(targets, Elements(init), sign), Showing(targets, Elements(init + [last]), sign);
    if ObservedTarget(targets, last).Some? && Sign(ObservedTarget(targets, last).value) == sign {
      forall s ensures s in after <==> s in before + {last} {
      }
      SameSet(after, before + {last});
    } else {
      forall s ensures s in after <==> s in before {
      }
      SameSet(after, before);
    }
  }

  lemma {:induction false} FewerSymbolsFewerOfSign(targets: map<int, TargetCell>, a: seq<int>, b: seq<int>, sign: int)
    requires Distinct(a) && Distinct(b) && Elements(a) <= Elements(b)
    ensures CountSign(TargetValues(targets, a), sign) <= CountSign(TargetValues(targets, b), sign)
  {
    CountIsCardinality(targets, a, sign);
    CountIsCardinality(targets, b, sign);
    SubsetCardinality(Showing(targets, Elements(a), sign), Showing(targets, Elements(b), sign));
  }

  lemma {:induction false} SignBySign(v: seq<real>, w: seq<real>)
    requires CountSign(v, 1) <= CountSign(w, 1) && CountSign(v, -1) <= CountSign(w, -1)
    requires CountSign(v, 0) <= CountSign(w, 0)
    ensures AtMostCounts(OutcomeCounts(v), OutcomeCounts(w))
  {
    CountsPartition(v);
    CountsPartition(w);
  }

  lemma {:induction false} FewerSymbolsFewerCounts(targets: map<int, TargetCell>, a: seq<int>, b: seq<int>)
    requires Distinct(a) && Distinct(b) && Elements(a) <= Elements(b)
    ensures AtMostCounts(OutcomeCounts(TargetValues(targets, a)), OutcomeCounts(TargetValues(targets, b)))
  {
    FewerSymbolsFewerOfSign(targets, a, b, 1);
    FewerSymbolsFewerOfSign(targets, a, b, -1);
    FewerSymbolsFewerOfSign(targets, a, b, 0);
    SignBySign(TargetValues(targets, a), TargetValues(targets, b));
  }

  /** Category by category, Top-K counts never exceed ranked counts, nor ranked counts candidate counts. */
  lemma CountsAreMonotone(d: Dataset, run: Run, topK: nat)
    requires ValidDataset(d) && ValidRun(run) && Evaluable(d, run)
    ensures var targets := TargetsOf(d.rows);
      var ranked := PredictionSymbols(run.predictions);
      && AtMostCounts(OutcomeCounts(TargetValues(targets, PredictionSymbols(Prefix(run.predictions, topK)))),
                      OutcomeCounts(TargetValues(targets, ranked)))
      && AtMostCounts(OutcomeCounts(TargetValues(targets, ranked)), OutcomeCounts(TargetValues(targets, d.population)))
  {
    var targets := TargetsOf(d.rows);
    var ranked, top := PredictionSymbols(run.predictions), PredictionSymbols(Prefix(run.predictions, topK));
    RankedWithinPopulation(d, run);
    assert top == ranked[..|top|];
    assert Elements(top) <= Elements(ranked);
    FewerSymbolsFewerCounts(targets, top, ranked);
    FewerSymbolsFewerCounts(targets, ranked, d.population);
  }

  // ---- rates and lifts ----

  function OptionalRatio(numerator: int, denominator: int): Option<real> {
    if denominator == 0 then None else Some(numerator as real / denominator as real)
  }

  function Difference(a: Option<real>, b: Option<real>): Option<real> {
    if a.Some? && b.Some? then Some(a.value - b.value) else None
  }

  function PositiveRate(c: Counts): Option<real> {
    OptionalRatio(c.positive, c.observed)
  }

  function NegativeRate(c: Counts): Option<real> {
    OptionalRatio(c.negative, c.observed)
  }

  function NeutralRate(c: Counts): Option<real> {
    OptionalRatio(c.neutral, c.observed)
  }

  lemma RateBounds(x: real, o: real) returns (rate: real)
    requires 0.0 <= x <= o && o > 0.0
    ensures rate == x / o && 0.0 <= rate <= 1.0 && rate * o == x
  {
    rate := x / o;
    assert rate * o == x;
  }

  lemma RatesSumToOne(p: real, n: real, u: real, o: real)
    requires 0.0 <= p && 0.0 <= n && 0.0 <= u && p + n + u == o > 0.0
    ensures p / o + n / o + u / o == 1.0
    ensures 0.0 <= p / o <= 1.0 && 0.0 <= n / o <= 1.0 && 0.0 <= u / o <= 1.0
  {
    var x := RateBounds(p, o);
    var y := RateBounds(n, o);
    var z := RateBounds(u, o);
    assert (x + y + z - 1.0) * o == x * o + y * o + z * o - o;
  }

  lemma RatesPartition(c: Counts)
    requires ValidCounts(c) && c.observed > 0
    ensures PositiveRate(c).value + NegativeRate(c).value + NeutralRate(c).value == 1.0
    ensures 0.0 <= PositiveRate(c).value <= 1.0 && 0.0 <= NegativeRate(c).value <= 1.0 && 0.0 <= NeutralRate(c).value
  {
    RatesSumToOne(c.positive as real, c.negative as real, c.neutral as real, c.observed as real);
  }

  /** More rises need not mean fewer falls: the lift and the reduction differ by the change of the neutral rate, and
      neither exceeds one. */
  lemma LiftAndReduction(topK: Counts, all: Counts)
    requires ValidCounts(topK) && ValidCounts(all) && topK.observed > 0 && all.observed > 0
    ensures var lift := Difference(PositiveRate(topK), PositiveRate(all));
      var reduction := Difference(NegativeRate(all), NegativeRate(topK));
      && lift.Some? && reduction.Some? && -1.0 <= lift.value <= 1.0 && -1.0 <= reduction.value <= 1.0
      && lift.value - reduction.value == NeutralRate(all).value - NeutralRate(topK).value
  {
    RatesPartition(topK);
    RatesPartition(all);
  }

  // ---- one slice ----

  /** The rule: which target, and how deep the selection goes. */
  datatype Specification = Specification(target: int, topK: int)

  datatype DirectionalSlice = DirectionalSlice(
    base: SliceEvaluation, topKCoverage: real, candidates: Counts, ranked: Counts, topK: Counts,
    lift: Option<real>, reduction: Option<real>)

  function AssessSlice(base: SliceEvaluation, depth: int, candidates: Counts, ranked: Counts,
                       topK: Counts): DirectionalSlice
    requires depth > 0
  {
    DirectionalSlice(base, topK.observed as real / depth as real, candidates, ranked, topK,
                     Difference(PositiveRate(topK), PositiveRate(candidates)),
                     Difference(NegativeRate(candidates), NegativeRate(topK)))
  }

  function RankedTargets(d: Dataset, run: Run): seq<real> {
    TargetValues(TargetsOf(d.rows), PredictionSymbols(run.predictions))
  }

  function TopKTargets(d: Dataset, run: Run, topK: nat): seq<real> {
    TargetValues(TargetsOf(d.rows), PredictionSymbols(Prefix(run.predictions, topK)))
  }

  function CandidateTargets(d: Dataset): seq<real> {
    TargetValues(TargetsOf(d.rows), d.population)
  }

  ghost function DirectionalOf(d: Dataset, run: Run, spec: Specification, root: real -> real): DirectionalSlice
    requires IsRoot(root) && spec.topK > 0
  {
    AssessSlice(SliceOf(d, run, spec.topK, root), spec.topK, OutcomeCounts(CandidateTargets(d)),
                OutcomeCounts(RankedTargets(d, run)), OutcomeCounts(TopKTargets(d, run, spec.topK)))
  }

  /** The observed targets of the rows, in row order. */
  function RowTargets(rows: seq<Row>): seq<real> {
    if rows == [] then [] else
      RowTargets(rows[..|rows| - 1])
      + if rows[|rows| - 1].target.Observed? then [rows[|rows| - 1].target.outcome] else []
  }

  method CollectRowTargets(rows: seq<Row>) returns (values: seq<real>)
    ensures values == RowTargets(rows)
  {
    values := [];
    for i := 0 to |rows|
      invariant values == RowTargets(rows[..i])
    {
      assert rows[..i + 1][..i] == rows[..i];
      if rows[i].target.Observed? {
        values := values + [rows[i].target.outcome];
      }
    }
    assert rows[..|rows|] == rows;
  }

  lemma {:induction false} MoreTargets(more: map<int, TargetCell>, targets: map<int, TargetCell>, symbols: seq<int>)
    requires forall i | 0 <= i < |symbols| :: ObservedTarget(more, symbols[i]) == ObservedTarget(targets, symbols[i])
    ensures TargetValues(more, symbols) == TargetValues(targets, symbols)
  {
    if symbols != [] {
      MoreTargets(more, targets, symbols[..|symbols| - 1]);
    }
  }

  /** The rows list the targets of the population in its order. */
  lemma {:induction false} RowTargetsAreTargets(rows: seq<Row>)
    requires Increasing(RowSymbols(rows))
    ensures RowTargets(rows) == TargetValues(TargetsOf(rows), RowSymbols(rows))
  {
    if rows != [] {
      var init, last := rows[..|rows| - 1], rows[|rows| - 1];
      LastSymbolIsLargest(rows);
      RowTargetsAreTargets(init);
      var symbols := RowSymbols(init);
      assert forall i | 0 <= i < |symbols| :: symbols[i] < last.symbol;
      MoreTargets(TargetsOf(rows), TargetsOf(init), symbols);
      assert RowSymbols(rows)[..|symbols|] == symbols;
    }
  }

  method EvaluateDirectionalSlice(d: Dataset, run: Run, spec: Specification, root: real -> real)
    returns (r: Result<DirectionalSlice, EvaluationError>)
    requires ValidDataset(d) && IsRoot(root) && spec.topK > 0
    ensures r.Ok? <==> d.target == spec.target && Evaluable(d, run)
    ensures r.Ok? ==> r.value == DirectionalOf(d, run, spec, root)
  {
    if d.target != spec.target {
      return Err(SpecificationMismatch);
    }
    var base := EvaluateSlice(d, run, spec.topK, root);
    if base.Err? {
      return Err(base.error);
    }
    var targets := CollectTargets(d.rows);
    var candidates := CollectRowTargets(d.rows);
    RowTargetsAreTargets(d.rows);
    var _, ranked := CollectEvaluated(targets, run.predictions);
    var _, top := CollectEvaluated(targets, Prefix(run.predictions, spec.topK));
    return Ok(AssessSlice(base.value, spec.topK, OutcomeCounts(candidates), OutcomeCounts(ranked), OutcomeCounts(top)));
  }

  // ---- panels ----

  datatype DirectionalPanel = DirectionalPanel(
    model: int, slices: seq<DirectionalSlice>, candidates: int, ranked: int,
    allCounts: Counts, rankedCounts: Counts, topKCounts: Counts,
    candidateRate: Option<real>, rankedRate: Option<real>, topKRate: Option<real>, topKFallRate: Option<real>,
    lift: Option<real>, reduction: Option<real>,
    comparable: int, improved: int, improvedFraction: Option<real>)

  function ReadSlices<T>(ss: seq<DirectionalSlice>, f: DirectionalSlice -> T): (r: seq<T>)
    ensures |r| == |ss| && forall i | 0 <= i < |ss| :: r[i] == f(ss[i])
  {
    seq(|ss|, i requires 0 <= i < |ss| => f(ss[i]))
  }

  const ALL_COUNTS: DirectionalSlice -> Counts := (s: DirectionalSlice) => s.candidates
  const RANKED_COUNTS: DirectionalSlice -> Counts := (s: DirectionalSlice) => s.ranked
  const TOP_K_COUNTS: DirectionalSlice -> Counts := (s: DirectionalSlice) => s.topK

  predicate HasBothRates(s: DirectionalSlice) {
    PositiveRate(s.topK).Some? && PositiveRate(s.candidates).Some?
  }

  predicate Improved(s: DirectionalSlice) {
    HasBothRates(s) && PositiveRate(s.topK).value > PositiveRate(s.candidates).value
  }

  function CountComparable(ss: seq<DirectionalSlice>): nat {
    if ss == [] then 0 else CountComparable(ss[..|ss| - 1]) + if HasBothRates(ss[|ss| - 1]) then 1 else 0
  }

  function CountImproved(ss: seq<DirectionalSlice>): nat {
    if ss == [] then 0 else CountImproved(ss[..|ss| - 1]) + if Improved(ss[|ss| - 1]) then 1 else 0
  }

  function DefinedMean(values: seq<Option<real>>): Option<real> {
    Mean(Defined(values))
  }

  function Aggregated(model: int, ss: seq<DirectionalSlice>): DirectionalPanel {
    DirectionalPanel(
      model, ss,
      SumOf(ReadSlices(ss, (s: DirectionalSlice) => s.base.candidates)),
      SumOf(ReadSlices(ss, (s: DirectionalSlice) => s.base.ranked)),
      SumCounts(ReadSlices(ss, ALL_COUNTS)), SumCounts(ReadSlices(ss, RANKED_COUNTS)),
      SumCounts(ReadSlices(ss, TOP_K_COUNTS)),
      DefinedMean(ReadSlices(ss, (s: DirectionalSlice) => PositiveRate(s.candidates))),
      DefinedMean(ReadSlices(ss, (s: DirectionalSlice) => PositiveRate(s.ranked))),
      DefinedMean(ReadSlices(ss, (s: DirectionalSlice) => PositiveRate(s.topK))),
      DefinedMean(ReadSlices(ss, (s: DirectionalSlice) => NegativeRate(s.topK))),
      DefinedMean(ReadSlices(ss, (s: DirectionalSlice) => s.lift)),
      DefinedMean(ReadSlices(ss, (s: DirectionalSlice) => s.reduction)),
      CountComparable(ss), CountImproved(ss), OptionalRatio(CountImproved(ss), CountComparable(ss)))
  }

  ghost predicate AreDirectional(out: seq<DirectionalSlice>, slices: seq<Dataset>, runs: seq<Run>, spec: Specification,
                                 root: real -> real)
    requires IsRoot(root) && spec.topK > 0
  {
    && |out| == |slices| == |runs|
    && forall i | 0 <= i < |slices| :: out[i] == DirectionalOf(slices[i], runs[i], spec, root)
  }

  lemma OneMoreDirectional(out: seq<DirectionalSlice>, slices: seq<Dataset>, runs: seq<Run>, spec: Specification,
                           root: real -> real, i: nat, one: DirectionalSlice)
    requires |runs| == |slices| && i < |slices| && IsRoot(root) && spec.topK > 0
    requires AreDirectional(out, slices[..i], runs[..i], spec, root)
    requires one == DirectionalOf(slices[i], runs[i], spec, root)
    ensures AreDirectional(out + [one], slices[..i + 1], runs[..i + 1], spec, root)
  {
    var s, r := slices[..i + 1], runs[..i + 1];
    forall j | 0 <= j < i + 1 ensures (out + [one])[j] == DirectionalOf(s[j], r[j], spec, root) {
      if j < i {
        assert s[j] == slices[..i][j] && r[j] == runs[..i][j];
      }
    }
  }

  method EvaluateSlices(slices: seq<Dataset>, runs: seq<Run>, spec: Specification, root: real -> real)
    returns (r: Result<seq<DirectionalSlice>, EvaluationError>)
    requires |runs| == |slices| && IsRoot(root) && spec.topK > 0
    requires forall d | d in slices :: ValidDataset(d) && d.target == spec.target
    ensures r.Ok? <==> AllEvaluable(slices, runs)
    ensures r.Ok? ==> AreDirectional(r.value, slices, runs, spec, root)
  {
    var out: seq<DirectionalSlice> := [];
    for i := 0 to |slices|
      invariant AllEvaluable(slices[..i], runs[..i])
      invariant AreDirectional(out, slices[..i], runs[..i], spec, root)
    {
      assert slices[i] in slices;
      EvaluableSoFar(slices, runs, i);
      var one := EvaluateDirectionalSlice(slices[i], runs[i], spec, root);
      if one.Err? {
        return Err(one.error);
      }
      OneMoreDirectional(out, slices, runs, spec, root, i, one.value);
      out := out + [one.value];
    }
    assert slices[..|slices|] == slices && runs[..|runs|] == runs;
    return Ok(out);
  }

  method EvaluateDirectionalPanel(panel: Panel, rankings: seq<Ranking>, spec: Specification, root: real -> real)
    returns (r: Result<DirectionalPanel, EvaluationError>)
    requires ValidPanel(panel) && IsRoot(root) && spec.topK > 0 && forall d | d in panel.slices :: ValidDataset(d)
    ensures r.Ok? <==>
      && panel.target == spec.target && RankingsMatch(panel.slices, rankings)
      && (OrderedRankings(panel.slices, rankings);
          AllEvaluable(panel.slices, RunsOf(InPanelOrder(panel.slices, rankings))))
    ensures r.Ok? ==>
      && (OrderedRankings(panel.slices, rankings);
          AreDirectional(r.value.slices, panel.slices, RunsOf(InPanelOrder(panel.slices, rankings)), spec, root))
      && (forall x | x in rankings :: x.model == r.value.model)
      && r.value == Aggregated(r.value.model, r.value.slices)
  {
    if panel.target != spec.target {
      return Err(SpecificationMismatch);
    }
    var matched := OrderRankings(panel.slices, rankings);
    if matched.Err? {
      return Err(matched.error);
    }
    OrderedRankings(panel.slices, rankings);
    var evaluated := EvaluateSlices(panel.slices, RunsOf(matched.value), spec, root);
    if evaluated.Err? {
      return Err(evaluated.error);
    }
    assert matched.value[0] in rankings;
    return Ok(Aggregated(matched.value[0].model, evaluated.value));
  }

  // ---- what a panel's numbers mean ----

  /** The observed targets of every slice, slice by slice. */
  function CandidateGroups(slices: seq<Dataset>): (groups: seq<seq<real>>)
    ensures |groups| == |slices| && forall i | 0 <= i < |slices| :: groups[i] == CandidateTargets(slices[i])
  {
    seq(|slices|, i requires 0 <= i < |slices| => CandidateTargets(slices[i]))
  }

  function TopKGroups(slices: seq<Dataset>, runs: seq<Run>, topK: nat): (groups: seq<seq<real>>)
    requires |runs| == |slices|
    ensures |groups| == |slices| && forall i | 0 <= i < |slices| :: groups[i] == TopKTargets(slices[i], runs[i], topK)
  {
    seq(|slices|, i requires 0 <= i < |slices| => TopKTargets(slices[i], runs[i], topK))
  }

  function RankedGroups(slices: seq<Dataset>, runs: seq<Run>): (groups: seq<seq<real>>)
    requires |runs| == |slices|
    ensures |groups| == |slices| && forall i | 0 <= i < |slices| :: groups[i] == RankedTargets(slices[i], runs[i])
  {
    seq(|slices|, i requires 0 <= i < |slices| => RankedTargets(slices[i], runs[i]))
  }

  lemma {:induction false} PooledGroup(out: seq<DirectionalSlice>, f: DirectionalSlice -> Counts,
                                       groups: seq<seq<real>>)
    requires |groups| == |out| && forall i | 0 <= i < |out| :: f(out[i]) == OutcomeCounts(groups[i])
    ensures SumCounts(ReadSlices(out, f)) == OutcomeCounts(Concatenated(groups))
  {
    PooledCounts(groups);
    assert ReadSlices(out, f) == CountEach(groups);
  }

  /** A panel's pooled counts are the counts of all its slices' observed targets together, in each of
      the three groups. */
  lemma PanelPoolsSlices(model: int, out: seq<DirectionalSlice>, slices: seq<Dataset>, runs: seq<Run>,
                         spec: Specification, root: real -> real)
    requires |runs| == |slices| && IsRoot(root) && spec.topK > 0 && AreDirectional(out, slices, runs, spec, root)
    ensures var p := Aggregated(model, out);
      && p.allCounts == OutcomeCounts(Concatenated(CandidateGroups(slices)))
      && p.rankedCounts == OutcomeCounts(Concatenated(RankedGroups(slices, runs)))
      && p.topKCounts == OutcomeCounts(Concatenated(TopKGroups(slices, runs, spec.topK)))
  {
    PooledGroup(out, ALL_COUNTS, CandidateGroups(slices));
    PooledGroup(out, RANKED_COUNTS, RankedGroups(slices, runs));
    PooledGroup(out, TOP_K_COUNTS, TopKGroups(slices, runs, spec.topK));
  }

  /** A slice is comparable exactly when something in its Top-K was observed. */
  lemma ComparableIffTopKObserved(d: Dataset, run: Run, spec: Specification, root: real -> real)
    requires ValidDataset(d) && ValidRun(run) && Evaluable(d, run) && IsRoot(root) && spec.topK > 0
    ensures HasBothRates(DirectionalOf(d, run, spec, root)) <==> TopKTargets(d, run, spec.topK) != []
  {
    CountsAreMonotone(d, run, spec.topK);
  }

  ghost function ComparableSlices(ss: seq<DirectionalSlice>): set<int> {
    set i | 0 <= i < |ss| && HasBothRates(ss[i])
  }

  ghost function ImprovedSlices(ss: seq<DirectionalSlice>): set<int> {
    set i | 0 <= i < |ss| && Improved(ss[i])
  }

  lemma OneMoreSlice(before: set<int>, after: set<int>, n: int, more: bool)
    requires n !in before && forall i :: i in after <==> i in before || (i == n && more)
    ensures |after| == |before| + if more then 1 else 0
  {
    if more {
      forall i ensures i in after <==> i in before + {n} {
      }
      SameSet(after, before + {n});
    } else {
      forall i ensures i in after <==> i in before {
      }
      SameSet(after, before);
    }
  }

  lemma LastImproves(ss: seq<DirectionalSlice>)
    requires ss != []
    ensures forall i :: i in ImprovedSlices(ss)
              <==> i in ImprovedSlices(ss[..|ss| - 1]) || (i == |ss| - 1 && Improved(ss[|ss| - 1]))
  {
  }

  lemma {:induction false} ComparableCount(ss: seq<DirectionalSlice>)
    ensures CountComparable(ss) == |ComparableSlices(ss)|
  {
    if ss == [] {
      assert ComparableSlices(ss) == {};
    } else {
      var n := |ss| - 1;
      ComparableCount(ss[..n]);
      OneMoreSlice(ComparableSlices(ss[..n]), ComparableSlices(ss), n, HasBothRates(ss[n]));
    }
  }

  lemma {:induction false} ImprovedCount(ss: seq<DirectionalSlice>)
    ensures CountImproved(ss) == |ImprovedSlices(ss)|
  {
    if ss == [] {
      assert ImprovedSlices(ss) == {};
    } else {
      var n := |ss| - 1;
      ImprovedCount(ss[..n]);
      LastImproves(ss);
      OneMoreSlice(ImprovedSlices(ss[..n]), ImprovedSlices(ss), n, Improved(ss[n]));
    }
  }

  lemma ShareOfWhole(part: nat, whole: nat)
    requires part <= whole && whole > 0
    ensures 0.0 <= part as real / whole as real <= 1.0
    ensures part as real / whole as real == 1.0 <==> part == whole
    ensures part as real / whole as real == 0.0 <==> part == 0
  {
    var share := RateBounds(part as real, whole as real);
    assert share * whole as real == part as real;
  }

  /** The improved slices are some of the comparable ones; their fraction exists exactly if one slice is comparable, and
      is one exactly if every comparable slice improved. */
  lemma ImprovedFractionMeans(model: int, ss: seq<DirectionalSlice>)
    ensures var p := Aggregated(model, ss);
      && p.comparable == |ComparableSlices(ss)| <= |ss| && p.improved == |ImprovedSlices(ss)| <= p.comparable
      && (p.improvedFraction.Some? <==> ComparableSlices(ss) != {})
      && (p.improvedFraction.Some? ==>
            && 0.0 <= p.improvedFraction.value <= 1.0
            && (p.improvedFraction.value == 1.0 <==> ImprovedSlices(ss) == ComparableSlices(ss))
            && (p.improvedFraction.value == 0.0 <==> ImprovedSlices(ss) == {}))
  {
    var comparable, improved := ComparableSlices(ss), ImprovedSlices(ss);
    ComparableCount(ss);
    ImprovedCount(ss);
    SubsetCardinality(improved, comparable);
    SlicesBelow(comparable, |ss|);
    if comparable != {} {
      ShareOfWhole(|improved|, |comparable|);
    }
  }

  lemma {:induction false} SlicesBelow(part: set<int>, n: nat)
    requires forall i | i in part :: 0 <= i < n
    ensures |part| <= n
  {
    if n > 0 {
      SlicesBelow(part - {n - 1}, n - 1);
    } else {
      assert forall i :: i !in part;
      SameSet(part, {});
    }
  }
}
