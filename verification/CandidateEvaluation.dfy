/** Evaluating rankings against the targets that were observed: one slice, then a panel of slices under one model. */
module CandidateEvaluation {
  import opened Wrappers
  import opened FiniteSums
  import opened Ordering
  import opened CrossSectionalRanking
  import opened BoundarySelection
  import opened TopK
  import opened Correlation
  import opened CandidateRanking
  import opened CandidateDatasets

  datatype EvaluationError = DepthNotPositive | ScopeMismatch | PopulationSizeMismatch | PopulationNotPreserved
    | SpecificationMismatch | DuplicateRanking | RankingsIncomplete | SeveralModels

  function AccountedSymbols(run: Run): seq<int> {
    Sort(PredictionSymbols(run.predictions) + RejectionSymbols(run.rejections), NUMBER_KEY)
  }

  /** The ranking belongs to this dataset and accounts for exactly its population. */
  ghost predicate Evaluable(d: Dataset, run: Run) {
    && run.dataset.id == d.id && run.dataset.universe == d.universe && run.dataset.target == d.target
    && run.dataset.decisionTime == d.decisionTime
    && run.candidatePopulation == |d.population|
    && AccountedSymbols(run) == d.population
  }

  // ---- targets ----

  function TargetsOf(rows: seq<Row>): map<int, TargetCell> {
    if rows == [] then map[] else TargetsOf(rows[..|rows| - 1])[rows[|rows| - 1].symbol := rows[|rows| - 1].target]
  }

  function ObservedTarget(targets: map<int, TargetCell>, symbol: int): Option<real> {
    if symbol in targets && targets[symbol].Observed? then Some(targets[symbol].outcome) else None
  }

  /** The observed targets of a list of symbols, in that order. */
  function TargetValues(targets: map<int, TargetCell>, symbols: seq<int>): seq<real> {
    if symbols == [] then [] else
      var last := ObservedTarget(targets, symbols[|symbols| - 1]);
      TargetValues(targets, symbols[..|symbols| - 1]) + if last.Some? then [last.value] else []
  }

  /** Scores of the predictions whose target was observed. */
  function EvaluatedScores(targets: map<int, TargetCell>, ps: seq<Prediction>): seq<real> {
    if ps == [] then [] else
      EvaluatedScores(targets, ps[..|ps| - 1])
      + if ObservedTarget(targets, ps[|ps| - 1].symbol).Some? then [ps[|ps| - 1].score] else []
  }

  function Prefix(ps: seq<Prediction>, k: nat): seq<Prediction> {
    if k < |ps| then ps[..k] else ps
  }

  datatype SliceEvaluation = SliceEvaluation(
    candidates: nat, ranked: nat, targetAvailable: nat, evaluated: nat,
    rankingCoverage: real, targetCoverage: real, evaluatedCoverage: real,
    rankIc: Option<real>, topKObserved: nat, topKMean: Option<real>, rankedMean: Option<real>)

  function SafeRatio(numerator: int, denominator: int): real {
    if denominator == 0 then 0.0 else numerator as real / denominator as real
  }

  ghost function SliceOf(d: Dataset, run: Run, topK: nat, root: real -> real): SliceEvaluation
    requires IsRoot(root)
  {
    var targets := TargetsOf(d.rows);
    var scores := EvaluatedScores(targets, run.predictions);
    var values := TargetValues(targets, PredictionSymbols(run.predictions));
    var top := TargetValues(targets, PredictionSymbols(Prefix(run.predictions, topK)));
    PairedLengths(targets, run.predictions);
    var n, available := |d.population|, |TargetValues(targets, d.population)|;
    SliceEvaluation(n, run.rankedPopulation, available, |scores|,
                    SafeRatio(run.rankedPopulation, n), SafeRatio(available, n), SafeRatio(|scores|, n),
                    RankCorrelation(scores, values, root), |top|, Mean(top), Mean(values))
  }

  lemma {:induction false} PairedLengths(targets: map<int, TargetCell>, ps: seq<Prediction>)
    ensures |EvaluatedScores(targets, ps)| == |TargetValues(targets, PredictionSymbols(ps))|
  {
    if ps != [] {
      var init := ps[..|ps| - 1];
      PairedLengths(targets, init);
      assert PredictionSymbols(ps)[..|ps| - 1] == PredictionSymbols(init);
    }
  }

  method CollectTargets(rows: seq<Row>) returns (targets: map<int, TargetCell>)
    ensures targets == TargetsOf(rows)
  {
    targets := map[];
    for i := 0 to |rows|
      invariant targets == TargetsOf(rows[..i])
    {
      assert rows[..i + 1][..i] == rows[..i];
      targets := targets[rows[i].symbol := rows[i].target];
    }
    assert rows[..|rows|] == rows;
  }

  method CollectEvaluated(targets: map<int, TargetCell>, ps: seq<Prediction>)
    returns (scores: seq<real>, values: seq<real>)
    ensures scores == EvaluatedScores(targets, ps)
    ensures values == TargetValues(targets, PredictionSymbols(ps))
  {
    scores, values := [], [];
    var symbols := PredictionSymbols(ps);
    for i := 0 to |ps|
      invariant scores == EvaluatedScores(targets, ps[..i])
      invariant values == TargetValues(targets, symbols[..i])
    {
      assert ps[..i + 1][..i] == ps[..i] && symbols[..i + 1][..i] == symbols[..i];
      var target := ObservedTarget(targets, ps[i].symbol);
      if target.Some? {
        scores := scores + [ps[i].score];
        values := values + [target.value];
      }
    }
    assert ps[..|ps|] == ps && symbols[..|ps|] == symbols;
  }

  method EvaluateSlice(d: Dataset, run: Run, topK: int, root: real -> real)
    returns (r: Result<SliceEvaluation, EvaluationError>)
    requires ValidDataset(d) && IsRoot(root)
    ensures r.Ok? <==> topK > 0 && Evaluable(d, run)
    ensures r.Ok? ==> r.value == SliceOf(d, run, topK, root)
  {
    if topK <= 0 {
      return Err(DepthNotPositive);
    }
    if run.dataset.id != d.id || run.dataset.universe != d.universe || run.dataset.target != d.target
       || run.dataset.decisionTime != d.decisionTime {
      return Err(ScopeMismatch);
    }
    if run.candidatePopulation != |d.population| {
      return Err(PopulationSizeMismatch);
    }
    if AccountedSymbols(run) != d.population {
      return Err(PopulationNotPreserved);
    }
    var targets := CollectTargets(d.rows);
    var available := TargetValues(targets, d.population);
    var scores, values := CollectEvaluated(targets, run.predictions);
    var _, top := CollectEvaluated(targets, Prefix(run.predictions, topK));
    PairedLengths(targets, run.predictions);
    var ic := Spearman(scores, values, root);
    var n := |d.population|;
    return Ok(SliceEvaluation(n, run.rankedPopulation, |available|, |scores|,
                              SafeRatio(run.rankedPopulation, n), SafeRatio(|available|, n), SafeRatio(|scores|, n),
                              ic, |top|, Mean(top), Mean(values)));
  }

  // ---- the population check never rejects what the rankers return ----

  lemma {:induction false} SortedDistinct(symbols: seq<int>)
    requires Distinct(symbols)
    ensures Sort(symbols, NUMBER_KEY) == SortedSeq(Elements(symbols))
  {
    var sorted := Sort(symbols, NUMBER_KEY);
    SameMembers(symbols, sorted);
    PermutationDistinct(symbols, sorted);
    forall i, j | 0 <= i < j < |sorted| ensures sorted[i] < sorted[j] {
      assert AtMost(NUMBER_KEY(sorted[i]), NUMBER_KEY(sorted[j]));
    }
    SortedSetUnique(sorted, SortedSeq(Elements(symbols)), Elements(symbols));
  }

  /** Every run a ranker builds over a dataset can be evaluated on it. */
  lemma RankerOutputIsEvaluable(d: Dataset, scores: map<int, real>, rejections: seq<Rejection>)
    requires ValidDataset(d) && Accounts(d.population, scores.Keys, rejections)
    ensures Evaluable(d, Run(d, |d.population|, |scores|, PredictionsOf(scores), rejections))
  {
    AccountedRun(d, scores, rejections);
    SortedDistinct(PredictionSymbols(PredictionsOf(scores)) + RejectionSymbols(rejections));
  }

  // ---- coverages ----

  lemma RankedWithinPopulation(d: Dataset, run: Run)
    requires ValidDataset(d) && ValidRun(run) && Evaluable(d, run)
    ensures Distinct(PredictionSymbols(run.predictions)) && Distinct(d.population)
    ensures Elements(PredictionSymbols(run.predictions)) <= Elements(d.population)
  {
    var ranked, rejected := PredictionSymbols(run.predictions), RejectionSymbols(run.rejections);
    SameMembers(ranked + rejected, AccountedSymbols(run));
    forall i, j | 0 <= i < j < |ranked| ensures ranked[i] != ranked[j] {
      assert (ranked + rejected)[i] == ranked[i] && (ranked + rejected)[j] == ranked[j];
    }
    forall s | s in ranked ensures s in d.population {
      assert s in ranked + rejected;
    }
  }

  lemma {:induction false} FewerValues(targets: map<int, TargetCell>, symbols: seq<int>)
    ensures |TargetValues(targets, symbols)| <= |symbols|
  {
    if symbols != [] {
      FewerValues(targets, symbols[..|symbols| - 1]);
    }
  }

  /** The symbols with an observed target. */
  function Reached(targets: map<int, TargetCell>, symbols: seq<int>): set<int> {
    set s | s in Elements(symbols) && ObservedTarget(targets, s).Some?
  }

  lemma {:induction false} ValuesCountSymbols(targets: map<int, TargetCell>, symbols: seq<int>)
    requires Distinct(symbols)
    ensures |TargetValues(targets, symbols)| == |Reached(targets, symbols)|
  {
    if symbols == [] {
      assert Reached(targets, symbols) == {};
    } else {
      var init, last := symbols[..|symbols| - 1], symbols[|symbols| - 1];
      assert symbols == init + [last] && last !in init;
      ValuesCountSymbols(targets, init);
      var before, more := Reached(targets, init), if ObservedTarget(targets, last).Some? then {last} else {};
      forall s ensures s in Reached(targets, symbols) <==> s in before + more {
      }
      SameSet(Reached(targets, symbols), before + more);
    }
  }

  lemma RatioOrder(a: int, b: int, n: int)
    requires 0 <= a <= b <= n
    ensures 0.0 <= SafeRatio(a, n) <= SafeRatio(b, n) <= 1.0
  {
    if n != 0 {
      var x, y, z := a as real, b as real, n as real;
      assert x / z * z == x && y / z * z == y && x <= y <= z;
    }
  }

  /** Nothing is evaluated that is not both ranked and observed, and no coverage leaves [0, 1]. */
  lemma CoveragesAreOrdered(d: Dataset, run: Run, topK: nat, root: real -> real)
    requires ValidDataset(d) && ValidRun(run) && Evaluable(d, run) && IsRoot(root)
    ensures var e := SliceOf(d, run, topK, root);
      && 0.0 <= e.evaluatedCoverage <= e.rankingCoverage <= 1.0
      && e.evaluatedCoverage <= e.targetCoverage <= 1.0
  {
    var targets, ranked := TargetsOf(d.rows), PredictionSymbols(run.predictions);
    RankedWithinPopulation(d, run);
    PairedLengths(targets, run.predictions);
    FewerValues(targets, ranked);
    FewerValues(targets, d.population);
    ValuesCountSymbols(targets, ranked);
    ValuesCountSymbols(targets, d.population);
    SubsetCardinality(Reached(targets, ranked), Reached(targets, d.population));
    var e := SliceOf(d, run, topK, root);
    RatioOrder(e.evaluated, e.ranked, e.candidates);
    RatioOrder(e.evaluated, e.targetAvailable, e.candidates);
  }

  // ---- the evaluated prefix and the recommended rank set ----

  lemma PrefixSymbols(ps: seq<Prediction>, k: nat)
    ensures PredictionSymbols(Prefix(ps, k)) == PredictionSymbols(ps)[..Min(k, |ps|)]
  {
  }

  /** What is evaluated as Top-K is part of what is recommended, and all of it exactly when no tie straddles the
      boundary. */
  lemma EvaluatedTopKIsRecommended(scores: map<int, real>, topK: nat)
    ensures var evaluated := Elements(PredictionSymbols(Prefix(PredictionsOf(scores), topK)));
      && evaluated <= WithinRank(scores, topK, true)
      && |WithinRank(scores, topK, true)| >= Min(topK, |scores|)
      && (RankedKeysMembers(scores, true);
          evaluated == WithinRank(scores, topK, true) <==> CleanBoundary(RankedKeys(scores, true), scores, topK))
  {
    RankedKeysRank(scores, true);
    PredictionsScoreAndRank(scores);
    var r := RankedKeys(scores, true);
    PrefixSymbols(PredictionsOf(scores), topK);
    PrefixWithinRank(r, scores, true, topK);
    PrefixIsRankSetIff(r, scores, true, topK);
  }

  // ---- panels ----

  datatype Ranking = Ranking(model: int, run: Run)

  function RankingIds(rankings: seq<Ranking>): seq<int> {
    seq(|rankings|, i requires 0 <= i < |rankings| => rankings[i].run.dataset.id)
  }

  /** The ranking of a dataset. */
  function RankingFor(rankings: seq<Ranking>, id: int): Option<Ranking> {
    if rankings == [] then None
    else if rankings[|rankings| - 1].run.dataset.id == id then Some(rankings[|rankings| - 1])
    else RankingFor(rankings[..|rankings| - 1], id)
  }

  /** Exactly one ranking for every slice, all of one model. */
  ghost predicate RankingsMatch(slices: seq<Dataset>, rankings: seq<Ranking>) {
    && Distinct(RankingIds(rankings)) && Elements(RankingIds(rankings)) == Elements(SliceIds(slices))
    && forall a, b | a in rankings && b in rankings :: a.model == b.model
  }

  predicate RankingsKnown(slices: seq<Dataset>, rankings: seq<Ranking>) {
    forall i | 0 <= i < |slices| :: RankingFor(rankings, slices[i].id).Some?
  }

  function InPanelOrder(slices: seq<Dataset>, rankings: seq<Ranking>): (ordered: seq<Ranking>)
    requires RankingsKnown(slices, rankings)
    ensures |ordered| == |slices|
    ensures forall i | 0 <= i < |slices| :: ordered[i] == RankingFor(rankings, slices[i].id).value
  {
    seq(|slices|, i requires 0 <= i < |slices| => RankingFor(rankings, slices[i].id).value)
  }

  function RunsOf(rankings: seq<Ranking>): (runs: seq<Run>)
    ensures |runs| == |rankings| && forall i | 0 <= i < |runs| :: runs[i] == rankings[i].run
  {
    seq(|rankings|, i requires 0 <= i < |rankings| => rankings[i].run)
  }

  lemma {:induction false} RankingFound(rankings: seq<Ranking>, k: nat)
    requires Distinct(RankingIds(rankings)) && k < |rankings|
    ensures RankingFor(rankings, rankings[k].run.dataset.id) == Some(rankings[k])
  {
    var n := |rankings| - 1;
    if k < n {
      assert RankingIds(rankings)[k] != RankingIds(rankings)[n];
      assert forall i | 0 <= i < n :: RankingIds(rankings[..n])[i] == RankingIds(rankings)[i];
      RankingFound(rankings[..n], k);
    }
  }

  /** Put in panel order, the rankings are the same rankings. */
  lemma OrderedRankings(slices: seq<Dataset>, rankings: seq<Ranking>)
    requires Distinct(RankingIds(rankings)) && Elements(RankingIds(rankings)) == Elements(SliceIds(slices))
    ensures RankingsKnown(slices, rankings)
    ensures forall r :: r in InPanelOrder(slices, rankings) <==> r in rankings
  {
    forall i | 0 <= i < |slices|
      ensures RankingFor(rankings, slices[i].id).Some? && RankingFor(rankings, slices[i].id).value in rankings
    {
      assert SliceIds(slices)[i] in Elements(RankingIds(rankings));
      var k :| 0 <= k < |rankings| && RankingIds(rankings)[k] == slices[i].id;
      RankingFound(rankings, k);
    }
    forall r | r in rankings ensures r in InPanelOrder(slices, rankings) {
      var k :| 0 <= k < |rankings| && rankings[k] == r;
      assert RankingIds(rankings)[k] in Elements(SliceIds(slices));
      var i :| 0 <= i < |slices| && SliceIds(slices)[i] == r.run.dataset.id;
      RankingFound(rankings, k);
      assert InPanelOrder(slices, rankings)[i] == r;
    }
  }

  function ModelsOf(rankings: seq<Ranking>): set<int> {
    set i | 0 <= i < |rankings| :: rankings[i].model
  }

  lemma OneModelIff(rankings: seq<Ranking>)
    requires rankings != []
    ensures |ModelsOf(rankings)| == 1 <==> forall a, b | a in rankings && b in rankings :: a.model == b.model
  {
    var models, first := ModelsOf(rankings), rankings[0].model;
    assert first in models;
    if |models| == 1 {
      SubsetCardinality({first}, models);
      forall a | a in rankings ensures a.model == first {
        var i :| 0 <= i < |rankings| && rankings[i] == a;
        assert rankings[i].model in models;
      }
    }
    if forall a, b | a in rankings && b in rankings :: a.model == b.model {
      assert rankings[0] in rankings;
      forall m ensures m in models <==> m in {first} {
      }
      SameSet(models, {first});
    }
  }

  method OrderRankings(slices: seq<Dataset>, rankings: seq<Ranking>) returns (r: Result<seq<Ranking>, EvaluationError>)
    requires slices != []
    ensures r.Ok? <==> RankingsMatch(slices, rankings)
    ensures r.Ok? ==> RankingsKnown(slices, rankings) && r.value == InPanelOrder(slices, rankings)
  {
    CardinalityDetectsDuplicates(RankingIds(rankings));
    if |Elements(RankingIds(rankings))| != |rankings| {
      return Err(DuplicateRanking);
    }
    if Elements(RankingIds(rankings)) != Elements(SliceIds(slices)) {
      return Err(RankingsIncomplete);
    }
    OrderedRankings(slices, rankings);
    var ordered := InPanelOrder(slices, rankings);
    OneModelIff(ordered);
    if |ModelsOf(ordered)| != 1 {
      return Err(SeveralModels);
    }
    return Ok(ordered);
  }

  ghost predicate AllEvaluable(slices: seq<Dataset>, runs: seq<Run>) {
    |runs| == |slices| && forall i | 0 <= i < |slices| :: Evaluable(slices[i], runs[i])
  }

  lemma EvaluableSoFar(slices: seq<Dataset>, runs: seq<Run>, i: nat)
    requires |runs| == |slices| && i < |slices| && AllEvaluable(slices[..i], runs[..i])
    ensures Evaluable(slices[i], runs[i]) <==> AllEvaluable(slices[..i + 1], runs[..i + 1])
    ensures !Evaluable(slices[i], runs[i]) ==> !AllEvaluable(slices, runs)
  {
    var s, r := slices[..i + 1], runs[..i + 1];
    assert s[i] == slices[i] && r[i] == runs[i];
    forall j | 0 <= j < i ensures Evaluable(s[j], r[j]) {
      assert s[j] == slices[..i][j] && r[j] == runs[..i][j];
    }
  }

  ghost predicate AreEvaluated(out: seq<SliceEvaluation>, slices: seq<Dataset>, runs: seq<Run>, topK: nat,
                               root: real -> real)
    requires IsRoot(root)
  {
    |out| == |slices| == |runs| && forall i | 0 <= i < |slices| :: out[i] == SliceOf(slices[i], runs[i], topK, root)
  }

  lemma OneMoreEvaluated(out: seq<SliceEvaluation>, slices: seq<Dataset>, runs: seq<Run>, topK: nat,
                         root: real -> real, i: nat,
                         one: SliceEvaluation)
    requires |runs| == |slices| && i < |slices| && IsRoot(root)
    requires AreEvaluated(out, slices[..i], runs[..i], topK, root) && one == SliceOf(slices[i], runs[i], topK, root)
    ensures AreEvaluated(out + [one], slices[..i + 1], runs[..i + 1], topK, root)
  {
    var s, r := slices[..i + 1], runs[..i + 1];
    forall j | 0 <= j < i + 1 ensures (out + [one])[j] == SliceOf(s[j], r[j], topK, root) {
      if j < i {
        assert s[j] == slices[..i][j] && r[j] == runs[..i][j];
      }
    }
  }

  method EvaluateRankings(slices: seq<Dataset>, runs: seq<Run>, topK: int, root: real -> real)
    returns (r: Result<seq<SliceEvaluation>, EvaluationError>)
    requires |runs| == |slices| && slices != [] && IsRoot(root) && forall d | d in slices :: ValidDataset(d)
    ensures r.Ok? <==> topK > 0 && AllEvaluable(slices, runs)
    ensures r.Ok? ==> AreEvaluated(r.value, slices, runs, topK, root)
  {
    if topK <= 0 {
      return Err(DepthNotPositive);
    }
    var out: seq<SliceEvaluation> := [];
    for i := 0 to |slices|
      invariant AllEvaluable(slices[..i], runs[..i])
      invariant AreEvaluated(out, slices[..i], runs[..i], topK, root)
    {
      assert slices[i] in slices;
      EvaluableSoFar(slices, runs, i);
      var one := EvaluateSlice(slices[i], runs[i], topK, root);
      if one.Err? {
        return Err(one.error);
      }
      OneMoreEvaluated(out, slices, runs, topK, root, i, one.value);
      out := out + [one.value];
    }
    assert slices[..|slices|] == slices && runs[..|runs|] == runs;
    return Ok(out);
  }

  datatype PanelEvaluation = PanelEvaluation(
    model: int, slices: seq<SliceEvaluation>, candidates: int, ranked: int, evaluated: int,
    rankingCoverage: real, evaluatedCoverage: real, meanRankIc: Option<real>, meanTopK: Option<real>)

  function SumOf(numbers: seq<int>): int {
    if numbers == [] then 0 else SumOf(numbers[..|numbers| - 1]) + numbers[|numbers| - 1]
  }

  function Read<T>(es: seq<SliceEvaluation>, f: SliceEvaluation -> T): (r: seq<T>)
    ensures |r| == |es| && forall i | 0 <= i < |es| :: r[i] == f(es[i])
  {
    seq(|es|, i requires 0 <= i < |es| => f(es[i]))
  }

  const CANDIDATES: SliceEvaluation -> int := (e: SliceEvaluation) => e.candidates
  const RANKED: SliceEvaluation -> int := (e: SliceEvaluation) => e.ranked
  const EVALUATED: SliceEvaluation -> int := (e: SliceEvaluation) => e.evaluated
  const RANK_IC: SliceEvaluation -> Option<real> := (e: SliceEvaluation) => e.rankIc
  const TOP_K_MEAN: SliceEvaluation -> Option<real> := (e: SliceEvaluation) => e.topKMean

  function Summarized(model: int, es: seq<SliceEvaluation>): PanelEvaluation {
    var candidates := SumOf(Read(es, CANDIDATES));
    var ranked := SumOf(Read(es, RANKED));
    var evaluated := SumOf(Read(es, EVALUATED));
    PanelEvaluation(model, es, candidates, ranked, evaluated,
                    SafeRatio(ranked, candidates), SafeRatio(evaluated, candidates),
                    Mean(Defined(Read(es, RANK_IC))),
                    Mean(Defined(Read(es, TOP_K_MEAN))))
  }

  method EvaluatePanel(panel: Panel, rankings: seq<Ranking>, topK: int, root: real -> real)
    returns (r: Result<PanelEvaluation, EvaluationError>)
    requires ValidPanel(panel) && IsRoot(root) && forall d | d in panel.slices :: ValidDataset(d)
    ensures r.Ok? <==>
      && topK > 0 && RankingsMatch(panel.slices, rankings)
      && (OrderedRankings(panel.slices, rankings);
          AllEvaluable(panel.slices, RunsOf(InPanelOrder(panel.slices, rankings))))
    ensures r.Ok? ==>
      && (OrderedRankings(panel.slices, rankings);
          AreEvaluated(r.value.slices, panel.slices, RunsOf(InPanelOrder(panel.slices, rankings)), topK, root))
      && (forall x | x in rankings :: x.model == r.value.model)
      && r.value == Summarized(r.value.model, r.value.slices)
  {
    var matched := OrderRankings(panel.slices, rankings);
    if matched.Err? {
      return Err(matched.error);
    }
    OrderedRankings(panel.slices, rankings);
    var evaluated := EvaluateRankings(panel.slices, RunsOf(matched.value), topK, root);
    if evaluated.Err? {
      return Err(evaluated.error);
    }
    assert matched.value[0] in rankings;
    return Ok(Summarized(matched.value[0].model, evaluated.value));
  }

  // ---- the coverage of a panel lies between those of its slices ----

  lemma SumOfRead(es: seq<SliceEvaluation>, f: SliceEvaluation -> int)
    requires es != []
    ensures SumOf(Read(es, f)) == SumOf(Read(es[..|es| - 1], f)) + f(es[|es| - 1])
  {
    assert Read(es, f)[..|es| - 1] == Read(es[..|es| - 1], f);
  }

  /** a lies between lo and hi times n. */
  ghost predicate InProportion(a: int, n: int, lo: real, hi: real) {
    lo * n as real <= a as real <= hi * n as real
  }

  lemma BetweenAdds(a: int, n: int, b: int, m: int, lo: real, hi: real)
    requires InProportion(a, n, lo, hi) && InProportion(b, m, lo, hi)
    ensures InProportion(a + b, n + m, lo, hi)
  {
    var x, y := n as real, m as real;
    assert (n + m) as real == x + y;
    assert lo * (x + y) == lo * x + lo * y && hi * (x + y) == hi * x + hi * y;
  }

  lemma {:induction false} SumsWithin(es: seq<SliceEvaluation>, lo: real, hi: real)
    requires forall i | 0 <= i < |es| :: InProportion(es[i].ranked, es[i].candidates, lo, hi)
    ensures InProportion(SumOf(Read(es, RANKED)), SumOf(Read(es, CANDIDATES)), lo, hi)
  {
    if es != [] {
      var init, last := es[..|es| - 1], es[|es| - 1];
      SumsWithin(init, lo, hi);
      SumOfRead(es, CANDIDATES);
      SumOfRead(es, RANKED);
      BetweenAdds(SumOf(Read(init, RANKED)), SumOf(Read(init, CANDIDATES)), last.ranked, last.candidates, lo, hi);
    }
  }

  lemma RatioWithin(a: int, n: int, lo: real, hi: real)
    requires n > 0
    ensures lo <= SafeRatio(a, n) <= hi <==> InProportion(a, n, lo, hi)
  {
    var x, z := a as real, n as real;
    var q := x / z;
    assert q * z == x;
    assert (q - lo) * z == x - lo * z && (hi - q) * z == hi * z - x;
  }

  /** Whatever bounds hold of every slice's ranking coverage hold of the panel's, which pools the populations. */
  lemma PanelCoverageBetween(model: int, es: seq<SliceEvaluation>, lo: real, hi: real)
    requires forall i | 0 <= i < |es| :: es[i].candidates > 0 && lo <= es[i].rankingCoverage <= hi
    requires forall i | 0 <= i < |es| :: es[i].rankingCoverage == SafeRatio(es[i].ranked, es[i].candidates)
    requires es != []
    ensures lo <= Summarized(model, es).rankingCoverage <= hi
  {
    forall i | 0 <= i < |es| ensures InProportion(es[i].ranked, es[i].candidates, lo, hi) {
      RatioWithin(es[i].ranked, es[i].candidates, lo, hi);
    }
    SumsWithin(es, lo, hi);
    PositiveSum(es);
    var s := Summarized(model, es);
    RatioWithin(s.ranked, s.candidates, lo, hi);
  }

  lemma {:induction false} PositiveSum(es: seq<SliceEvaluation>)
    requires es != [] && forall i | 0 <= i < |es| :: es[i].candidates > 0
    ensures SumOf(Read(es, CANDIDATES)) > 0
  {
    SumOfRead(es, CANDIDATES);
    if |es| > 1 {
      PositiveSum(es[..|es| - 1]);
    } else {
      assert es[..|es| - 1] == [];
    }
  }
}
