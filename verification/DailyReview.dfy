/** The daily review of a settled decision: coverage, counts, means and the overlap of the two models. */
module DailyReview {
  import opened Wrappers
  import opened FiniteSums
  import opened Ordering
  import opened Correlation
  import opened BarHistory
  import opened CandidateRanking
  import opened PredictionRuns
  import opened Recommendations
  import opened EntryPlumbing
  import opened DecisionBundle
  import opened OutcomeSettlement

  datatype Review = Review(
    decision: Bundle, target: int, count: int, coverage: real, positive: int,
    topMean: Option<real>, populationMean: Option<real>, rankingCoverage: real,
    quality: seq<(int, int)>, blocked: seq<(int, int)>,
    overlap: int, union: int, jaccard: real, unresolved: int)

  function CountRatio(part: int, whole: int): real {
    if whole > 0 then part as real / whole as real else 0.0
  }

  predicate IsShare(x: real) {
    0.0 <= x <= 1.0
  }

  const PAIR_KEY: ((int, int)) -> Key := (p: (int, int)) => Key(0.0, p.0, p.1)

  function QualityCode(q: SourceQuality): int {
    match q
    case SourceComplete => 0
    case DataBlocked => 1
    case SourceDegraded => 2
    case SourceInsufficient => 3
  }

  /** Ordered pairs with counts that are not negative. */
  ghost predicate ValidPairs(pairs: seq<(int, int)>) {
    Sorted(pairs, PAIR_KEY) && forall p | p in pairs :: p.1 >= 0
  }

  ghost predicate CountsAgree(r: Review) {
    && r.count >= 0 && r.positive >= 0 && r.unresolved >= 0 && r.unresolved <= r.count
    && IsShare(r.coverage) && r.coverage == CountRatio(r.count - r.unresolved, r.count)
    && r.positive <= r.count - r.unresolved
  }

  ghost predicate OverlapAgrees(r: Review) {
    && r.overlap >= 0 && r.union >= 0 && r.overlap <= r.union && IsShare(r.jaccard)
    && r.jaccard == CountRatio(r.overlap, r.union)
  }

  /** The checks of the review's constructor. */
  ghost predicate ValidReview(r: Review) {
    && r.target == NEXT_SESSION_1030 && CountsAgree(r) && OverlapAgrees(r) && IsShare(r.rankingCoverage)
    && ValidPairs(r.quality) && ValidPairs(r.blocked)
  }

  // ---- what the review counts ----

  function ResolvedValues(outcomes: seq<RecommendationOutcome>): seq<real> {
    if outcomes == [] then [] else
      ResolvedValues(outcomes[..|outcomes| - 1])
      + if outcomes[|outcomes| - 1].available && outcomes[|outcomes| - 1].value.Some?
        then [outcomes[|outcomes| - 1].value.value] else []
  }

  function PopulationValues(outcomes: seq<PopulationOutcome>): seq<real> {
    if outcomes == [] then [] else
      PopulationValues(outcomes[..|outcomes| - 1])
      + if outcomes[|outcomes| - 1].available && outcomes[|outcomes| - 1].value.Some?
        then [outcomes[|outcomes| - 1].value.value] else []
  }

  function Positives(values: seq<real>): int {
    if values == [] then 0 else Positives(values[..|values| - 1]) + if values[|values| - 1] > 0.0 then 1 else 0
  }

  function ReasonCode(r: EntryReason): int {
    match r
    case CandidateQualityInsufficient => 0
    case DecisionPriceMissing => 1
    case EligibilityNotPassed => 2
    case EntryModelNotYetValidated => 3
    case SourceManifestIncomplete => 4
    case TradingStatusUnavailable => 5
  }

  function AllReasons(assessments: seq<Assessment>): seq<EntryReason> {
    if assessments == [] then [] else
      AllReasons(assessments[..|assessments| - 1]) + assessments[|assessments| - 1].reasons
  }

  function Tally(reasons: seq<EntryReason>): map<int, int> {
    if reasons == [] then map[] else
      var init, code := Tally(reasons[..|reasons| - 1]), ReasonCode(reasons[|reasons| - 1]);
      init[code := (if code in init then init[code] else 0) + 1]
  }

  function CountPairs(m: map<int, int>): seq<(int, int)> {
    InTimeOrder(map k | k in m :: (k, m[k]))
  }

  function ModelSymbols(recs: seq<Recommendation>, model: int): set<int> {
    set rec | rec in recs && rec.model == model :: rec.symbol
  }

  function CoverageOf(run: PredictionRun): real {
    CountRatio(|run.predictions|, run.population)
  }

  function Coverages(runs: seq<PredictionRun>): seq<real> {
    seq(|runs|, i requires 0 <= i < |runs| => CoverageOf(runs[i]))
  }

  function ReviewOf(decision: Bundle, population: seq<PopulationOutcome>,
                    outcomes: seq<RecommendationOutcome>): Review {
    var values := ResolvedValues(outcomes);
    var b0, b1 := ModelSymbols(decision.recommendations, B0_MODEL), ModelSymbols(decision.recommendations, B1_MODEL);
    Review(decision, NEXT_SESSION_1030, |outcomes|, CountRatio(|values|, |outcomes|), Positives(values),
           Mean(values), Mean(PopulationValues(population)), MeanCoverage(decision.runs),
           [(QualityCode(decision.report.status), 1)], CountPairs(Tally(AllReasons(decision.assessments))),
           |b0 * b1|, |b0 + b1|, CountRatio(|b0 * b1|, |b0 + b1|), |outcomes| - |values|)
  }

  // ---- every review that is built is accepted ----

  lemma {:induction false} ResolvedAtMost(outcomes: seq<RecommendationOutcome>)
    ensures |ResolvedValues(outcomes)| <= |outcomes|
  {
    if outcomes != [] {
      ResolvedAtMost(outcomes[..|outcomes| - 1]);
    }
  }

  lemma {:induction false} PositivesAtMost(values: seq<real>)
    ensures 0 <= Positives(values) <= |values|
  {
    if values != [] {
      PositivesAtMost(values[..|values| - 1]);
    }
  }

  lemma RatioInUnit(part: int, whole: int)
    requires 0 <= part <= whole
    ensures IsShare(CountRatio(part, whole))
  {
    if whole > 0 {
      assert part as real / whole as real <= whole as real / whole as real;
    }
  }

  lemma {:induction false} TotalInRange(xs: seq<real>)
    requires forall x | x in xs :: IsShare(x)
    ensures 0.0 <= Total(xs) <= |xs| as real
  {
    if xs != [] {
      assert xs[0] in xs && forall x | x in xs[1..] :: x in xs;
      TotalInRange(xs[1..]);
    }
  }

  lemma MeanInUnit(xs: seq<real>)
    requires xs != [] && forall x | x in xs :: IsShare(x)
    ensures IsShare(Average(xs))
  {
    TotalInRange(xs);
    var n := |xs| as real;
    assert Total(xs) / n <= n / n;
  }

  lemma CoveragesInUnit(runs: seq<PredictionRun>)
    requires forall run | run in runs :: ValidPredictionRun(run)
    ensures forall x | x in Coverages(runs) :: IsShare(x)
  {
    var xs := Coverages(runs);
    forall x | x in xs ensures IsShare(x) {
      var i :| 0 <= i < |xs| && xs[i] == x;
      assert runs[i] in runs;
      RatioInUnit(|runs[i].predictions|, runs[i].population);
    }
  }

  lemma {:induction false} TallyCounts(reasons: seq<EntryReason>)
    ensures forall k | k in Tally(reasons) :: Tally(reasons)[k] >= 1
  {
    if reasons != [] {
      TallyCounts(reasons[..|reasons| - 1]);
    }
  }

  lemma PairsAreSorted(m: map<int, int>)
    ensures Sorted(CountPairs(m), PAIR_KEY)
    ensures forall p :: p in CountPairs(m) <==> p.0 in m && m[p.0] == p.1
  {
    var byKey := map k | k in m :: (k, m[k]);
    var key := (p: (int, int)) => p.0;
    SeriesOfMap(key, byKey);
    var s := CountPairs(m);
    forall i, j | 0 <= i < j < |s| ensures AtMost(PAIR_KEY(s[i]), PAIR_KEY(s[j])) {
      assert key(s[i]) < key(s[j]);
    }
    forall p ensures p in s <==> p.0 in m && m[p.0] == p.1 {
      if p in s {
        assert key(p) in byKey && byKey[key(p)] == p;
      }
      if p.0 in m && m[p.0] == p.1 {
        assert p.0 in byKey && byKey[p.0] in s;
      }
    }
  }

  lemma {:induction false} BlockedPairsHold(reasons: seq<EntryReason>)
    ensures ValidPairs(CountPairs(Tally(reasons)))
  {
    TallyCounts(reasons);
    PairsAreSorted(Tally(reasons));
  }

  /** The intersection is part of the union, and together they hold both models' selections. */
  lemma OverlapAndUnion(a: set<int>, b: set<int>)
    ensures |a * b| <= |a + b| && |a * b| + |a + b| == |a| + |b|
  {
    SubsetCardinality(a * b, a + b);
    assert a + b == a + (b - a) && a !! b - a;
    assert b == (b - a) + a * b;
  }

  lemma {:induction false} CountsHold(r: Review, outcomes: seq<RecommendationOutcome>)
    requires r.count == |outcomes| && r.unresolved == |outcomes| - |ResolvedValues(outcomes)|
    requires r.coverage == CountRatio(|ResolvedValues(outcomes)|, |outcomes|)
    requires r.positive == Positives(ResolvedValues(outcomes))
    ensures CountsAgree(r)
  {
    ResolvedAtMost(outcomes);
    PositivesAtMost(ResolvedValues(outcomes));
    RatioInUnit(|ResolvedValues(outcomes)|, |outcomes|);
  }

  lemma OverlapHolds(r: Review, a: set<int>, b: set<int>)
    requires r.overlap == |a * b| && r.union == |a + b| && r.jaccard == CountRatio(|a * b|, |a + b|)
    ensures OverlapAgrees(r)
  {
    OverlapAndUnion(a, b);
    RatioInUnit(|a * b|, |a + b|);
  }

  function MeanCoverage(runs: seq<PredictionRun>): real {
    var coverage := Mean(Coverages(runs));
    if coverage.Some? then coverage.value else 0.0
  }

  lemma MeanCoverageHolds(runs: seq<PredictionRun>)
    requires forall run | run in runs :: ValidPredictionRun(run)
    ensures IsShare(MeanCoverage(runs))
  {
    CoveragesInUnit(runs);
    if runs != [] {
      MeanInUnit(Coverages(runs));
    }
  }

  /** No check of the review's constructor can fire on a review built from a settled decision. */
  lemma ReviewIsAccepted(decision: Bundle, population: seq<PopulationOutcome>, outcomes: seq<RecommendationOutcome>)
    requires forall run | run in decision.runs :: ValidPredictionRun(run)
    ensures ValidReview(ReviewOf(decision, population, outcomes))
  {
    var r := ReviewOf(decision, population, outcomes);
    CountsHold(r, outcomes);
    OverlapHolds(r, ModelSymbols(decision.recommendations, B0_MODEL), ModelSymbols(decision.recommendations, B1_MODEL));
    MeanCoverageHolds(decision.runs);
    BlockedPairsHold(AllReasons(decision.assessments));
    OnePairHolds(QualityCode(decision.report.status));
  }

  lemma OnePairHolds(code: int)
    ensures ValidPairs([(code, 1)])
  {
  }

  method CheckPairs(pairs: seq<(int, int)>) returns (ok: bool)
    ensures ok <==> ValidPairs(pairs)
  {
    if Sorted(pairs, PAIR_KEY) {
      SortOfSorted(pairs, PAIR_KEY);
    }
    ok := Sort(pairs, PAIR_KEY) == pairs && forall p | p in pairs :: p.1 >= 0;
  }

  method CheckReview(r: Review) returns (ok: bool)
    ensures ok <==> ValidReview(r)
  {
    var quality := CheckPairs(r.quality);
    var blocked := CheckPairs(r.blocked);
    ok := r.target == NEXT_SESSION_1030
      && r.count >= 0 && r.positive >= 0 && r.overlap >= 0 && r.union >= 0 && r.unresolved >= 0
      && IsShare(r.coverage) && IsShare(r.rankingCoverage) && IsShare(r.jaccard)
      && quality && blocked
      && r.unresolved <= r.count
      && r.coverage == CountRatio(r.count - r.unresolved, r.count)
      && r.positive <= r.count - r.unresolved
      && r.overlap <= r.union
      && r.jaccard == CountRatio(r.overlap, r.union);
  }

  method BuildDailyReview(decision: Bundle, population: seq<PopulationOutcome>, outcomes: seq<RecommendationOutcome>)
    returns (r: Result<Review, SettlementError>)
    requires forall run | run in decision.runs :: ValidPredictionRun(run)
    ensures r == Ok(ReviewOf(decision, population, outcomes)) && ValidReview(r.value)
  {
    var review := ReviewOf(decision, population, outcomes);
    ReviewIsAccepted(decision, population, outcomes);
    var ok := CheckReview(review);
    if !ok {
      return Err(ReviewRefused);
    }
    return Ok(review);
  }
}
