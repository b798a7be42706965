/** The settlement of a published decision as a whole, and the theorem that it always builds for what the daily loop
    publishes. */
module Settlement {
  import opened Wrappers
  import opened Ordering
  import opened BarHistory
  import opened CandidateRanking
  import opened CompositeRanking
  import opened PredictionRuns
  import opened Recommendations
  import opened EntryPlumbing
  import opened DecisionBundle
  import opened OutcomeSettlement
  import opened DailyReview

  datatype SettledDecision = SettledDecision(
    decision: Bundle, archive: int, provider: ProviderResult, session: int, universe: int,
    population: seq<PopulationOutcome>, outcomes: seq<RecommendationOutcome>, review: Review)

  function OutcomeSymbols(outcomes: seq<PopulationOutcome>): seq<int> {
    seq(|outcomes|, i requires 0 <= i < |outcomes| => outcomes[i].symbol)
  }

  predicate Linked(o: RecommendationOutcome, population: seq<PopulationOutcome>) {
    && o.population in population
    && o.symbol == o.population.symbol && o.available == o.population.available && o.value == o.population.value
  }

  ghost predicate NonDecreasing(s: seq<int>) {
    forall i, j | 0 <= i < j < |s| :: s[i] <= s[j]
  }

  /** The checks of the settlement's constructor. */
  ghost predicate ValidSettlement(s: SettledDecision) {
    && NonDecreasing(OutcomeSymbols(s.population))
    && Distinct(s.population)
    && (forall o | o in s.outcomes :: Linked(o, s.population))
    && s.review.decision == s.decision && s.review.count == |s.outcomes|
  }

  lemma {:induction false} SymbolsSortedIff(symbols: seq<int>)
    ensures Sort(symbols, NUMBER_KEY) == symbols <==> NonDecreasing(symbols)
  {
    if NonDecreasing(symbols) {
      forall i, j | 0 <= i < j < |symbols| ensures AtMost(NUMBER_KEY(symbols[i]), NUMBER_KEY(symbols[j])) {
      }
      SortOfSorted(symbols, NUMBER_KEY);
    }
    if Sort(symbols, NUMBER_KEY) == symbols {
      forall i, j | 0 <= i < j < |symbols| ensures symbols[i] <= symbols[j] {
        assert AtMost(NUMBER_KEY(symbols[i]), NUMBER_KEY(symbols[j]));
      }
    }
  }

  method CheckLinked(outcomes: seq<RecommendationOutcome>, population: seq<PopulationOutcome>) returns (linked: bool)
    ensures linked <==> forall o | o in outcomes :: Linked(o, population)
  {
    for i := 0 to |outcomes|
      invariant forall o | o in outcomes[..i] :: Linked(o, population)
    {
      assert outcomes[..i + 1] == outcomes[..i] + [outcomes[i]];
      if !Linked(outcomes[i], population) {
        assert outcomes[i] in outcomes;
        return false;
      }
    }
    assert outcomes[..|outcomes|] == outcomes;
    return true;
  }

  method CheckSettlement(s: SettledDecision) returns (ok: bool)
    ensures ok <==> ValidSettlement(s)
  {
    var symbols := OutcomeSymbols(s.population);
    SymbolsSortedIff(symbols);
    CardinalityDetectsDuplicates(s.population);
    var linked := CheckLinked(s.outcomes, s.population);
    ok := Sort(symbols, NUMBER_KEY) == symbols && |Elements(s.population)| == |s.population| && linked
      && s.review.decision == s.decision && s.review.count == |s.outcomes|;
  }

  // ---- settling ----

  /** What the decision and the provider hand over is well formed. */
  ghost predicate Settleable(decision: Bundle, provider: ProviderResult) {
    && ValidBundle(decision)
    && (decision.snapshot.Some? ==> ValidSnapshot(decision.snapshot.value))
    && (forall run | run in decision.runs :: ValidPredictionRun(run))
    && ValidProviderResult(provider)
  }

  ghost predicate RecommendsWithin(recs: seq<Recommendation>, population: seq<int>) {
    forall rec | rec in recs :: rec.symbol in population
  }

  lemma OutcomesCover(decision: Bundle, p: ProviderResult, session: int, symbols: seq<int>)
    requires decision.snapshot.Some? && ValidSnapshot(decision.snapshot.value)
    ensures OutcomeSymbols(Outcomes(decision, p, session, symbols)) == symbols
    ensures forall o | o in Outcomes(decision, p, session, symbols) :: ValidPopulationOutcome(o)
    ensures forall s :: OutcomeFor(Outcomes(decision, p, session, symbols), s).Some? <==> s in symbols
  {
    var outcomes := Outcomes(decision, p, session, symbols);
    forall i | 0 <= i < |symbols| ensures outcomes[i].symbol == symbols[i] && ValidPopulationOutcome(outcomes[i]) {
      assert outcomes[i] == OutcomeOf(decision, p, session, symbols[i]);
    }
    forall s ensures OutcomeFor(outcomes, s).Some? <==> s in symbols {
      OutcomeForFound(outcomes, s);
      if s in symbols {
        var i :| 0 <= i < |symbols| && symbols[i] == s;
        assert outcomes[i] in outcomes;
      }
    }
  }

  /** The settlement's content, given its outcomes. */
  ghost predicate IsSettlementOf(s: SettledDecision, decision: Bundle, archive: int, p: ProviderResult, session: int)
    requires decision.runs != [] && decision.snapshot.Some? && ValidSnapshot(decision.snapshot.value)
  {
    && s.decision == decision && s.archive == archive && s.provider == p && s.session == session
    && s.universe == decision.runs[0].universe
    && s.population == Outcomes(decision, p, session, Population(decision.runs[0]))
    && CarriesPopulation(s.outcomes, decision, decision.recommendations, s.population)
    && s.review == ReviewOf(decision, s.population, s.outcomes)
  }

  lemma CarriedIsLinked(outcomes: seq<RecommendationOutcome>, decision: Bundle, recs: seq<Recommendation>,
                        population: seq<PopulationOutcome>)
    requires CarriesPopulation(outcomes, decision, recs, population)
    ensures forall o | o in outcomes :: Linked(o, population)
  {
    forall o | o in outcomes ensures Linked(o, population) {
      var i :| 0 <= i < |outcomes| && outcomes[i] == o;
      assert Carries(outcomes[i], decision, recs[i], population);
      OutcomeForFound(population, recs[i].symbol);
    }
  }

  lemma BuiltIsValid(s: SettledDecision, decision: Bundle, archive: int, p: ProviderResult, session: int)
    requires decision.runs != [] && decision.snapshot.Some? && ValidSnapshot(decision.snapshot.value)
    requires IsSettlementOf(s, decision, archive, p, session)
    ensures ValidSettlement(s)
  {
    var symbols := Population(decision.runs[0]);
    OutcomesCover(decision, p, session, symbols);
    IncreasingPopulation(s.population, symbols);
    CarriedIsLinked(s.outcomes, decision, decision.recommendations, s.population);
  }

  lemma IncreasingPopulation(population: seq<PopulationOutcome>, symbols: seq<int>)
    requires Increasing(symbols) && OutcomeSymbols(population) == symbols
    ensures NonDecreasing(OutcomeSymbols(population)) && Distinct(population)
  {
    forall i, j | 0 <= i < j < |population| ensures population[i] != population[j] {
      assert symbols[i] < symbols[j] && symbols[i] == population[i].symbol && symbols[j] == population[j].symbol;
    }
  }

  method SettleOutcomes(decision: Bundle, artifact: Bundle, provider: ProviderResult, archive: int, session: int)
    returns (r: Result<SettledDecision, SettlementError>)
    requires Settleable(decision, provider)
    ensures r.Ok? <==>
      && decision.published && artifact == decision && session > Day(decision.manifest.decisionTime)
      && AllSame(Populations(decision.runs))
      && RecommendsWithin(decision.recommendations, Population(decision.runs[0]))
    ensures r.Ok? ==> IsSettlementOf(r.value, decision, archive, provider, session) && ValidSettlement(r.value)
  {
    if !decision.published || artifact != decision || decision.snapshot.None? {
      return Err(NotPublished);
    }
    if session <= Day(decision.manifest.decisionTime) {
      return Err(SessionNotLater);
    }
    var common := CommonPopulation(Populations(decision.runs));
    if common.Err? {
      return Err(common.error);
    }
    r := SettleWith(decision, provider, archive, session, common.value);
  }

  method SettleWith(decision: Bundle, provider: ProviderResult, archive: int, session: int, symbols: seq<int>)
    returns (r: Result<SettledDecision, SettlementError>)
    requires Settleable(decision, provider) && decision.runs != [] && decision.snapshot.Some?
    requires symbols == Population(decision.runs[0])
    ensures r.Ok? <==> RecommendsWithin(decision.recommendations, symbols)
    ensures r.Ok? ==> IsSettlementOf(r.value, decision, archive, provider, session) && ValidSettlement(r.value)
  {
    var population := SettlePopulation(decision, provider, session, symbols);
    OutcomesCover(decision, provider, session, symbols);
    var outcomes := SettleRecommendations(decision, decision.recommendations, population.value);
    if outcomes.Err? {
      return Err(outcomes.error);
    }
    var review := BuildDailyReview(decision, population.value, outcomes.value);
    var settled := SettledDecision(decision, archive, provider, session, decision.runs[0].universe,
                                   population.value, outcomes.value, review.value);
    BuiltIsValid(settled, decision, archive, provider, session);
    var ok := CheckSettlement(settled);
    if !ok {
      return Err(SettlementRefused);
    }
    return Ok(settled);
  }

  // ---- the daily loop always settles ----

  lemma {:induction false} ProjectedWithin(runs: seq<PredictionRun>, s: Snapshot, report: QualityReport, topK: int,
                                           rec: Recommendation, population: seq<int>)
    requires rec in ProjectRuns(runs, s, report, topK)
    requires forall run | run in runs :: Population(run) == population
    ensures rec.symbol in population
  {
    var init, last := runs[..|runs| - 1], runs[|runs| - 1];
    if rec in ProjectRuns(init, s, report, topK) {
      ProjectedWithin(init, s, report, topK, rec, population);
    } else {
      var recs, selected := ProjectRun(last, s, report, topK), Selected(last.predictions, topK);
      SelectedMembers(last.predictions, topK);
      var i :| 0 <= i < |recs| && recs[i] == rec;
      assert selected[i] in last.predictions;
      PredictionInPopulation(last, selected[i]);
      assert last in runs;
    }
  }

  lemma PredictionInPopulation(run: PredictionRun, p: Prediction)
    requires p in run.predictions
    ensures p.symbol in Population(run)
  {
    var i :| 0 <= i < |run.predictions| && run.predictions[i] == p;
    assert PredictionSymbols(run.predictions)[i] == p.symbol;
    assert p.symbol in RunSymbols(run);
  }

  lemma PublishedPopulation(d: Dataset, run: PredictionRun, scores: map<int, real>)
    requires ValidDataset(d) && run.predictions == PredictionsOf(scores)
    requires Accounts(d.population, scores.Keys, run.rejections)
    ensures Population(run) == d.population
  {
    AccountedRun(d, scores, run.rejections);
    ElementsConcat(PredictionSymbols(run.predictions), RejectionSymbols(run.rejections));
  }

  lemma ElementsConcat(a: seq<int>, b: seq<int>)
    ensures Elements(a + b) == Elements(a) + Elements(b)
  {
  }

  /** Both rankers cover the same candidate population, the dataset's. */
  lemma BothRunsCoverTheDataset(d: Dataset, modelZero: int, feature: int, modelOne: int, cs: seq<Component>)
    requires ValidDataset(d) && ValidSpec(cs) && feature in d.features
    ensures forall x | x in d.rows :: feature in x.cells
    ensures Population(FeatureRun(d, modelZero, feature)) == d.population
    ensures Population(CompositePredictionRun(d, modelOne, cs)) == d.population
  {
    RowsKnowFeature(d, feature);
    FeatureAccounts(d.rows, feature);
    PublishedPopulation(d, FeatureRun(d, modelZero, feature), FeatureScores(d.rows, feature));
    CompositeCovers(d, modelOne, cs);
  }

  lemma CompositeCovers(d: Dataset, model: int, cs: seq<Component>)
    requires ValidDataset(d) && ValidSpec(cs)
    ensures Population(CompositePredictionRun(d, model, cs)) == d.population
  {
    OrderedSpec(cs);
    var ordered := OrderedComponents(cs);
    CompositeAccounts(d.rows, ordered);
    var scores := CompositeScores(d.rows, ordered);
    assert scores.Keys == CompleteValues(d.rows, ordered).Keys;
    PublishedPopulation(d, CompositePredictionRun(d, model, cs), scores);
  }

  /** A decision whose recommendations were projected from runs over one population settles on every later session. */
  lemma {:induction false} ProjectedDecisionSettles(decision: Bundle, topK: int, population: seq<int>)
    requires decision.snapshot.Some? && decision.runs != []
    requires decision.recommendations == ProjectRuns(decision.runs, decision.snapshot.value, decision.report, topK)
    requires forall run | run in decision.runs :: Population(run) == population
    ensures AllSame(Populations(decision.runs))
    ensures RecommendsWithin(decision.recommendations, Population(decision.runs[0]))
  {
    forall i | 0 <= i < |decision.runs| ensures Populations(decision.runs)[i] == population {
      assert decision.runs[i] in decision.runs;
    }
    forall rec | rec in decision.recommendations ensures rec.symbol in population {
      ProjectedWithin(decision.runs, decision.snapshot.value, decision.report, topK, rec, population);
    }
  }

  /** Runs published over one dataset: distinct models, one population, one scope. */
  ghost predicate PublishedOver(runs: seq<PredictionRun>, d: Dataset) {
    && runs != [] && Distinct(runs) && Distinct(Models(runs))
    && forall run | run in runs :: PublishedFrom(run, d)
  }

  ghost predicate PublishedFrom(run: PredictionRun, d: Dataset) {
    && Published(run) && run.exploratory && Population(run) == d.population
    && run.target == d.target && run.universe == d.universe && run.decisionTime == d.decisionTime
  }

  lemma DailyRunsArePublished(d: Dataset, modelZero: int, feature: int, modelOne: int, cs: seq<Component>)
    requires ValidDataset(d) && ValidSpec(cs) && feature in d.features && modelZero != modelOne
    ensures forall x | x in d.rows :: feature in x.cells
    ensures PublishedOver([FeatureRun(d, modelZero, feature), CompositePredictionRun(d, modelOne, cs)], d)
  {
    FeatureRunPublishes(d, modelZero, feature);
    CompositeRunPublishes(d, modelOne, cs);
    BothRunsCoverTheDataset(d, modelZero, feature, modelOne, cs);
    TwoRuns(FeatureRun(d, modelZero, feature), CompositePredictionRun(d, modelOne, cs), d);
  }

  lemma TwoModels(a: PredictionRun, b: PredictionRun)
    requires a.model != b.model
    ensures Distinct([a, b]) && Distinct(Models([a, b]))
  {
    assert Models([a, b]) == [a.model, b.model];
  }

  lemma TwoRuns(a: PredictionRun, b: PredictionRun, d: Dataset)
    requires a.model != b.model && PublishedFrom(a, d) && PublishedFrom(b, d)
    ensures PublishedOver([a, b], d)
  {
    TwoModels(a, b);
    forall run | run in [a, b] ensures PublishedFrom(run, d) {
      if run != a {
        assert run == b;
      }
    }
  }

  /** The bundle carries what the stages make of its runs. */
  ghost predicate ProducedFrom(b: Bundle, d: Dataset, topK: int)
    requires b.eligibility.Some? && b.snapshot.Some?
  {
    && PublishedOver(b.runs, d)
    && b.snapshot.value.decisionTime == d.decisionTime && d.target == NEXT_SESSION_1030
    && b.recommendations == ProjectRuns(b.runs, b.snapshot.value, b.report, topK)
    && b.assessments == AssessAll(b.recommendations,
                                  Evidence(b.manifest, b.report, b.eligibility.value, b.snapshot.value))
  }

  lemma PublishedIsProjectable(runs: seq<PredictionRun>, d: Dataset, s: Snapshot, topK: int)
    requires PublishedOver(runs, d) && s.decisionTime == d.decisionTime && d.target == NEXT_SESSION_1030
    ensures Projectable(runs, s, topK) && forall run | run in runs :: Published(run)
  {
    forall run | run in runs ensures InScope(run, s, topK) && Published(run) {
      assert PublishedFrom(run, d);
    }
  }

  lemma PublishedCovers(runs: seq<PredictionRun>, d: Dataset)
    requires PublishedOver(runs, d)
    ensures forall run | run in runs :: Population(run) == d.population
    ensures forall run | run in runs :: ValidPredictionRun(run)
    ensures runs[0].universe == d.universe
  {
    forall run | run in runs ensures Population(run) == d.population && ValidPredictionRun(run) {
      assert PublishedFrom(run, d);
    }
    assert PublishedFrom(runs[0], d);
  }

  /** From one dataset to a settled decision: publish the runs, project, assess, bundle and settle; no stage refuses the
      one before. */
  lemma DailyLoopSettles(d: Dataset, b: Bundle, topK: int, provider: ProviderResult, session: int)
    requires ValidScope(b) && b.published && b.report.status != DataBlocked
    requires b.universe.Some? && b.eligibility.Some? && b.snapshot.Some? && b.definitions != []
    requires b.universe.value.universe == d.universe
    requires b.eligibility.value.sourceDataset == b.universe.value.sourceDataset
    requires ValidSnapshot(b.snapshot.value) && ProducedFrom(b, d, topK) && ValidProviderResult(provider)
    ensures Settleable(b, provider)
    ensures AllSame(Populations(b.runs)) && RecommendsWithin(b.recommendations, Population(b.runs[0]))
  {
    PublishedCovers(b.runs, d);
    PublishedIsProjectable(b.runs, d, b.snapshot.value, topK);
    PipelineIsAccepted(b, topK);
    ProjectedDecisionSettles(b, topK, d.population);
  }
}
