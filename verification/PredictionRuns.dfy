/** Published prediction runs. A run's content hash is modelled by the run itself: two runs have the same identity
    exactly when they have the same content. */
module PredictionRuns {
  import opened Wrappers
  import opened FiniteSums
  import opened Ordering
  import opened CrossSectionalRanking
  import opened TopK
  import opened CandidateRanking
  import opened CompositeRanking

  datatype PredictionRun = PredictionRun(
    model: int, target: int, universe: int, decisionTime: int, features: seq<int>, exploratory: bool,
    predictions: seq<Prediction>, rejections: seq<Rejection>, population: nat)

  ghost predicate ScoresDescend(ps: seq<Prediction>) {
    forall i, j | 0 <= i < j < |ps| :: ps[i].score >= ps[j].score
  }

  ghost predicate SymbolsAscend(rs: seq<Rejection>) {
    forall i, j | 0 <= i < j < |rs| :: rs[i].symbol <= rs[j].symbol
  }

  /** The checks of the run's constructor. */
  ghost predicate ValidPredictionRun(run: PredictionRun) {
    && run.features != [] && Distinct(run.features)
    && |run.predictions| + |run.rejections| == run.population
    && ScoresDescend(run.predictions)
    && RankMap(run.predictions) == Ranks(ScoreMap(run.predictions), true)
    && SymbolsAscend(run.rejections)
    && (forall r | r in run.rejections :: r.feature in run.features)
    && Distinct(PredictionSymbols(run.predictions) + RejectionSymbols(run.rejections))
  }

  // ---- what a valid run says about each prediction ----

  lemma {:induction false} MapsAtSymbol(ps: seq<Prediction>, i: nat)
    requires Distinct(PredictionSymbols(ps)) && i < |ps|
    ensures ps[i].symbol in ScoreMap(ps) && ScoreMap(ps)[ps[i].symbol] == ps[i].score
    ensures ps[i].symbol in RankMap(ps) && RankMap(ps)[ps[i].symbol] == ps[i].rank
    decreases |ps|
  {
    var symbols := PredictionSymbols(ps);
    if i < |ps| - 1 {
      var init := ps[..|ps| - 1];
      assert PredictionSymbols(init) == symbols[..|ps| - 1];
      assert symbols[i] != symbols[|ps| - 1];
      MapsAtSymbol(init, i);
    }
  }

  lemma DistinctPrefix<T>(a: seq<T>, b: seq<T>)
    requires Distinct(a + b)
    ensures Distinct(a)
  {
    forall i, j | 0 <= i < j < |a| ensures a[i] != a[j] {
      assert (a + b)[i] == a[i] && (a + b)[j] == a[j];
    }
  }

  /** Ranks compare exactly as scores do, the other way round. */
  lemma RanksFollowScores(run: PredictionRun, i: nat, j: nat)
    requires ValidPredictionRun(run) && i < |run.predictions| && j < |run.predictions|
    ensures run.predictions[i].rank < run.predictions[j].rank <==> run.predictions[i].score > run.predictions[j].score
    ensures run.predictions[i].rank == run.predictions[j].rank <==> run.predictions[i].score == run.predictions[j].score
    ensures run.predictions[i].rank >= 1
  {
    var ps := run.predictions;
    DistinctPrefix(PredictionSymbols(ps), RejectionSymbols(run.rejections));
    MapsAtSymbol(ps, i);
    MapsAtSymbol(ps, j);
    var scores := ScoreMap(ps);
    assert ps[i].rank == RankOf(scores, ps[i].symbol, true) && ps[j].rank == RankOf(scores, ps[j].symbol, true);
    BetterGrows(scores, ps[i].symbol, ps[j].symbol, true);
  }

  ghost predicate TiesInSymbolOrder(ps: seq<Prediction>) {
    forall i, j | 0 <= i < j < |ps| && ps[i].score == ps[j].score :: ps[i].symbol < ps[j].symbol
  }

  predicate BeforeInRun(p: Prediction, q: Prediction) {
    p.rank < q.rank || (p.rank == q.rank && p.symbol < q.symbol)
  }

  ghost predicate RankSymbolOrder(ps: seq<Prediction>) {
    forall i, j | 0 <= i < j < |ps| :: BeforeInRun(ps[i], ps[j])
  }

  /** A valid run is strictly increasing in (rank, symbol) exactly when its ties are listed by symbol; the constructor
      does not ask for that. */
  lemma RankSymbolOrderIff(run: PredictionRun)
    requires ValidPredictionRun(run)
    ensures RankSymbolOrder(run.predictions) <==> TiesInSymbolOrder(run.predictions)
  {
    var ps := run.predictions;
    if RankSymbolOrder(ps) {
      forall i, j | 0 <= i < j < |ps| && ps[i].score == ps[j].score ensures ps[i].symbol < ps[j].symbol {
        RanksFollowScores(run, i, j);
        assert BeforeInRun(ps[i], ps[j]);
      }
    }
    if TiesInSymbolOrder(ps) {
      forall i, j | 0 <= i < j < |ps| ensures BeforeInRun(ps[i], ps[j]) {
        RanksFollowScores(run, i, j);
      }
    }
  }

  // ---- what the rankers publish ----

  lemma RankedPredictionsDescend(scores: map<int, real>)
    ensures ScoresDescend(PredictionsOf(scores)) && TiesInSymbolOrder(PredictionsOf(scores))
  {
    RankedKeysRank(scores, true);
    RankedKeysMembers(scores, true);
    var r, ps := RankedKeys(scores, true), PredictionsOf(scores);
    forall i, j | 0 <= i < j < |ps|
      ensures ps[i].score >= ps[j].score && (ps[i].score == ps[j].score ==> ps[i].symbol < ps[j].symbol)
    {
      assert InOrder(scores, r[i], r[j], true);
      assert ps[i] == PredictionOf(scores, r[i]) && ps[j] == PredictionOf(scores, r[j]);
    }
  }

  function RunOf(d: Dataset, model: int, features: seq<int>, predictions: seq<Prediction>,
                 rejections: seq<Rejection>): PredictionRun {
    PredictionRun(model, d.target, d.universe, d.decisionTime, features, true, predictions, rejections, |d.population|)
  }

  /** Whatever a ranker scores and rejects, publishing it never fails, and ties come out by symbol. */
  lemma RankingPublishes(d: Dataset, model: int, features: seq<int>, scores: map<int, real>, rejections: seq<Rejection>)
    requires ValidDataset(d) && Accounts(d.population, scores.Keys, rejections)
    requires features != [] && Distinct(features) && forall r | r in rejections :: r.feature in features
    ensures var run := RunOf(d, model, features, PredictionsOf(scores), rejections);
      ValidPredictionRun(run) && RankSymbolOrder(run.predictions)
  {
    var run := RunOf(d, model, features, PredictionsOf(scores), rejections);
    AccountedRun(d, scores, rejections);
    RankedPredictionsDescend(scores);
    IncreasingRejections(rejections);
    AscendingRejections(rejections);
    RankSymbolOrderIff(run);
  }

  lemma AscendingRejections(rs: seq<Rejection>)
    requires Increasing(RejectionSymbols(rs))
    ensures SymbolsAscend(rs)
  {
    var symbols := RejectionSymbols(rs);
    assert forall i | 0 <= i < |rs| :: symbols[i] == rs[i].symbol;
  }

  lemma {:induction false} FeatureRejectionsName(rows: seq<Row>, feature: int)
    requires forall r | r in rows :: feature in r.cells
    ensures forall r | r in FeatureRejections(rows, feature) :: r.feature == feature
  {
    if rows != [] {
      FeatureRejectionsName(rows[..|rows| - 1], feature);
    }
  }

  lemma {:induction false} FaultIsComponent(cells: map<int, Cell>, cs: seq<Component>)
    ensures FirstFault(cells, cs).Some? ==> FirstFault(cells, cs).value in Features(cs)
  {
    if cs != [] && NumberAt(cells, cs[0].feature).Some? {
      FaultIsComponent(cells, cs[1..]);
      assert Features(cs) == [cs[0].feature] + Features(cs[1..]);
    } else if cs != [] {
      assert Features(cs)[0] == cs[0].feature;
    }
  }

  lemma {:induction false} CompositeRejectionsName(rows: seq<Row>, cs: seq<Component>)
    ensures forall r | r in CompositeRejections(rows, cs) :: r.feature in Features(cs)
  {
    if rows != [] {
      CompositeRejectionsName(rows[..|rows| - 1], cs);
      FaultIsComponent(rows[|rows| - 1].cells, cs);
    }
  }

  /** The single-feature run of a dataset. */
  ghost function FeatureRun(d: Dataset, model: int, feature: int): PredictionRun
    requires forall r | r in d.rows :: feature in r.cells
  {
    RunOf(d, model, [feature], PredictionsOf(FeatureScores(d.rows, feature)), FeatureRejections(d.rows, feature))
  }

  ghost function CompositePredictionRun(d: Dataset, model: int, cs: seq<Component>): PredictionRun
    requires ValidSpec(cs)
  {
    var run := Composite(d, cs);
    RunOf(d, model, run.components, run.base.predictions, run.base.rejections)
  }

  lemma FeatureRunPublishes(d: Dataset, model: int, feature: int)
    requires ValidDataset(d) && feature in d.features
    ensures forall r | r in d.rows :: feature in r.cells
    ensures ValidPredictionRun(FeatureRun(d, model, feature))
    ensures RankSymbolOrder(FeatureRun(d, model, feature).predictions)
  {
    RowsKnowFeature(d, feature);
    FeatureAccounts(d.rows, feature);
    FeatureRejectionsName(d.rows, feature);
    RankingPublishes(d, model, [feature], FeatureScores(d.rows, feature), FeatureRejections(d.rows, feature));
  }

  lemma CompositeRunPublishes(d: Dataset, model: int, cs: seq<Component>)
    requires ValidDataset(d) && ValidSpec(cs)
    ensures ValidPredictionRun(CompositePredictionRun(d, model, cs))
    ensures RankSymbolOrder(CompositePredictionRun(d, model, cs).predictions)
  {
    OrderedSpec(cs);
    var ordered := OrderedComponents(cs);
    CompositeAccounts(d.rows, ordered);
    CompositeRejectionsName(d.rows, ordered);
    var scores := CompositeScores(d.rows, ordered);
    assert scores.Keys == CompleteValues(d.rows, ordered).Keys;
    RankingPublishes(d, model, Features(ordered), scores, CompositeRejections(d.rows, ordered));
  }

  /** What the rest of the pipeline may rely on: valid runs whose ties are listed by symbol. */
  ghost predicate Published(run: PredictionRun) {
    ValidPredictionRun(run) && RankSymbolOrder(run.predictions)
  }

  method PublishFeatureRun(d: Dataset, model: int, feature: int) returns (r: Result<PredictionRun, RankingError>)
    requires ValidDataset(d)
    ensures r.Ok? <==> feature in d.features
    ensures r.Ok? ==>
      (forall x | x in d.rows :: feature in x.cells) && r.value == FeatureRun(d, model, feature) && Published(r.value)
  {
    var ranking := RankCandidatesByFeature(d, feature);
    match ranking {
      case Err(e) => return Err(e);
      case Ok(run) =>
        FeatureRunPublishes(d, model, feature);
        return Ok(RunOf(d, model, [feature], run.predictions, run.rejections));
    }
  }

  method PublishCompositeRun(d: Dataset, model: int, cs: seq<Component>)
    returns (r: Result<PredictionRun, RankingError>)
    requires ValidDataset(d) && ValidSpec(cs)
    ensures r.Ok? <==> FeaturesPresent(d, cs)
    ensures r.Ok? ==> r.value == CompositePredictionRun(d, model, cs) && Published(r.value)
  {
    var ranking := RankCandidatesByTransparentComposite(d, cs);
    match ranking {
      case Err(_) => return Err(FeatureNotPresent);
      case Ok(run) =>
        CompositeRunPublishes(d, model, cs);
        return Ok(RunOf(d, model, run.components, run.base.predictions, run.base.rejections));
    }
  }

  // ---- the two frozen daily models ----

  const B0_MODEL := 0
  const B1_MODEL := 1
  const DAILY_MODELS: set<int> := {B0_MODEL, B1_MODEL}

  const MOMENTUM := 0
  const LIQUIDITY := 1
  const VOLATILITY := 2
  const FROZEN_FEATURES: seq<int> := [MOMENTUM, LIQUIDITY, VOLATILITY]

  const BALANCED: seq<Component> :=
    [Component(MOMENTUM, true, 0.5), Component(LIQUIDITY, true, 0.3), Component(VOLATILITY, false, 0.2)]

  /** The eligibility code of exploratory data. */
  const EXPLORATORY := 1

  /** What a model's configuration hash is computed from. */
  datatype Configuration = SingleFeature(model: int, feature: int) | CompositeOf(model: int, components: seq<Component>)

  datatype ModelDefinition = ModelDefinition(
    model: int, candidateRole: bool, target: int, dailyUniverse: bool, features: seq<int>, parameters: Configuration,
    exploratory: bool)

  datatype PublishError = NotExploratory | SelectionOutsideDaily | FrozenFeatureMissing | DefinitionsIncomplete
    | ProtocolMissing | DefinitionMismatch | TooFewModels | RankingFailed(ranking: RankingError)

  function ConfigurationOf(model: int): Configuration {
    if model == B0_MODEL then SingleFeature(B0_MODEL, MOMENTUM) else CompositeOf(B1_MODEL, BALANCED)
  }

  function FeaturesOf(model: int): seq<int> {
    if model == B0_MODEL then [MOMENTUM] else Features(OrderedComponents(BALANCED))
  }

  predicate Defines(definition: ModelDefinition, model: int, d: Dataset) {
    && definition.model == model && definition.candidateRole && definition.target == d.target
    && definition.dailyUniverse
    && definition.features == FeaturesOf(model) && definition.parameters == ConfigurationOf(model)
    && definition.exploratory
  }

  /** Everything the publication itself asks for; it admits a selection of one model. */
  ghost predicate Admitted(d: Dataset, definitions: map<int, ModelDefinition>, selected: set<int>,
                           protocols: set<int>) {
    && d.eligibility == EXPLORATORY && {} != selected <= DAILY_MODELS
    && Elements(FROZEN_FEATURES) <= Elements(d.features)
    && definitions.Keys == DAILY_MODELS && selected <= protocols
    && forall m | m in selected :: Defines(definitions[m], m, d)
  }

  /** But the two-model slice behind it runs nothing less than both. */
  ghost predicate Publishable(d: Dataset, definitions: map<int, ModelDefinition>, selected: set<int>,
                              protocols: set<int>) {
    Admitted(d, definitions, selected, protocols) && selected == DAILY_MODELS
  }

  /** Two runs of one dataset: the single-feature baseline and the composite. */
  ghost function DailyRuns(d: Dataset): seq<PredictionRun>
    requires ValidDataset(d) && Elements(FROZEN_FEATURES) <= Elements(d.features)
  {
    FrozenPresent(d);
    RowsKnowFeature(d, MOMENTUM);
    BalancedIsValid();
    [FeatureRun(d, B0_MODEL, MOMENTUM), CompositePredictionRun(d, B1_MODEL, BALANCED)]
  }

  lemma FrozenPresent(d: Dataset)
    requires Elements(FROZEN_FEATURES) <= Elements(d.features)
    ensures MOMENTUM in d.features && FeaturesPresent(d, BALANCED)
  {
    assert FROZEN_FEATURES[0] in Elements(FROZEN_FEATURES) && FROZEN_FEATURES[1] in Elements(FROZEN_FEATURES);
    assert FROZEN_FEATURES[2] in Elements(FROZEN_FEATURES);
  }

  lemma BalancedIsValid()
    ensures ValidSpec(BALANCED)
  {
    assert Features(BALANCED) == FROZEN_FEATURES;
  }

  method CheckDefinitions(d: Dataset, definitions: map<int, ModelDefinition>, selected: set<int>) returns (ok: bool)
    requires selected <= definitions.Keys
    ensures ok <==> forall m | m in selected :: Defines(definitions[m], m, d)
  {
    ok := forall m | m in selected :: Defines(definitions[m], m, d);
  }

  method CheckPublishable(d: Dataset, definitions: map<int, ModelDefinition>, selected: set<int>, protocols: set<int>)
    returns (error: Option<PublishError>)
    ensures error.None? <==> Publishable(d, definitions, selected, protocols)
    ensures error == Some(TooFewModels) <==>
            Admitted(d, definitions, selected, protocols) && selected != DAILY_MODELS
  {
    if d.eligibility != EXPLORATORY {
      return Some(NotExploratory);
    }
    if selected == {} || !(selected <= DAILY_MODELS) {
      return Some(SelectionOutsideDaily);
    }
    if !(Elements(FROZEN_FEATURES) <= Elements(d.features)) {
      return Some(FrozenFeatureMissing);
    }
    if definitions.Keys != DAILY_MODELS {
      return Some(DefinitionsIncomplete);
    }
    if !(selected <= protocols) {
      return Some(ProtocolMissing);
    }
    var defined := CheckDefinitions(d, definitions, selected);
    if !defined {
      return Some(DefinitionMismatch);
    }
    BothOrFewer(selected);
    if |selected| < 2 {
      return Some(TooFewModels);
    }
    return None;
  }

  lemma BothOrFewer(selected: set<int>)
    requires selected <= DAILY_MODELS
    ensures |selected| < 2 <==> selected != DAILY_MODELS
  {
    if selected != DAILY_MODELS {
      var missing :| missing in DAILY_MODELS && missing !in selected;
      assert selected <= DAILY_MODELS - {missing};
      SubsetCardinality(selected, DAILY_MODELS - {missing});
    }
  }

  lemma PairPublished(a: PredictionRun, b: PredictionRun)
    requires Published(a) && Published(b)
    ensures forall run | run in [a, b] :: Published(run)
  {
  }

  lemma MomentumRunPublishes(d: Dataset)
    requires ValidDataset(d) && MOMENTUM in d.features
    ensures forall r | r in d.rows :: MOMENTUM in r.cells
    ensures Published(FeatureRun(d, B0_MODEL, MOMENTUM))
  {
    FeatureRunPublishes(d, B0_MODEL, MOMENTUM);
  }

  lemma BalancedRunPublishes(d: Dataset)
    requires ValidDataset(d) && ValidSpec(BALANCED)
    ensures Published(CompositePredictionRun(d, B1_MODEL, BALANCED))
  {
    CompositeRunPublishes(d, B1_MODEL, BALANCED);
  }

  lemma DailyRunsPublish(d: Dataset)
    requires ValidDataset(d) && Elements(FROZEN_FEATURES) <= Elements(d.features)
    ensures forall run | run in DailyRuns(d) :: Published(run)
  {
    FrozenPresent(d);
    BalancedIsValid();
    MomentumRunPublishes(d);
    BalancedRunPublishes(d);
    PairPublished(FeatureRun(d, B0_MODEL, MOMENTUM), CompositePredictionRun(d, B1_MODEL, BALANCED));
  }

  method RankBoth(d: Dataset) returns (r: Result<seq<PredictionRun>, PublishError>)
    requires ValidDataset(d) && Elements(FROZEN_FEATURES) <= Elements(d.features)
    ensures r == Ok(DailyRuns(d))
  {
    FrozenPresent(d);
    BalancedIsValid();
    var zero := PublishFeatureRun(d, B0_MODEL, MOMENTUM);
    match zero {
      case Err(e) => return Err(RankingFailed(e));
      case Ok(first) =>
        var one := PublishCompositeRun(d, B1_MODEL, BALANCED);
        match one {
          case Err(e) => return Err(RankingFailed(e));
          case Ok(second) => return Ok([first, second]);
        }
    }
  }

  /** Once the scope is right, no check of a ranker or of a run's constructor can fire. */
  method PublishRuns(d: Dataset, definitions: map<int, ModelDefinition>, selected: set<int>, protocols: set<int>)
    returns (r: Result<seq<PredictionRun>, PublishError>)
    requires ValidDataset(d)
    ensures r.Ok? <==> Publishable(d, definitions, selected, protocols)
    ensures r.Ok? ==> r.value == DailyRuns(d) && forall run | run in r.value :: Published(run)
    ensures r.Err? && r.error == TooFewModels <==>
            Admitted(d, definitions, selected, protocols) && selected != DAILY_MODELS
  {
    var error := CheckPublishable(d, definitions, selected, protocols);
    if error.Some? {
      return Err(error.value);
    }
    DailyRunsPublish(d);
    r := RankBoth(d);
  }
}
