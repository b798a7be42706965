/** One day of the loop, run from end to end: publish the two runs, project the recommendations, assess them, bundle
    the decision; then settle it against a later session, publish the review package and read it back. */
module DailyLoop {
  import opened Wrappers
  import opened Ordering
  import opened BarHistory
  import opened CandidateRanking
  import opened PredictionRuns
  import opened Recommendations
  import opened EntryPlumbing
  import opened DecisionBundle
  import opened OutcomeSettlement
  import opened Settlement
  import opened ReviewJson
  import opened ReviewPackage

  /** What the day's earlier stages hand over. */
  datatype DayInputs = DayInputs(
    dataset: Dataset, definitions: map<int, ModelDefinition>, selected: set<int>, protocols: set<int>,
    manifest: Manifest, report: QualityReport, universe: Universe, eligibility: Eligibility, snapshot: Snapshot,
    features: seq<int>, materializations: seq<int>, topK: int)

  datatype DayError = PublicationRefused | ProjectionRefused | AssessmentRefused | BundleRefused | OutcomeNotReady
    | SettlementFailed | PublishedReviewRefused

  /** The identity every run of this manifest has. */
  function IdentityOf(m: Manifest): RunIdentity {
    RunIdentity(m.id, SortedSeq(Elements(m.sourceHashes)))
  }

  function EvidenceOf(day: DayInputs): Evidence {
    Evidence(day.manifest, day.report, day.eligibility, day.snapshot)
  }

  /** The daily target, unless nobody is ranked. */
  ghost predicate TargetFits(day: DayInputs)
    requires ValidDataset(day.dataset) && Publishable(day.dataset, day.definitions, day.selected, day.protocols)
  {
    day.dataset.target == NEXT_SESSION_1030
    || forall run | run in DailyRuns(day.dataset) :: Selected(run.predictions, day.topK) == []
  }

  /** The inputs belong together and are complete enough to decide on. */
  ghost predicate InputsMatch(day: DayInputs)
    requires ValidDataset(day.dataset)
  {
    && Publishable(day.dataset, day.definitions, day.selected, day.protocols) && day.topK >= 1 && TargetFits(day)
    && day.report.manifest == day.manifest.id == day.snapshot.manifest && day.report.status != DataBlocked
    && day.snapshot.decisionTime == day.manifest.decisionTime == day.dataset.decisionTime
    && day.universe.universe == day.dataset.universe && day.eligibility.sourceDataset == day.universe.sourceDataset
    && day.features == day.materializations && day.features != [] && Distinct(day.features)
  }

  /** The bundle carries what the stages make of the inputs. */
  ghost predicate DecidedFrom(b: Bundle, day: DayInputs)
    requires ValidDataset(day.dataset) && Publishable(day.dataset, day.definitions, day.selected, day.protocols)
  {
    && b.published && b.identity == IdentityOf(day.manifest) && b.manifest == day.manifest && b.report == day.report
    && b.universe == Some(day.universe) && b.eligibility == Some(day.eligibility) && b.snapshot == Some(day.snapshot)
    && b.definitions == day.features && b.materializations == day.materializations
    && b.runs == DailyRuns(day.dataset)
    && b.recommendations == ProjectRuns(b.runs, day.snapshot, day.report, day.topK)
    && b.assessments == AssessAll(b.recommendations, EvidenceOf(day))
  }

  // ---- facts about the two runs ----

  lemma RunsOverDataset(d: Dataset)
    requires ValidDataset(d) && Elements(FROZEN_FEATURES) <= Elements(d.features)
    ensures PublishedOver(DailyRuns(d), d)
    ensures forall run | run in DailyRuns(d) :: ValidPredictionRun(run) && Population(run) == d.population
    ensures DailyRuns(d)[0].universe == d.universe
  {
    FrozenPresent(d);
    BalancedIsValid();
    DailyRunsArePublished(d, B0_MODEL, MOMENTUM, B1_MODEL, BALANCED);
    PublishedCovers(DailyRuns(d), d);
  }

  lemma ScopeIff(day: DayInputs)
    requires ValidDataset(day.dataset) && Publishable(day.dataset, day.definitions, day.selected, day.protocols)
    ensures Projectable(DailyRuns(day.dataset), day.snapshot, day.topK)
            <==> day.snapshot.decisionTime == day.dataset.decisionTime && TargetFits(day)
  {
    var runs := DailyRuns(day.dataset);
    RunsOverDataset(day.dataset);
    forall run | run in runs
      ensures run.decisionTime == day.dataset.decisionTime && run.exploratory && run.target == day.dataset.target
    {
      assert PublishedFrom(run, day.dataset);
    }
    if Projectable(runs, day.snapshot, day.topK) {
      assert InScope(runs[0], day.snapshot, day.topK);
      if day.dataset.target != NEXT_SESSION_1030 {
        forall run | run in runs ensures Selected(run.predictions, day.topK) == [] {
          assert InScope(run, day.snapshot, day.topK);
        }
      }
    }
  }

  lemma {:induction false} ProjectedIsBound(runs: seq<PredictionRun>, s: Snapshot, report: QualityReport, topK: int)
    ensures forall rec | rec in ProjectRuns(runs, s, report, topK) :: Bound(rec, runs, s)
  {
    forall rec | rec in ProjectRuns(runs, s, report, topK) ensures Bound(rec, runs, s) {
      ProjectedMembers(runs, s, report, topK, rec);
    }
  }

  lemma OrderedInputsBundle(b: Bundle, day: DayInputs)
    requires ValidDataset(day.dataset) && InputsMatch(day) && DecidedFrom(b, day)
    ensures ValidBundle(b)
  {
    RunsOverDataset(day.dataset);
    ScopeIff(day);
    DailyRunsPublish(day.dataset);
    PipelineIsAccepted(b, day.topK);
  }

  lemma BundleNeedsOrder(b: Bundle, day: DayInputs)
    requires ValidDataset(day.dataset) && Publishable(day.dataset, day.definitions, day.selected, day.protocols)
    requires TargetFits(day) && day.snapshot.decisionTime == day.dataset.decisionTime && day.topK >= 1
    requires DecidedFrom(b, day) && ValidScope(b) && ValidPublished(b)
    ensures InputsMatch(day)
  {
    RunsOverDataset(day.dataset);
    assert b.runs[0].universe == day.dataset.universe;
  }

  /** Given projectable runs, the bundle's constructor accepts exactly the inputs that belong together. */
  lemma BundleIff(b: Bundle, day: DayInputs)
    requires ValidDataset(day.dataset) && Publishable(day.dataset, day.definitions, day.selected, day.protocols)
    requires Projectable(DailyRuns(day.dataset), day.snapshot, day.topK) && day.topK >= 1
    requires DecidedFrom(b, day)
    ensures ValidBundle(b) <==> InputsMatch(day)
  {
    ScopeIff(day);
    if InputsMatch(day) {
      OrderedInputsBundle(b, day);
    }
    if ValidBundle(b) {
      BundleNeedsOrder(b, day);
    }
  }

  // ---- deciding ----

  /** The decision of a day is made exactly when its inputs are in order; nothing a stage produces is refused by the
      next. */
  method DecideDay(day: DayInputs) returns (r: Result<Bundle, DayError>)
    requires ValidDataset(day.dataset)
    ensures r.Ok? <==> InputsMatch(day)
    ensures r.Ok? ==> ValidBundle(r.value) && DecidedFrom(r.value, day)
  {
    var runs := PublishRuns(day.dataset, day.definitions, day.selected, day.protocols);
    if runs.Err? {
      return Err(PublicationRefused);
    }
    RunsOverDataset(day.dataset);
    ScopeIff(day);
    var recommendations := ProjectCandidateRecommendations(runs.value, day.snapshot, day.report, day.topK);
    if recommendations.Err? {
      return Err(ProjectionRefused);
    }
    if day.report.status == DataBlocked {
      return Err(BundleRefused);
    }
    ProjectedIsBound(runs.value, day.snapshot, day.report, day.topK);
    var assessments := AssessEntryPlumbing(recommendations.value, runs.value, EvidenceOf(day));
    if assessments.Err? {
      return Err(AssessmentRefused);
    }
    var b := Bundle(true, IdentityOf(day.manifest), day.manifest, day.report, Some(day.universe), Some(day.eligibility),
                    Some(day.snapshot), day.features, day.materializations, runs.value, recommendations.value,
                    assessments.value);
    BundleIff(b, day);
    var error := CheckBundle(b);
    if error.Some? {
      return Err(BundleRefused);
    }
    return Ok(b);
  }

  // ---- the next session ----

  /** The later days of which the provider has a bar stamped half past ten. */
  function NextSessions(decisionTime: int, p: ProviderResult): set<int> {
    set i | 0 <= i < |p.bars| && Day(p.bars[i].time) > Day(decisionTime) && Clock(p.bars[i].time) == HALF_PAST_TEN
      :: Day(p.bars[i].time)
  }

  ghost predicate IsNextSession(session: int, decisionTime: int, p: ProviderResult) {
    session in NextSessions(decisionTime, p) && forall d | d in NextSessions(decisionTime, p) :: session <= d
  }

  method NextSession(decisionTime: int, p: ProviderResult) returns (r: Result<int, DayError>)
    ensures r.Ok? <==> NextSessions(decisionTime, p) != {}
    ensures r.Ok? ==> IsNextSession(r.value, decisionTime, p)
    ensures r.Err? ==> r.error == OutcomeNotReady
  {
    var days := SortedSeq(NextSessions(decisionTime, p));
    if days == [] {
      return Err(OutcomeNotReady);
    }
    assert days[0] in days;
    forall d | d in days ensures days[0] <= d {
      var i :| 0 <= i < |days| && days[i] == d;
    }
    return Ok(days[0]);
  }

  // ---- publishing or verifying ----

  /** Nothing is published under the settlement's name, or what is published can be loaded. */
  ghost predicate Fits(packages: map<Text, Package>, s: SettledDecision) {
    ArtifactName(s) in packages ==> Load(ArtifactName(s), packages[ArtifactName(s)]).Ok?
  }

  ghost function ReviewResult(packages: map<Text, Package>, s: SettledDecision): Result<SettledDecision, DayError> {
    if Fits(packages, s) then Ok(s) else Err(PublishedReviewRefused)
  }

  /** A package is added unless its name is taken. */
  ghost function AfterReview(packages: map<Text, Package>, s: SettledDecision): map<Text, Package> {
    if ArtifactName(s) in packages then packages else packages[ArtifactName(s) := PackageOf(s)]
  }

  /** The review's outcome: s returned and in the store, or an error because of what was there. */
  ghost predicate Reviewed(r: Result<SettledDecision, DayError>, s: SettledDecision, before: map<Text, Package>,
                           after: map<Text, Package>) {
    r == ReviewResult(before, s) && after == AfterReview(before, s)
  }

  /** A settlement returned is in the store and reads back. */
  lemma ReturnedIsStored(r: Result<SettledDecision, DayError>, s: SettledDecision, before: map<Text, Package>,
                         after: map<Text, Package>)
    requires Writable(s) && Reviewed(r, s, before, after)
    ensures r.Ok? ==> ReadsBack(after, r.value)
  {
    LoadInvertsPublish(s);
    NameDecides(s, after[ArtifactName(s)]);
  }

  ghost predicate ReadsBack(packages: map<Text, Package>, s: SettledDecision) {
    ArtifactName(s) in packages && Load(ArtifactName(s), packages[ArtifactName(s)]) == Ok(s)
  }

  /** The name of a package decides the settlement it can be read as. */
  lemma NameDecides(s: SettledDecision, p: Package)
    ensures Load(ArtifactName(s), p).Ok? ==> Load(ArtifactName(s), p) == Ok(s)
  {
  }

  /** Publishes the review package; a package of that name must read back as the settlement, and stays as it is. */
  method PublishOrVerify(s: SettledDecision, store: ArtifactStore) returns (r: Result<SettledDecision, DayError>)
    requires Writable(s)
    modifies store
    ensures Reviewed(r, s, old(store.packages), store.packages)
  {
    var name := ArtifactName(s);
    LoadInvertsPublish(s);
    NameDecides(s, AfterReview(store.packages, s)[name]);
    var published := store.Publish(s);
    var loaded := LoadVerified(name, store.packages[name]);
    if loaded.Err? || loaded.value != s {
      return Err(PublishedReviewRefused);
    }
    return Ok(s);
  }

  /** Publishing again verifies what is there: the same result, and nothing changes. */
  lemma RerunVerifies(packages: map<Text, Package>, s: SettledDecision)
    requires Writable(s)
    ensures ReviewResult(AfterReview(packages, s), s) == ReviewResult(packages, s)
    ensures AfterReview(AfterReview(packages, s), s) == AfterReview(packages, s)
  {
    LoadInvertsPublish(s);
  }

  // ---- settling ----

  lemma DecisionSettles(b: Bundle, day: DayInputs, provider: ProviderResult)
    requires ValidDataset(day.dataset) && Publishable(day.dataset, day.definitions, day.selected, day.protocols)
    requires ValidBundle(b) && DecidedFrom(b, day) && ValidSnapshot(day.snapshot) && ValidProviderResult(provider)
    ensures Settleable(b, provider) && b.runs != []
    ensures AllSame(Populations(b.runs)) && RecommendsWithin(b.recommendations, Population(b.runs[0]))
  {
    RunsOverDataset(day.dataset);
    ProjectedDecisionSettles(b, day.topK, day.dataset.population);
  }

  /** s settles the decision against the first later session with a 10:30 bar. */
  ghost predicate SettlesNext(s: SettledDecision, b: Bundle, archive: int, provider: ProviderResult) {
    && b.runs != [] && b.snapshot.Some? && ValidSnapshot(b.snapshot.value)
    && IsNextSession(s.session, b.manifest.decisionTime, provider)
    && IsSettlementOf(s, b, archive, provider, s.session)
  }

  /** A decision settles whenever the provider has a later 10:30 bar; its review is published, or the published one is
      verified. */
  method SettleDay(b: Bundle, ghost day: DayInputs, provider: ProviderResult, archive: int, store: ArtifactStore)
    returns (r: Result<SettledDecision, DayError>)
    requires ValidDataset(day.dataset) && Publishable(day.dataset, day.definitions, day.selected, day.protocols)
    requires ValidBundle(b) && DecidedFrom(b, day) && ValidSnapshot(day.snapshot) && ValidProviderResult(provider)
    modifies store
    ensures NextSessions(b.manifest.decisionTime, provider) == {} ==>
      r == Err(OutcomeNotReady) && store.packages == old(store.packages)
    ensures NextSessions(b.manifest.decisionTime, provider) != {} ==>
      exists s :: SettlesNext(s, b, archive, provider) && Writable(s)
               && Reviewed(r, s, old(store.packages), store.packages)
  {
    var session := NextSession(b.manifest.decisionTime, provider);
    if session.Err? {
      return Err(session.error);
    }
    DecisionSettles(b, day, provider);
    var settled := SettleOutcomes(b, b, provider, archive, session.value);
    match settled {
      case Err(_) => return Err(SettlementFailed);
      case Ok(s) =>
        EverySettlementReadsBack(s, b, archive, provider, session.value);
        assert SettlesNext(s, b, archive, provider);
        r := PublishOrVerify(s, store);
    }
  }

  /** What the day's inputs and the next session's bars settle to. */
  ghost predicate DaySettlement(s: SettledDecision, day: DayInputs, archive: int, provider: ProviderResult)
    requires ValidDataset(day.dataset) && Publishable(day.dataset, day.definitions, day.selected, day.protocols)
  {
    DecidedFrom(s.decision, day) && SettlesNext(s, s.decision, archive, provider) && Writable(s)
  }

  lemma IsDaySettlement(s: SettledDecision, b: Bundle, day: DayInputs, archive: int, provider: ProviderResult)
    requires ValidDataset(day.dataset) && Publishable(day.dataset, day.definitions, day.selected, day.protocols)
    requires DecidedFrom(b, day) && SettlesNext(s, b, archive, provider) && Writable(s)
    ensures DaySettlement(s, day, archive, provider)
  {
  }

  lemma SameCarried(a: seq<RecommendationOutcome>, b: seq<RecommendationOutcome>, decision: Bundle,
                    recs: seq<Recommendation>, population: seq<PopulationOutcome>)
    requires CarriesPopulation(a, decision, recs, population) && CarriesPopulation(b, decision, recs, population)
    ensures a == b
  {
    forall i | 0 <= i < |recs| ensures a[i] == b[i] {
      assert Carries(a[i], decision, recs[i], population) && Carries(b[i], decision, recs[i], population);
    }
  }

  /** Inputs, bars and archive determine the settlement. */
  lemma DaySettlementUnique(s: SettledDecision, t: SettledDecision, day: DayInputs, archive: int,
                            provider: ProviderResult)
    requires ValidDataset(day.dataset) && Publishable(day.dataset, day.definitions, day.selected, day.protocols)
    requires DaySettlement(s, day, archive, provider) && DaySettlement(t, day, archive, provider)
    ensures s == t
  {
    assert s.decision == t.decision;
    assert s.session == t.session;
    SameCarried(s.outcomes, t.outcomes, s.decision, s.decision.recommendations, s.population);
  }

  /** The whole day: with inputs in order and a later session, its one settlement is published and reads back, or the
      package published before is verified; otherwise nothing is published. */
  method RunDay(day: DayInputs, provider: ProviderResult, archive: int, store: ArtifactStore)
    returns (r: Result<SettledDecision, DayError>)
    requires ValidDataset(day.dataset) && ValidSnapshot(day.snapshot) && ValidProviderResult(provider)
    modifies store
    ensures InputsMatch(day) && NextSessions(day.manifest.decisionTime, provider) != {} ==>
      exists s :: DaySettlement(s, day, archive, provider) && Reviewed(r, s, old(store.packages), store.packages)
    ensures !InputsMatch(day) || NextSessions(day.manifest.decisionTime, provider) == {} ==>
      r.Err? && store.packages == old(store.packages)
    ensures r.Ok? ==> ReadsBack(store.packages, r.value)
  {
    var decision := DecideDay(day);
    if decision.Err? {
      return Err(decision.error);
    }
    r := SettleDay(decision.value, day, provider, archive, store);
    if NextSessions(day.manifest.decisionTime, provider) != {} {
      ghost var s :| SettlesNext(s, decision.value, archive, provider) && Writable(s)
                  && Reviewed(r, s, old(store.packages), store.packages);
      IsDaySettlement(s, decision.value, day, archive, provider);
      ReturnedIsStored(r, s, old(store.packages), store.packages);
    }
  }
}
