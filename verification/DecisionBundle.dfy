/** The daily decision bundle: the checks of its constructor, and the theorem that what the rankers, the projection
    and the entry gate produce always passes them. */
module DecisionBundle {
  import opened Wrappers
  import opened FiniteSums
  import opened Ordering
  import CrossSectionalRanking
  import opened CandidateRanking
  import opened PredictionRuns
  import opened Recommendations
  import opened EntryPlumbing

  datatype RunIdentity = RunIdentity(manifest: int, sourceHashes: seq<int>)

  datatype Universe = Universe(universe: int, sourceDataset: int)

  datatype Bundle = Bundle(
    published: bool,
    identity: RunIdentity,
    manifest: Manifest,
    report: QualityReport,
    universe: Option<Universe>,
    eligibility: Option<Eligibility>,
    snapshot: Option<Snapshot>,
    definitions: seq<int>,
    materializations: seq<int>,
    runs: seq<PredictionRun>,
    recommendations: seq<Recommendation>,
    assessments: seq<Assessment>)

  datatype BundleError = IdentityMismatch | ReportMismatch | SnapshotScope | FeatureLineage | BlockedCarriesMore
    | EvidenceMissing | UniverseScope | RunsRepeat | RunsNotExploratory | RecommendationsRefused | AssessmentsRefused

  // ---- canonical order ----

  datatype Order = Order(run: int, rank: int, symbol: int)

  predicate Before(a: Order, b: Order) {
    a.run < b.run || (a.run == b.run && (a.rank < b.rank || (a.rank == b.rank && a.symbol < b.symbol)))
  }

  function RunIndex(runs: seq<PredictionRun>, run: PredictionRun): int {
    if runs == [] then -1
    else if runs[|runs| - 1] == run then |runs| - 1
    else RunIndex(runs[..|runs| - 1], run)
  }

  function OrderOf(runs: seq<PredictionRun>, rec: Recommendation): Order {
    Order(RunIndex(runs, rec.run), rec.rank, rec.symbol)
  }

  ghost predicate CanonicalOrder(runs: seq<PredictionRun>, recs: seq<Recommendation>) {
    forall i, j | 0 <= i < j < |recs| :: Before(OrderOf(runs, recs[i]), OrderOf(runs, recs[j]))
  }

  ghost predicate RecommendationsHold(runs: seq<PredictionRun>, s: Snapshot, recs: seq<Recommendation>) {
    && (forall rec | rec in recs :: Bound(rec, runs, s))
    && CanonicalOrder(runs, recs)
  }

  lemma OrderedIsDistinct(runs: seq<PredictionRun>, recs: seq<Recommendation>)
    requires CanonicalOrder(runs, recs)
    ensures |Elements(recs)| == |recs|
  {
    forall i, j | 0 <= i < j < |recs| ensures recs[i] != recs[j] {
      assert Before(OrderOf(runs, recs[i]), OrderOf(runs, recs[j]));
    }
    DistinctCardinality(recs);
  }

  /** One pass over the recommendations: lineage, strictly increasing order, then uniqueness. */
  method CheckRecommendations(runs: seq<PredictionRun>, s: Snapshot, recs: seq<Recommendation>) returns (ok: bool)
    ensures ok <==> RecommendationsHold(runs, s, recs)
  {
    var last: Option<Order> := None;
    var ids: set<Recommendation> := {};
    for i := 0 to |recs|
      invariant forall rec | rec in recs[..i] :: Bound(rec, runs, s)
      invariant CanonicalOrder(runs, recs[..i])
      invariant last == if i == 0 then None else Some(OrderOf(runs, recs[i - 1]))
      invariant ids == Elements(recs[..i])
    {
      assert recs[i] in recs && recs[..i + 1] == recs[..i] + [recs[i]];
      if !Bound(recs[i], runs, s) {
        return false;
      }
      var order := OrderOf(runs, recs[i]);
      if last.Some? && !Before(last.value, order) {
        assert !Before(OrderOf(runs, recs[i - 1]), OrderOf(runs, recs[i]));
        return false;
      }
      ExtendOrder(runs, recs, i);
      last := Some(order);
      ids := ids + {recs[i]};
    }
    assert recs[..|recs|] == recs;
    OrderedIsDistinct(runs, recs);
    return |ids| == |recs|;
  }

  lemma ExtendOrder(runs: seq<PredictionRun>, recs: seq<Recommendation>, i: nat)
    requires i < |recs| && CanonicalOrder(runs, recs[..i])
    requires i > 0 ==> Before(OrderOf(runs, recs[i - 1]), OrderOf(runs, recs[i]))
    ensures CanonicalOrder(runs, recs[..i + 1])
  {
    var longer := recs[..i + 1];
    forall j, k | 0 <= j < k < |longer| ensures Before(OrderOf(runs, longer[j]), OrderOf(runs, longer[k])) {
      if k < i {
        assert longer[j] == recs[..i][j] && longer[k] == recs[..i][k];
      } else if j < i - 1 {
        assert Before(OrderOf(runs, recs[..i][j]), OrderOf(runs, recs[..i][i - 1]));
      }
    }
  }

  predicate AssessmentMatches(a: Assessment, rec: Recommendation) {
    a.recommendation == rec && a.run == rec.run && a.snapshot == rec.snapshot && a.symbol == rec.symbol
  }

  ghost predicate AssessmentsHold(recs: seq<Recommendation>, assessments: seq<Assessment>) {
    |assessments| == |recs| && forall i | 0 <= i < |recs| :: AssessmentMatches(assessments[i], recs[i])
  }

  method CheckAssessments(recs: seq<Recommendation>, assessments: seq<Assessment>) returns (ok: bool)
    ensures ok <==> AssessmentsHold(recs, assessments)
  {
    if |assessments| != |recs| {
      return false;
    }
    for i := 0 to |recs|
      invariant forall j | 0 <= j < i :: AssessmentMatches(assessments[j], recs[j])
    {
      if !AssessmentMatches(assessments[i], recs[i]) {
        return false;
      }
    }
    return true;
  }

  // ---- the whole constructor ----

  ghost predicate ValidScope(b: Bundle) {
    && b.identity == RunIdentity(b.manifest.id, SortedSeq(Elements(b.manifest.sourceHashes)))
    && b.report.manifest == b.manifest.id
    && (b.snapshot.Some? ==>
          b.snapshot.value.manifest == b.manifest.id && b.snapshot.value.decisionTime == b.manifest.decisionTime)
    && b.definitions == b.materializations && Distinct(b.definitions)
  }

  ghost predicate ValidBlocked(b: Bundle) {
    && b.report.status == DataBlocked
    && b.universe.None? && b.eligibility.None? && b.definitions == [] && b.materializations == []
    && b.runs == [] && b.recommendations == [] && b.assessments == []
  }

  ghost predicate ValidPublished(b: Bundle) {
    && b.report.status != DataBlocked
    && b.universe.Some? && b.eligibility.Some? && b.snapshot.Some? && b.definitions != [] && b.runs != []
    && b.universe.value.universe == b.runs[0].universe
    && b.eligibility.value.sourceDataset == b.universe.value.sourceDataset
    && Distinct(b.runs) && Distinct(Models(b.runs))
    && (forall run | run in b.runs :: run.exploratory)
    && RecommendationsHold(b.runs, b.snapshot.value, b.recommendations)
    && AssessmentsHold(b.recommendations, b.assessments)
  }

  ghost predicate ValidBundle(b: Bundle) {
    ValidScope(b) && if b.published then ValidPublished(b) else ValidBlocked(b)
  }

  method CheckScope(b: Bundle) returns (error: Option<BundleError>)
    ensures error.None? <==> ValidScope(b)
  {
    if b.identity != RunIdentity(b.manifest.id, SortedSeq(Elements(b.manifest.sourceHashes))) {
      return Some(IdentityMismatch);
    }
    if b.report.manifest != b.manifest.id {
      return Some(ReportMismatch);
    }
    if b.snapshot.Some?
       && (b.snapshot.value.manifest != b.manifest.id || b.snapshot.value.decisionTime != b.manifest.decisionTime)
    {
      return Some(SnapshotScope);
    }
    CardinalityDetectsDuplicates(b.definitions);
    if b.definitions != b.materializations || |b.definitions| != |Elements(b.definitions)| {
      return Some(FeatureLineage);
    }
    return None;
  }

  method CheckPublished(b: Bundle) returns (error: Option<BundleError>)
    ensures error.None? <==> ValidPublished(b)
  {
    if b.report.status == DataBlocked || b.universe.None? || b.eligibility.None? || b.snapshot.None?
       || b.definitions == [] || b.runs == [] {
      return Some(EvidenceMissing);
    }
    if b.universe.value.universe != b.runs[0].universe
       || b.eligibility.value.sourceDataset != b.universe.value.sourceDataset
    {
      return Some(UniverseScope);
    }
    CardinalityDetectsDuplicates(b.runs);
    CardinalityDetectsDuplicates(Models(b.runs));
    if |Elements(b.runs)| != |b.runs| || |Elements(Models(b.runs))| != |Models(b.runs)| {
      return Some(RunsRepeat);
    }
    if exists run :: run in b.runs && !run.exploratory {
      return Some(RunsNotExploratory);
    }
    var recommendations := CheckRecommendations(b.runs, b.snapshot.value, b.recommendations);
    if !recommendations {
      return Some(RecommendationsRefused);
    }
    var assessments := CheckAssessments(b.recommendations, b.assessments);
    if !assessments {
      return Some(AssessmentsRefused);
    }
    return None;
  }

  method CheckBundle(b: Bundle) returns (error: Option<BundleError>)
    ensures error.None? <==> ValidBundle(b)
  {
    error := CheckScope(b);
    if error.Some? {
      return;
    }
    if b.published {
      error := CheckPublished(b);
    } else if b.report.status != DataBlocked || b.universe.Some? || b.eligibility.Some? || b.definitions != []
      || b.materializations != [] || b.runs != [] || b.recommendations != [] || b.assessments != []
    {
      error := Some(BlockedCarriesMore);
    }
  }

  // ---- producers meet the constructor ----

  lemma {:induction false} IndexInRuns(runs: seq<PredictionRun>, i: nat)
    requires Distinct(runs) && i < |runs|
    ensures RunIndex(runs, runs[i]) == i
    decreases |runs|
  {
    if i < |runs| - 1 {
      IndexInRuns(runs[..|runs| - 1], i);
    }
  }

  lemma {:induction false} ProjectedMembers(runs: seq<PredictionRun>, s: Snapshot, report: QualityReport, topK: int,
                                            rec: Recommendation)
    requires rec in ProjectRuns(runs, s, report, topK)
    ensures Bound(rec, runs, s)
  {
    var init := runs[..|runs| - 1];
    if rec in ProjectRuns(init, s, report, topK) {
      ProjectedMembers(init, s, report, topK, rec);
    } else {
      assert rec in ProjectRun(runs[|runs| - 1], s, report, topK);
    }
  }

  /** Selecting keeps the order of the predictions. */
  lemma {:induction false} SelectedOrder(ps: seq<Prediction>, topK: int)
    requires RankSymbolOrder(ps)
    ensures RankSymbolOrder(Selected(ps, topK))
  {
    if ps != [] {
      var init, last := ps[..|ps| - 1], ps[|ps| - 1];
      SelectedOrder(init, topK);
      SelectedMembers(init, topK);
      var head, all := Selected(init, topK), Selected(ps, topK);
      forall i, j | 0 <= i < j < |all| ensures BeforeInRun(all[i], all[j]) {
        if j == |head| {
          assert head[i] in init;
          var k :| 0 <= k < |init| && init[k] == head[i];
          assert BeforeInRun(ps[k], ps[|ps| - 1]);
        }
      }
    }
  }

  lemma {:induction false} ProjectedOrder(runs: seq<PredictionRun>, k: nat, s: Snapshot, report: QualityReport,
                                          topK: int)
    requires Distinct(runs) && k <= |runs|
    requires forall run | run in runs :: RankSymbolOrder(Selected(run.predictions, topK))
    ensures CanonicalOrder(runs, ProjectRuns(runs[..k], s, report, topK))
    ensures forall rec | rec in ProjectRuns(runs[..k], s, report, topK) :: RunIndex(runs, rec.run) < k
  {
    if k > 0 {
      assert runs[..k][..k - 1] == runs[..k - 1];
      ProjectedOrder(runs, k - 1, s, report, topK);
      var head, tail := ProjectRuns(runs[..k - 1], s, report, topK), ProjectRun(runs[k - 1], s, report, topK);
      IndexInRuns(runs, k - 1);
      var selected := Selected(runs[k - 1].predictions, topK);
      assert runs[k - 1] in runs;
      forall i, j | 0 <= i < j < |tail| ensures Before(OrderOf(runs, tail[i]), OrderOf(runs, tail[j])) {
        assert BeforeInRun(selected[i], selected[j]);
      }
      assert forall i | 0 <= i < |tail| :: tail[i].run == runs[k - 1];
      JoinOrder(runs, head, tail, k - 1);
    }
  }

  lemma {:induction false} JoinOrder(runs: seq<PredictionRun>, head: seq<Recommendation>, tail: seq<Recommendation>,
                                     at: int)
    requires CanonicalOrder(runs, head) && CanonicalOrder(runs, tail)
    requires forall rec | rec in head :: RunIndex(runs, rec.run) < at
    requires forall rec | rec in tail :: RunIndex(runs, rec.run) == at
    ensures CanonicalOrder(runs, head + tail)
  {
    var all := head + tail;
    forall i, j | 0 <= i < j < |all| ensures Before(OrderOf(runs, all[i]), OrderOf(runs, all[j])) {
      if j < |head| {
        assert all[i] == head[i] && all[j] == head[j];
      } else if |head| <= i {
        assert all[i] == tail[i - |head|] && all[j] == tail[j - |head|];
      } else {
        assert all[i] in head && all[j] in tail;
      }
    }
  }

  /** The projection of valid runs is in canonical order exactly when every run lists the ties it projects by symbol. */
  lemma {:induction false} ProjectionIsCanonicalIff(runs: seq<PredictionRun>, s: Snapshot, report: QualityReport,
                                                    topK: int)
    requires Distinct(runs) && forall run | run in runs :: ValidPredictionRun(run)
    ensures RecommendationsHold(runs, s, ProjectRuns(runs, s, report, topK))
            <==> forall run | run in runs :: RankSymbolOrder(Selected(run.predictions, topK))
  {
    var recs := ProjectRuns(runs, s, report, topK);
    forall rec | rec in recs ensures Bound(rec, runs, s) {
      ProjectedMembers(runs, s, report, topK, rec);
    }
    if forall run | run in runs :: RankSymbolOrder(Selected(run.predictions, topK)) {
      ProjectedOrder(runs, |runs|, s, report, topK);
      assert runs[..|runs|] == runs;
    }
    if CanonicalOrder(runs, recs) {
      forall i | 0 <= i < |runs| ensures RankSymbolOrder(Selected(runs[i].predictions, topK)) {
        RunIsContiguous(runs, s, report, topK, i);
        var at :| IsSlice(recs, at, ProjectRun(runs[i], s, report, topK));
        SliceOrder(runs, recs, at, runs[i], s, report, Selected(runs[i].predictions, topK));
      }
    }
  }

  ghost predicate IsSlice(recs: seq<Recommendation>, at: int, part: seq<Recommendation>) {
    0 <= at && at + |part| <= |recs| && forall j | 0 <= j < |part| :: recs[at + j] == part[j]
  }

  lemma SliceOrder(runs: seq<PredictionRun>, recs: seq<Recommendation>, at: nat, run: PredictionRun, s: Snapshot,
                   report: QualityReport, selected: seq<Prediction>)
    requires CanonicalOrder(runs, recs) && IsSlice(recs, at, ProjectEach(run, s, report, selected))
    ensures RankSymbolOrder(selected)
  {
    forall i, j | 0 <= i < j < |selected| ensures BeforeInRun(selected[i], selected[j]) {
      var part := ProjectEach(run, s, report, selected);
      assert recs[at + i] == part[i] && recs[at + j] == part[j];
      assert Before(OrderOf(runs, recs[at + i]), OrderOf(runs, recs[at + j]));
    }
  }

  lemma {:induction false} RunIsContiguous(runs: seq<PredictionRun>, s: Snapshot, report: QualityReport, topK: int,
                                           i: nat)
    requires i < |runs|
    ensures exists at :: IsSlice(ProjectRuns(runs, s, report, topK), at, ProjectRun(runs[i], s, report, topK))
    decreases |runs|
  {
    var init := runs[..|runs| - 1];
    var head := ProjectRuns(init, s, report, topK);
    if i < |init| {
      RunIsContiguous(init, s, report, topK, i);
      var at :| IsSlice(head, at, ProjectRun(init[i], s, report, topK));
      assert IsSlice(ProjectRuns(runs, s, report, topK), at, ProjectRun(runs[i], s, report, topK));
    } else {
      var tail := ProjectRun(runs[i], s, report, topK);
      assert ProjectRuns(runs, s, report, topK) == head + tail;
      assert IsSlice(head + tail, |head|, tail);
    }
  }

  /** From published runs to an accepted bundle: no check of the constructor can fire on what the stages produce. */
  lemma {:induction false} PipelineIsAccepted(b: Bundle, topK: int)
    requires ValidScope(b) && b.published && b.report.status != DataBlocked
    requires b.universe.Some? && b.eligibility.Some? && b.snapshot.Some? && b.definitions != [] && b.runs != []
    requires b.universe.value.universe == b.runs[0].universe
    requires b.eligibility.value.sourceDataset == b.universe.value.sourceDataset
    requires forall run | run in b.runs :: Published(run)
    requires Projectable(b.runs, b.snapshot.value, topK)
    requires b.recommendations == ProjectRuns(b.runs, b.snapshot.value, b.report, topK)
    requires b.assessments == AssessAll(b.recommendations,
                                        Evidence(b.manifest, b.report, b.eligibility.value, b.snapshot.value))
    ensures ValidBundle(b)
  {
    forall run | run in b.runs ensures RankSymbolOrder(Selected(run.predictions, topK)) {
      SelectedOrder(run.predictions, topK);
    }
    ProjectionIsCanonicalIff(b.runs, b.snapshot.value, b.report, topK);
    ProjectedAssessmentsHold(b.runs, b.snapshot.value, b.recommendations,
                             Evidence(b.manifest, b.report, b.eligibility.value, b.snapshot.value));
    assert forall run | run in b.runs :: InScope(run, b.snapshot.value, topK);
  }

  lemma ProjectedAssessmentsHold(runs: seq<PredictionRun>, s: Snapshot, recs: seq<Recommendation>, e: Evidence)
    requires forall rec | rec in recs :: Bound(rec, runs, s)
    requires e.snapshot == s
    ensures AssessmentsHold(recs, AssessAll(recs, e))
  {
    forall i | 0 <= i < |recs| ensures AssessmentMatches(AssessAll(recs, e)[i], recs[i]) {
      assert Bound(recs[i], runs, s);
    }
  }

  const TIED: seq<Prediction> := [Prediction(2, 0.5, 1), Prediction(1, 0.5, 1)]
  const TIED_RUN: PredictionRun := PredictionRun(1, NEXT_SESSION_1030, 0, 0, [7], true, TIED, [], 2)

  lemma BothTiedSelected()
    ensures Selected(TIED, 5) == TIED && !RankSymbolOrder(TIED)
  {
    assert TIED[..1] == [TIED[0]] && TIED[..1][..0] == [];
    assert !BeforeInRun(TIED[0], TIED[1]);
  }

  /** Two tied candidates listed against symbol order pass the run's constructor but not the bundle's. */
  lemma {:induction false} TieAgainstSymbolOrderIsRefused(s: Snapshot, report: QualityReport)
    requires s.decisionTime == TIED_RUN.decisionTime
    ensures ValidPredictionRun(TIED_RUN) && InScope(TIED_RUN, s, 5)
    ensures !RecommendationsHold([TIED_RUN], s, ProjectRuns([TIED_RUN], s, report, 5))
  {
    TiedRunIsValid();
    BothTiedSelected();
    assert TIED_RUN in [TIED_RUN];
    ProjectionIsCanonicalIff([TIED_RUN], s, report, 5);
  }

  lemma BothFirst(scores: map<int, real>)
    requires scores == map[2 := 0.5, 1 := 0.5]
    ensures CrossSectionalRanking.Ranks(scores, true) == map[2 := 1, 1 := 1]
  {
    var ranks, ones := CrossSectionalRanking.Ranks(scores, true), map[2 := 1, 1 := 1];
    assert CrossSectionalRanking.Better(scores, 0.5, true) == {};
    forall k ensures k in ranks <==> k in ones {
    }
    forall k | k in ranks && k in ones ensures ranks[k] == ones[k] {
      assert scores[k] == 0.5;
    }
    SameMap(ranks, ones);
  }

  lemma TiedRunIsValid()
    ensures ValidPredictionRun(TIED_RUN)
  {
    var first, second := TIED[0], TIED[1];
    assert [] + [first] == [first] && [first] + [second] == TIED;
    MapsOfAppended([], first);
    MapsOfAppended([first], second);
    var scores := map[2 := 0.5, 1 := 0.5];
    assert ScoreMap(TIED) == scores && RankMap(TIED) == map[2 := 1, 1 := 1];
    BothFirst(scores);
  }
}
