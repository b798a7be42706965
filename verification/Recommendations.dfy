/** Projecting prediction runs into daily recommendations: everyone ranked within Top-K, boundary ties included,
    with the quality of the data behind each candidate. */
module Recommendations {
  import opened Wrappers
  import opened Ordering
  import opened TopK
  import opened CandidateRanking
  import opened PredictionRuns

  /** The only target a daily recommendation may carry. */
  const NEXT_SESSION_1030 := 1030

  datatype Observation = Observation(symbol: int, price: Option<real>, sufficient: bool)

  datatype Snapshot = Snapshot(manifest: int, decisionTime: int, observations: seq<Observation>)

  datatype SourceQuality = DataBlocked | SourceInsufficient | SourceDegraded | SourceComplete

  datatype QualityReport = QualityReport(manifest: int, status: SourceQuality)

  datatype CandidateQuality = CandidateInsufficient | CandidateDegraded | CandidateComplete

  /** A recommendation; its identity is its content. */
  datatype Recommendation = Recommendation(
    snapshot: Snapshot, run: PredictionRun, model: int, target: int, symbol: int, rank: int, score: real,
    quality: CandidateQuality)

  datatype ProjectionError = TopKNotPositive | QualityReportMismatch | RunsNotUnique | RunOutOfScope | WrongTarget

  ghost predicate ValidSnapshot(s: Snapshot) {
    && (forall i, j | 0 <= i < j < |s.observations| :: s.observations[i].symbol < s.observations[j].symbol)
    && (forall o | o in s.observations :: (o.sufficient ==> o.price.Some?) && (o.price.Some? ==> o.price.value > 0.0))
  }

  /** The first observation of a symbol. */
  function FirstObservation(observations: seq<Observation>, symbol: int): Option<Observation> {
    if observations == [] then None
    else if observations[0].symbol == symbol then Some(observations[0])
    else FirstObservation(observations[1..], symbol)
  }

  function ObservationFor(s: Snapshot, symbol: int): Option<Observation> {
    FirstObservation(s.observations, symbol)
  }

  predicate PriceUsable(s: Snapshot, symbol: int) {
    ObservationFor(s, symbol).Some? && ObservationFor(s, symbol).value.sufficient
  }

  function QualityOf(s: Snapshot, report: QualityReport, symbol: int): CandidateQuality {
    if !PriceUsable(s, symbol) || report.status == SourceInsufficient then CandidateInsufficient
    else if report.status == SourceDegraded then CandidateDegraded
    else CandidateComplete
  }

  function RecommendationOf(run: PredictionRun, s: Snapshot, report: QualityReport, p: Prediction): Recommendation {
    Recommendation(s, run, run.model, run.target, p.symbol, p.rank, p.score, QualityOf(s, report, p.symbol))
  }

  /** The predictions ranked within Top-K. */
  function Selected(ps: seq<Prediction>, topK: int): seq<Prediction> {
    if ps == [] then [] else
      Selected(ps[..|ps| - 1], topK) + if ps[|ps| - 1].rank <= topK then [ps[|ps| - 1]] else []
  }

  function ProjectEach(run: PredictionRun, s: Snapshot, report: QualityReport,
                       ps: seq<Prediction>): seq<Recommendation> {
    seq(|ps|, i requires 0 <= i < |ps| => RecommendationOf(run, s, report, ps[i]))
  }

  function ProjectRun(run: PredictionRun, s: Snapshot, report: QualityReport, topK: int): seq<Recommendation> {
    ProjectEach(run, s, report, Selected(run.predictions, topK))
  }

  function ProjectRuns(runs: seq<PredictionRun>, s: Snapshot, report: QualityReport, topK: int): seq<Recommendation> {
    if runs == [] then [] else
      ProjectRuns(runs[..|runs| - 1], s, report, topK) + ProjectRun(runs[|runs| - 1], s, report, topK)
  }

  function Models(runs: seq<PredictionRun>): seq<int> {
    seq(|runs|, i requires 0 <= i < |runs| => runs[i].model)
  }

  predicate InScope(run: PredictionRun, s: Snapshot, topK: int) {
    && run.decisionTime == s.decisionTime && run.exploratory
    && (Selected(run.predictions, topK) != [] ==> run.target == NEXT_SESSION_1030)
  }

  ghost predicate Projectable(runs: seq<PredictionRun>, s: Snapshot, topK: int) {
    && Distinct(runs) && Distinct(Models(runs))
    && forall run | run in runs :: InScope(run, s, topK)
  }

  /** The constructor of a recommendation. */
  method MakeRecommendation(run: PredictionRun, s: Snapshot, p: Prediction, quality: CandidateQuality)
    returns (r: Result<Recommendation, ProjectionError>)
    ensures r.Ok? <==> p.rank >= 1 && run.target == NEXT_SESSION_1030
    ensures r.Ok? ==> r.value == Recommendation(s, run, run.model, run.target, p.symbol, p.rank, p.score, quality)
  {
    if p.rank < 1 || run.target != NEXT_SESSION_1030 {
      return Err(WrongTarget);
    }
    return Ok(Recommendation(s, run, run.model, run.target, p.symbol, p.rank, p.score, quality));
  }

  method ProjectOne(run: PredictionRun, s: Snapshot, report: QualityReport, topK: int)
    returns (r: Result<seq<Recommendation>, ProjectionError>)
    requires ValidPredictionRun(run)
    ensures r.Ok? <==> InScope(run, s, topK)
    ensures r.Ok? ==> r.value == ProjectRun(run, s, report, topK)
  {
    if run.decisionTime != s.decisionTime || !run.exploratory {
      return Err(RunOutOfScope);
    }
    var selected := Selected(run.predictions, topK);
    SelectedMembers(run.predictions, topK);
    var output: seq<Recommendation> := [];
    for i := 0 to |selected|
      invariant output == ProjectEach(run, s, report, selected[..i])
      invariant i > 0 ==> run.target == NEXT_SESSION_1030
    {
      RankedFromOne(run, topK, i);
      var made := MakeRecommendation(run, s, selected[i], QualityOf(s, report, selected[i].symbol));
      if made.Err? {
        return Err(made.error);
      }
      output := output + [made.value];
      assert selected[..i + 1] == selected[..i] + [selected[i]];
    }
    assert selected[..|selected|] == selected;
    return Ok(output);
  }

  lemma {:induction false} SelectedMembers(ps: seq<Prediction>, topK: int)
    ensures forall p :: p in Selected(ps, topK) <==> p in ps && p.rank <= topK
  {
    if ps != [] {
      SelectedMembers(ps[..|ps| - 1], topK);
      assert ps == ps[..|ps| - 1] + [ps[|ps| - 1]];
    }
  }

  lemma {:induction false} RankedFromOne(run: PredictionRun, topK: int, i: nat)
    requires ValidPredictionRun(run) && i < |Selected(run.predictions, topK)|
    ensures Selected(run.predictions, topK)[i].rank >= 1
  {
    SelectedMembers(run.predictions, topK);
    var p := Selected(run.predictions, topK)[i];
    assert p in run.predictions;
    var j :| 0 <= j < |run.predictions| && run.predictions[j] == p;
    RanksFollowScores(run, j, j);
  }

  method ProjectCandidateRecommendations(runs: seq<PredictionRun>, s: Snapshot, report: QualityReport, topK: int)
    returns (r: Result<seq<Recommendation>, ProjectionError>)
    requires forall run | run in runs :: ValidPredictionRun(run)
    ensures r.Ok? <==>
      topK >= 1 && report.manifest == s.manifest && (report.status == DataBlocked || Projectable(runs, s, topK))
    ensures r.Ok? ==> r.value == if report.status == DataBlocked then [] else ProjectRuns(runs, s, report, topK)
  {
    if topK < 1 {
      return Err(TopKNotPositive);
    }
    if report.manifest != s.manifest {
      return Err(QualityReportMismatch);
    }
    if report.status == DataBlocked {
      return Ok([]);
    }
    CardinalityDetectsDuplicates(runs);
    CardinalityDetectsDuplicates(Models(runs));
    if |Elements(runs)| != |runs| || |Elements(Models(runs))| != |Models(runs)| {
      return Err(RunsNotUnique);
    }
    var output: seq<Recommendation> := [];
    for i := 0 to |runs|
      invariant output == ProjectRuns(runs[..i], s, report, topK)
      invariant forall run | run in runs[..i] :: InScope(run, s, topK)
    {
      assert runs[i] in runs && runs[..i + 1][..i] == runs[..i];
      var one := ProjectOne(runs[i], s, report, topK);
      if one.Err? {
        return Err(one.error);
      }
      output := output + one.value;
    }
    assert runs[..|runs|] == runs;
    return Ok(output);
  }

  // ---- the projected set is the rank set ----

  lemma {:induction false} MembersInMaps(ps: seq<Prediction>)
    ensures forall t :: t in ScoreMap(ps) <==> exists p :: p in ps && p.symbol == t
  {
    if ps != [] {
      MembersInMaps(ps[..|ps| - 1]);
      assert ps == ps[..|ps| - 1] + [ps[|ps| - 1]];
    }
  }

  /** A run recommends exactly the symbols ranked within Top-K, so a boundary tie is never split. */
  lemma RecommendsTheRankSet(run: PredictionRun, s: Snapshot, report: QualityReport, topK: nat, symbol: int)
    requires ValidPredictionRun(run)
    ensures (exists r :: r in ProjectRun(run, s, report, topK) && r.symbol == symbol)
            <==> symbol in WithinRank(ScoreMap(run.predictions), topK, true)
  {
    var ps, recs := run.predictions, ProjectRun(run, s, report, topK);
    var selected := Selected(ps, topK);
    SelectedMembers(ps, topK);
    MembersInMaps(ps);
    DistinctPrefix(PredictionSymbols(ps), RejectionSymbols(run.rejections));
    if r :| r in recs && r.symbol == symbol {
      var i :| 0 <= i < |recs| && recs[i] == r;
      assert selected[i] in ps;
      var j :| 0 <= j < |ps| && ps[j] == selected[i];
      MapsAtSymbol(ps, j);
    }
    if symbol in WithinRank(ScoreMap(ps), topK, true) {
      var p :| p in ps && p.symbol == symbol;
      var j :| 0 <= j < |ps| && ps[j] == p;
      MapsAtSymbol(ps, j);
      assert p in selected;
      var i :| 0 <= i < |selected| && selected[i] == p;
      assert recs[i].symbol == symbol && recs[i] in recs;
    }
  }
}
