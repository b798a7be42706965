/** The entry gate: every recommendation gets one assessment that either waits for confirmation or names the
    evidence that is missing. */
module EntryPlumbing {
  import opened Wrappers
  import opened Ordering
  import opened PredictionRuns
  import opened Recommendations

  datatype SourceField = SourceField(symbol: int, tradingStatus: bool, sufficient: bool)

  datatype Manifest = Manifest(id: int, decisionTime: int, sourceHashes: seq<int>, fields: seq<SourceField>)

  datatype Eligibility = Eligibility(sourceDataset: int, eligible: set<int>)

  datatype EntryReason =
    | CandidateQualityInsufficient
    | SourceManifestIncomplete
    | EligibilityNotPassed
    | DecisionPriceMissing
    | TradingStatusUnavailable
    | EntryModelNotYetValidated

  datatype EntryState = Reject | WaitConfirmation

  /** An assessment; its identity is its content. */
  datatype Assessment = Assessment(
    snapshot: Snapshot, recommendation: Recommendation, run: PredictionRun, symbol: int,
    state: EntryState, reasons: seq<EntryReason>)

  datatype AssessmentError = EvidenceMismatch | UnboundRecommendation | SnapshotMismatch | ReasonsRefused

  datatype Evidence = Evidence(manifest: Manifest, report: QualityReport, eligibility: Eligibility, snapshot: Snapshot)

  function TradingField(fields: seq<SourceField>, symbol: int): Option<SourceField> {
    if fields == [] then None
    else if fields[0].symbol == symbol && fields[0].tradingStatus then Some(fields[0])
    else TradingField(fields[1..], symbol)
  }

  predicate TradingKnown(m: Manifest, symbol: int) {
    TradingField(m.fields, symbol).Some? && TradingField(m.fields, symbol).value.sufficient
  }

  predicate ReportUsable(report: QualityReport) {
    report.status != DataBlocked && report.status != SourceInsufficient
  }

  function When(missing: bool, reason: EntryReason): seq<EntryReason> {
    if missing then [reason] else []
  }

  /** The missing evidence of a recommendation, in the order it is looked for. */
  function Blockers(rec: Recommendation, e: Evidence): seq<EntryReason> {
    When(rec.quality == CandidateInsufficient, CandidateQualityInsufficient)
    + When(!ReportUsable(e.report), SourceManifestIncomplete)
    + When(rec.symbol !in e.eligibility.eligible, EligibilityNotPassed)
    + When(!PriceUsable(e.snapshot, rec.symbol), DecisionPriceMissing)
    + When(!TradingKnown(e.manifest, rec.symbol), TradingStatusUnavailable)
  }

  function Assess(rec: Recommendation, e: Evidence): Assessment {
    var blockers := Blockers(rec, e);
    Assessment(e.snapshot, rec, rec.run, rec.symbol,
               if blockers == [] then WaitConfirmation else Reject,
               if blockers == [] then [EntryModelNotYetValidated] else blockers)
  }

  /** The constructor's rule: waiting and rejecting carry exactly the reasons that belong to them. */
  predicate ValidAssessment(a: Assessment) {
    a.reasons != [] && (a.state == WaitConfirmation <==> a.reasons == [EntryModelNotYetValidated])
  }

  /** The first occurrence of every reason. */
  function FirstOccurrences(reasons: seq<EntryReason>): seq<EntryReason> {
    if reasons == [] then [] else
      var init, last := FirstOccurrences(reasons[..|reasons| - 1]), reasons[|reasons| - 1];
      if last in init then init else init + [last]
  }

  lemma {:induction false} DistinctIsKept(reasons: seq<EntryReason>)
    requires Distinct(reasons)
    ensures FirstOccurrences(reasons) == reasons
  {
    if reasons != [] {
      DistinctIsKept(reasons[..|reasons| - 1]);
    }
  }

  lemma BlockersDistinct(rec: Recommendation, e: Evidence)
    ensures Distinct(Blockers(rec, e)) && EntryModelNotYetValidated !in Blockers(rec, e)
  {
    ReasonsDistinct(rec.quality == CandidateInsufficient, !ReportUsable(e.report),
                    rec.symbol !in e.eligibility.eligible,
                    !PriceUsable(e.snapshot, rec.symbol), !TradingKnown(e.manifest, rec.symbol));
  }

  lemma ReasonsDistinct(quality: bool, manifest: bool, eligibility: bool, price: bool, trading: bool)
    ensures var reasons := When(quality, CandidateQualityInsufficient) + When(manifest, SourceManifestIncomplete)
              + When(eligibility, EligibilityNotPassed) + When(price, DecisionPriceMissing)
              + When(trading, TradingStatusUnavailable);
      Distinct(reasons) && EntryModelNotYetValidated !in reasons
  {
    var one := When(quality, CandidateQualityInsufficient);
    var two := Extend(one, manifest, SourceManifestIncomplete);
    var three := Extend(two, eligibility, EligibilityNotPassed);
    var four := Extend(three, price, DecisionPriceMissing);
    var five := Extend(four, trading, TradingStatusUnavailable);
  }

  /** Adding a new reason, or none, keeps the reasons distinct. */
  lemma Extend(reasons: seq<EntryReason>, missing: bool, r: EntryReason) returns (longer: seq<EntryReason>)
    requires Distinct(reasons) && r !in reasons
    ensures longer == reasons + When(missing, r) && Distinct(longer)
    ensures forall x :: x in longer <==> x in reasons || (missing && x == r)
  {
    longer := reasons + When(missing, r);
  }

  predicate Bound(rec: Recommendation, runs: seq<PredictionRun>, s: Snapshot) {
    rec.run in runs && rec.run.model == rec.model && rec.run.target == rec.target && rec.snapshot == s
  }

  function AssessAll(recs: seq<Recommendation>, e: Evidence): seq<Assessment> {
    seq(|recs|, i requires 0 <= i < |recs| => Assess(recs[i], e))
  }

  predicate SameSource(e: Evidence) {
    e.manifest.id == e.snapshot.manifest && e.report.manifest == e.manifest.id
  }

  method AssessEntryPlumbing(recs: seq<Recommendation>, runs: seq<PredictionRun>, e: Evidence)
    returns (r: Result<seq<Assessment>, AssessmentError>)
    ensures r.Ok? <==> SameSource(e) && forall rec | rec in recs :: Bound(rec, runs, e.snapshot)
    ensures r.Ok? ==> r.value == AssessAll(recs, e)
  {
    if !SameSource(e) {
      return Err(EvidenceMismatch);
    }
    var assessments: seq<Assessment> := [];
    for i := 0 to |recs|
      invariant assessments == AssessAll(recs[..i], e)
      invariant forall rec | rec in recs[..i] :: Bound(rec, runs, e.snapshot)
    {
      assert recs[i] in recs;
      if recs[i].run !in runs || recs[i].run.model != recs[i].model || recs[i].run.target != recs[i].target {
        return Err(UnboundRecommendation);
      }
      if recs[i].snapshot != e.snapshot {
        return Err(SnapshotMismatch);
      }
      var one := AssessOne(recs[i], e);
      assessments := assessments + [one];
      assert recs[..i + 1] == recs[..i] + [recs[i]];
    }
    assert recs[..|recs|] == recs;
    return Ok(assessments);
  }

  method CollectBlockers(rec: Recommendation, e: Evidence) returns (blockers: seq<EntryReason>)
    ensures blockers == Blockers(rec, e)
  {
    blockers := [];
    if rec.quality == CandidateInsufficient {
      blockers := blockers + [CandidateQualityInsufficient];
    }
    ghost var expected := When(rec.quality == CandidateInsufficient, CandidateQualityInsufficient);
    assert blockers == expected;
    if !ReportUsable(e.report) {
      blockers := blockers + [SourceManifestIncomplete];
    }
    expected := expected + When(!ReportUsable(e.report), SourceManifestIncomplete);
    assert blockers == expected;
    if rec.symbol !in e.eligibility.eligible {
      blockers := blockers + [EligibilityNotPassed];
    }
    expected := expected + When(rec.symbol !in e.eligibility.eligible, EligibilityNotPassed);
    assert blockers == expected;
    if !PriceUsable(e.snapshot, rec.symbol) {
      blockers := blockers + [DecisionPriceMissing];
    }
    expected := expected + When(!PriceUsable(e.snapshot, rec.symbol), DecisionPriceMissing);
    assert blockers == expected;
    if !TradingKnown(e.manifest, rec.symbol) {
      blockers := blockers + [TradingStatusUnavailable];
    }
    assert blockers == expected + When(!TradingKnown(e.manifest, rec.symbol), TradingStatusUnavailable);
  }

  method AssessOne(rec: Recommendation, e: Evidence) returns (a: Assessment)
    ensures a == Assess(rec, e) && ValidAssessment(a)
  {
    var blockers := CollectBlockers(rec, e);
    BlockersDistinct(rec, e);
    DistinctIsKept(Blockers(rec, e));
    var unique := FirstOccurrences(blockers);
    if unique != [] {
      assert unique[0] in Blockers(rec, e);
      a := Assessment(e.snapshot, rec, rec.run, rec.symbol, Reject, unique);
    } else {
      a := Assessment(e.snapshot, rec, rec.run, rec.symbol, WaitConfirmation, [EntryModelNotYetValidated]);
    }
  }

  /** The gate fails closed: waiting needs every piece of evidence, and a projected recommendation without a usable
      price is always reported twice. */
  lemma GateFailsClosed(run: PredictionRun, topK: int, i: nat, e: Evidence)
    requires i < |ProjectRun(run, e.snapshot, e.report, topK)|
    ensures var rec := ProjectRun(run, e.snapshot, e.report, topK)[i];
      var a := Assess(rec, e);
      && (a.state == WaitConfirmation <==>
            ReportUsable(e.report) && rec.symbol in e.eligibility.eligible
            && PriceUsable(e.snapshot, rec.symbol) && TradingKnown(e.manifest, rec.symbol))
      && (DecisionPriceMissing in a.reasons ==> CandidateQualityInsufficient in a.reasons)
  {
    var rec := ProjectRun(run, e.snapshot, e.report, topK)[i];
    BlockersDistinct(rec, e);
    assert rec.quality == QualityOf(e.snapshot, e.report, rec.symbol);
    WaitIffNothingMissing(rec, e);
  }

  lemma WaitIffNothingMissing(rec: Recommendation, e: Evidence)
    ensures Blockers(rec, e) == [] <==>
      && rec.quality != CandidateInsufficient && ReportUsable(e.report) && rec.symbol in e.eligibility.eligible
      && PriceUsable(e.snapshot, rec.symbol) && TradingKnown(e.manifest, rec.symbol)
    ensures DecisionPriceMissing in Blockers(rec, e) <==> !PriceUsable(e.snapshot, rec.symbol)
    ensures CandidateQualityInsufficient in Blockers(rec, e) <==> rec.quality == CandidateInsufficient
  {
  }
}
