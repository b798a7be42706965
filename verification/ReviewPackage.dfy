/** The published review package: seven files printed from a settlement, and the reader that rebuilds the settlement
    from them. A file's hash is modelled by the file's content. */
module ReviewPackage {
  import opened Wrappers
  import opened FiniteSums
  import opened Recommendations
  import opened DecisionBundle
  import opened OutcomeSettlement
  import opened DailyReview
  import opened Settlement
  import opened ReviewJson

  datatype FileName =
    | ManifestFile | ProtocolFile | PopulationFile | RecommendationFile | ReviewFile | ReportFile | ChecksumFile

  datatype Report = Report(
    decision: Bundle, count: int, coverage: real, positive: int, topMean: Option<real>, populationMean: Option<real>,
    rankingCoverage: real, unresolved: int, overlap: int, union: int)

  datatype Content = Data(json: Json) | Markdown(report: Report) | Checksums(sums: map<FileName, Content>)

  type Package = map<FileName, Content>

  datatype PackageError = AlreadyPublished | FilesMismatch | ChecksumMismatch | ManifestMismatch | ProtocolMismatch
    | PopulationMismatch | RecommendationMismatch | ReviewMismatch | SettlementMismatch | ReportNotReconstructible

  const ALL_FILES :=
    {ManifestFile, ProtocolFile, PopulationFile, RecommendationFile, ReviewFile, ReportFile, ChecksumFile}

  // ---- printing ----

  function ArtifactName(s: SettledDecision): Text {
    OfSettlement(s)
  }

  function ManifestOf(s: SettledDecision): Fields {
    ManifestFields(Str(SchemaName(PackageV1)), Str(ArtifactName(s)), Str(OfSettlement(s)), Str(OfSettlement(s)),
                   Str(OfBundle(s.decision)), Str(Named(s.archive)), Str(OfProvider(s.provider)),
                   Str(Instant(s.session)),
                   Str(Named(NEXT_SESSION_1030)), Str(OfReview(s.review)), Str(Exploratory))
  }

  /** The protocol of a universe; its target is neither adjusted for costs nor dependent on a path. */
  function CanonicalProtocol(universe: int): Fields {
    ProtocolFields(Str(Named(universe)), Bool(false), Bool(false))
  }

  /** The protocol's fields and their hash; it has no identity of its own. */
  function ProtocolOf(universe: int): Json {
    Signed(CanonicalProtocol(universe), Str(HashOf(CanonicalProtocol(universe))), Null)
  }

  function WriteOutcomes(outcomes: seq<PopulationOutcome>): Json {
    Plain(ListFields(Str(SchemaName(PopulationListV1)),
                     List(seq(|outcomes|, i requires 0 <= i < |outcomes| => WritePopulation(outcomes[i])))))
  }

  function WriteRecommendations(outcomes: seq<RecommendationOutcome>): Json {
    Plain(ListFields(Str(SchemaName(RecommendationListV1)),
                     List(seq(|outcomes|, i requires 0 <= i < |outcomes| => WriteRecommendation(outcomes[i])))))
  }

  function Render(s: SettledDecision): Report {
    var r := s.review;
    Report(s.decision, r.count, r.coverage, r.positive, r.topMean, r.populationMean, r.rankingCoverage, r.unresolved,
           r.overlap, r.union)
  }

  function DataFiles(s: SettledDecision): Package {
    map[
      ManifestFile := Data(Plain(ManifestOf(s))),
      ProtocolFile := Data(ProtocolOf(s.universe)),
      PopulationFile := Data(WriteOutcomes(s.population)),
      RecommendationFile := Data(WriteRecommendations(s.outcomes)),
      ReviewFile := Data(WriteReview(s.review)),
      ReportFile := Markdown(Render(s))]
  }

  function PackageOf(s: SettledDecision): Package {
    DataFiles(s)[ChecksumFile := Checksums(DataFiles(s))]
  }

  /** Published packages by name. */
  class ArtifactStore {
    var packages: map<Text, Package>

    constructor ()
      ensures packages == map[]
    {
      packages := map[];
    }

    /** Stages the files one after the other and publishes all of them or nothing; never overwrites. */
    method Publish(s: SettledDecision) returns (r: Result<Text, PackageError>)
      modifies this
      ensures r.Ok? <==> ArtifactName(s) !in old(packages)
      ensures r.Ok? ==> r.value == ArtifactName(s) && packages == old(packages)[ArtifactName(s) := PackageOf(s)]
      ensures r.Err? ==> packages == old(packages)
    {
      var name := ArtifactName(s);
      if name in packages {
        return Err(AlreadyPublished);
      }
      var stage: Package := map[];
      stage := stage[ManifestFile := Data(Plain(ManifestOf(s)))];
      stage := stage[ProtocolFile := Data(ProtocolOf(s.universe))];
      stage := stage[PopulationFile := Data(WriteOutcomes(s.population))];
      stage := stage[RecommendationFile := Data(WriteRecommendations(s.outcomes))];
      stage := stage[ReviewFile := Data(WriteReview(s.review))];
      stage := stage[ReportFile := Markdown(Render(s))];
      stage := stage[ChecksumFile := Checksums(stage)];
      if stage.Keys != ALL_FILES {
        return Err(FilesMismatch);
      }
      packages := packages[name := stage];
      return Ok(name);
    }
  }

  // ---- reading ----

  predicate ChecksumsHold(p: Package) {
    && p.Keys == ALL_FILES
    && p[ChecksumFile].Checksums?
    && p[ChecksumFile].sums.Keys == ALL_FILES - {ChecksumFile}
    && forall f | f in p[ChecksumFile].sums :: f in p && p[f] == p[ChecksumFile].sums[f]
  }

  predicate ManifestReadable(c: Content) {
    && c.Data? && c.json.Plain? && c.json.fields.ManifestFields?
    && c.json.fields.schema == Str(SchemaName(PackageV1))
    && IsBundle(c.json.fields.decision) && IsName(c.json.fields.archive)
    && TextOf(c.json.fields.resultHash).Some? && TextOf(c.json.fields.resultHash).value.OfProvider?
    && ReadInstant(c.json.fields.session).Some? && ReadInstant(c.json.fields.session).value.Some?
    && TextOf(c.json.fields.eligibility) == Some(Exploratory)
  }

  /** The fields are compared by equality, the hash is that of the canonical fields. */
  predicate ProtocolReadable(c: Content) {
    && c.Data? && c.json.Signed? && c.json.fields.ProtocolFields? && IsName(c.json.fields.universe)
    && EqualProtocols(c.json.fields, CanonicalProtocol(NameIn(c.json.fields.universe)))
    && c.json.contentHash == Str(HashOf(CanonicalProtocol(NameIn(c.json.fields.universe)))) && c.json.identity == Null
  }

  predicate EqualProtocols(f: Fields, g: Fields)
    requires f.ProtocolFields? && g.ProtocolFields?
  {
    && PassesAsEqual(f.universe, g.universe) && PassesAsEqual(f.costAdjusted, g.costAdjusted)
    && PassesAsEqual(f.pathRequired, g.pathRequired)
  }

  predicate ListReadable(c: Content, schema: Schema) {
    && c.Data? && c.json.Plain? && c.json.fields.ListFields?
    && c.json.fields.schema == Str(SchemaName(schema)) && c.json.fields.items.List?
  }

  predicate PopulationItems(c: Content) {
    ListReadable(c, PopulationListV1)
    && forall i | 0 <= i < |c.json.fields.items.elements| :: ReadPopulation(c.json.fields.items.elements[i]).Some?
  }

  function PopulationOf(c: Content): seq<PopulationOutcome>
    requires PopulationItems(c)
  {
    var items := c.json.fields.items.elements;
    seq(|items|, i requires 0 <= i < |items| => ReadPopulation(items[i]).value)
  }

  predicate RecommendationItems(c: Content) {
    ListReadable(c, RecommendationListV1)
    && forall i | 0 <= i < |c.json.fields.items.elements| :: ReadRecommendation(c.json.fields.items.elements[i]).Some?
  }

  function RecommendationsOf(c: Content): seq<RecommendationOutcome>
    requires RecommendationItems(c)
  {
    var items := c.json.fields.items.elements;
    seq(|items|, i requires 0 <= i < |items| => ReadRecommendation(items[i]).value)
  }

  /** The settlement put together from four of the files. */
  function Assembled(m: Fields, universe: int, population: seq<PopulationOutcome>, outcomes: seq<RecommendationOutcome>,
                     review: Review): SettledDecision
    requires ManifestReadable(Data(Plain(m)))
  {
    SettledDecision(BundleIn(m.decision), NameIn(m.archive), TextOf(m.resultHash).value.provider,
                    ReadInstant(m.session).value.value, universe, population, outcomes, review)
  }

  /** The settlement rebuilt from the verified files. */
  ghost function Parsed(p: Package): Result<SettledDecision, PackageError> {
    if !ChecksumsHold(p) then Err(ChecksumMismatch)
    else if !ManifestReadable(p[ManifestFile]) then Err(ManifestMismatch)
    else if !ProtocolReadable(p[ProtocolFile]) then Err(ProtocolMismatch)
    else if !PopulationItems(p[PopulationFile]) then Err(PopulationMismatch)
    else if !RecommendationItems(p[RecommendationFile]) then Err(RecommendationMismatch)
    else if !(p[ReviewFile].Data? && ReadReview(p[ReviewFile].json).Some?) then Err(ReviewMismatch)
    else
      var s := Assembled(p[ManifestFile].json.fields, NameIn(p[ProtocolFile].json.fields.universe),
                         PopulationOf(p[PopulationFile]), RecommendationsOf(p[RecommendationFile]),
                         ReadReview(p[ReviewFile].json).value);
      if !ValidSettlement(s) then Err(SettlementMismatch) else Ok(s)
  }

  /** The settlement must print back to the manifest, its own name and the report. */
  ghost function Confirmed(name: Text, p: Package, s: SettledDecision): Result<SettledDecision, PackageError>
    requires p.Keys == ALL_FILES
  {
    if p[ManifestFile] != Data(Plain(ManifestOf(s))) || name != ArtifactName(s) then Err(ManifestMismatch)
    else if p[ReportFile] != Markdown(Render(s)) then Err(ReportNotReconstructible)
    else Ok(s)
  }

  /** The reader: verify the files, rebuild the settlement, and check that it prints back. */
  ghost function Load(name: Text, p: Package): Result<SettledDecision, PackageError> {
    match Parsed(p)
    case Err(e) => Err(e)
    case Ok(s) => Confirmed(name, p, s)
  }

  method ParsePackage(p: Package) returns (r: Result<SettledDecision, PackageError>)
    ensures r == Parsed(p)
  {
    if !ChecksumsHold(p) {
      return Err(ChecksumMismatch);
    }
    if !ManifestReadable(p[ManifestFile]) {
      return Err(ManifestMismatch);
    }
    if !ProtocolReadable(p[ProtocolFile]) {
      return Err(ProtocolMismatch);
    }
    if !PopulationItems(p[PopulationFile]) {
      return Err(PopulationMismatch);
    }
    if !RecommendationItems(p[RecommendationFile]) {
      return Err(RecommendationMismatch);
    }
    if !p[ReviewFile].Data? {
      return Err(ReviewMismatch);
    }
    var review := ParseReview(p[ReviewFile].json);
    if review.None? {
      return Err(ReviewMismatch);
    }
    var s := Assembled(p[ManifestFile].json.fields, NameIn(p[ProtocolFile].json.fields.universe),
                       PopulationOf(p[PopulationFile]), RecommendationsOf(p[RecommendationFile]), review.value);
    var ok := CheckSettlement(s);
    return if ok then Ok(s) else Err(SettlementMismatch);
  }

  /** Reads a package and verifies it. */
  method LoadVerified(name: Text, p: Package) returns (r: Result<SettledDecision, PackageError>)
    ensures r == Load(name, p)
  {
    r := ParsePackage(p);
    if r.Err? {
      return r;
    }
    if p[ManifestFile] != Data(Plain(ManifestOf(r.value))) || name != ArtifactName(r.value) {
      return Err(ManifestMismatch);
    }
    if p[ReportFile] != Markdown(Render(r.value)) {
      return Err(ReportNotReconstructible);
    }
  }

  // ---- round trip ----

  /** Every part passes its own constructor. */
  ghost predicate Writable(s: SettledDecision) {
    && ValidSettlement(s) && ValidReview(s.review)
    && (forall o | o in s.population :: ValidPopulationOutcome(o))
    && (forall o | o in s.outcomes :: ValidRecommendationOutcome(o))
  }

  lemma OutcomesRoundTrip(outcomes: seq<PopulationOutcome>)
    requires forall o | o in outcomes :: ValidPopulationOutcome(o)
    ensures PopulationItems(Data(WriteOutcomes(outcomes))) && PopulationOf(Data(WriteOutcomes(outcomes))) == outcomes
  {
    var items := WriteOutcomes(outcomes).fields.items.elements;
    forall i | 0 <= i < |items| ensures ReadPopulation(items[i]) == Some(outcomes[i]) {
      PopulationRoundTrip(outcomes[i]);
    }
  }

  lemma RecommendationsRoundTrip(outcomes: seq<RecommendationOutcome>)
    requires forall o | o in outcomes :: ValidRecommendationOutcome(o)
    ensures RecommendationItems(Data(WriteRecommendations(outcomes)))
    ensures RecommendationsOf(Data(WriteRecommendations(outcomes))) == outcomes
  {
    var items := WriteRecommendations(outcomes).fields.items.elements;
    forall i | 0 <= i < |items| ensures ReadRecommendation(items[i]) == Some(outcomes[i]) {
      RecommendationRoundTrip(outcomes[i]);
    }
  }

  lemma PackageFiles(s: SettledDecision)
    ensures ChecksumsHold(PackageOf(s))
    ensures PackageOf(s)[ManifestFile] == Data(Plain(ManifestOf(s)))
    ensures PackageOf(s)[ProtocolFile] == Data(ProtocolOf(s.universe))
    ensures PackageOf(s)[PopulationFile] == Data(WriteOutcomes(s.population))
    ensures PackageOf(s)[RecommendationFile] == Data(WriteRecommendations(s.outcomes))
    ensures PackageOf(s)[ReviewFile] == Data(WriteReview(s.review))
    ensures PackageOf(s)[ReportFile] == Markdown(Render(s))
  {
    assert DataFiles(s).Keys == ALL_FILES - {ChecksumFile};
    assert PackageOf(s).Keys == ALL_FILES;
  }

  /** Every file of a printed package is readable, and holds what was printed. */
  lemma PrintedOutcomesRead(s: SettledDecision)
    requires Writable(s)
    ensures PackageOf(s).Keys == ALL_FILES
    ensures PopulationItems(PackageOf(s)[PopulationFile])
    ensures PopulationOf(PackageOf(s)[PopulationFile]) == s.population
    ensures RecommendationItems(PackageOf(s)[RecommendationFile])
    ensures RecommendationsOf(PackageOf(s)[RecommendationFile]) == s.outcomes
  {
    PackageFiles(s);
    OutcomesRoundTrip(s.population);
    RecommendationsRoundTrip(s.outcomes);
  }

  lemma PrintedHeadersRead(s: SettledDecision)
    requires Writable(s)
    ensures ChecksumsHold(PackageOf(s))
    ensures ManifestReadable(PackageOf(s)[ManifestFile]) && ProtocolReadable(PackageOf(s)[ProtocolFile])
    ensures PackageOf(s)[ReviewFile] == Data(WriteReview(s.review))
    ensures ReadReview(WriteReview(s.review)) == Some(s.review)
  {
    PackageFiles(s);
    ReviewRoundTrip(s.review);
  }

  lemma AssembledFromPrinted(s: SettledDecision)
    ensures ManifestReadable(Data(Plain(ManifestOf(s))))
    ensures Assembled(ManifestOf(s), s.universe, s.population, s.outcomes, s.review) == s
    ensures ProtocolOf(s.universe).fields.ProtocolFields? && IsName(ProtocolOf(s.universe).fields.universe)
    ensures NameIn(ProtocolOf(s.universe).fields.universe) == s.universe
  {
  }

  lemma ParsedInvertsPrinted(s: SettledDecision)
    requires Writable(s)
    ensures Parsed(PackageOf(s)) == Ok(s)
  {
    PackageFiles(s);
    PrintedHeadersRead(s);
    PrintedOutcomesRead(s);
    AssembledFromPrinted(s);
  }

  /** Reading a published package returns the settlement it was printed from. */
  lemma LoadInvertsPublish(s: SettledDecision)
    requires Writable(s)
    ensures Load(ArtifactName(s), PackageOf(s)) == Ok(s)
  {
    ParsedInvertsPrinted(s);
    PackageFiles(s);
  }

  /** Whatever the settlement function builds can be published and read back. */
  lemma EverySettlementReadsBack(s: SettledDecision, decision: Bundle, archive: int, p: ProviderResult, session: int)
    requires Settleable(decision, p) && decision.runs != [] && decision.snapshot.Some?
    requires IsSettlementOf(s, decision, archive, p, session)
    ensures Writable(s) && Load(ArtifactName(s), PackageOf(s)) == Ok(s)
  {
    BuiltIsValid(s, decision, archive, p, session);
    OutcomesCover(decision, p, session, Population(decision.runs[0]));
    ReviewIsAccepted(decision, s.population, s.outcomes);
    CarriedIsValid(s.outcomes, decision, decision.recommendations, s.population);
    LoadInvertsPublish(s);
  }

  lemma CarriedIsValid(outcomes: seq<RecommendationOutcome>, decision: Bundle, recs: seq<Recommendation>,
                       population: seq<PopulationOutcome>)
    requires CarriesPopulation(outcomes, decision, recs, population)
    ensures forall o | o in outcomes :: ValidRecommendationOutcome(o)
  {
    forall o | o in outcomes ensures ValidRecommendationOutcome(o) {
      var i :| 0 <= i < |outcomes| && outcomes[i] == o;
      assert Carries(outcomes[i], decision, recs[i], population);
    }
  }

  // ---- what an accepted package must look like ----

  lemma AcceptedOutcomes(c: Content)
    requires PopulationItems(c)
    ensures forall o | o in PopulationOf(c) :: ValidPopulationOutcome(o)
  {
    var items, outcomes := c.json.fields.items.elements, PopulationOf(c);
    forall o | o in outcomes ensures ValidPopulationOutcome(o) {
      var i :| 0 <= i < |outcomes| && outcomes[i] == o;
      assert ReadPopulation(items[i]).Some?;
    }
  }

  lemma AcceptedRecommendations(c: Content)
    requires RecommendationItems(c)
    ensures forall o | o in RecommendationsOf(c) :: ValidRecommendationOutcome(o)
  {
    var items, outcomes := c.json.fields.items.elements, RecommendationsOf(c);
    forall o | o in outcomes ensures ValidRecommendationOutcome(o) {
      var i :| 0 <= i < |outcomes| && outcomes[i] == o;
      assert ReadRecommendation(items[i]).Some?;
    }
  }

  lemma AcceptedIsWritable(p: Package)
    requires Parsed(p).Ok?
    ensures Writable(Parsed(p).value)
  {
    AcceptedOutcomes(p[PopulationFile]);
    AcceptedRecommendations(p[RecommendationFile]);
    ParsedFrom(p);
  }

  /** The same protocol file, but for how its two flags are written. */
  predicate SameButForFlags(c: Content, d: Content) {
    && c.Data? && c.json.Signed? && c.json.fields.ProtocolFields?
    && d.Data? && d.json.Signed? && d.json.fields.ProtocolFields?
    && c.json.contentHash == d.json.contentHash && c.json.identity == d.json.identity
    && c.json.fields.universe == d.json.fields.universe && EqualProtocols(c.json.fields, d.json.fields)
  }

  lemma ParsedProtocol(p: Package)
    requires Parsed(p).Ok?
    ensures SameButForFlags(p[ProtocolFile], Data(ProtocolOf(Parsed(p).value.universe)))
  {
  }

  lemma ParsedFrom(p: Package)
    requires Parsed(p).Ok?
    ensures ChecksumsHold(p)
    ensures var s := Parsed(p).value;
      && s.population == PopulationOf(p[PopulationFile]) && s.outcomes == RecommendationsOf(p[RecommendationFile])
      && s.review == ReadReview(p[ReviewFile].json).value
  {
  }

  /** An accepted package yields a settlement that prints to the same manifest and report, to the same protocol but for
      its flags, and that reads back. */
  lemma AcceptedPackageIsReconstructible(name: Text, p: Package)
    requires Load(name, p).Ok?
    ensures var s := Load(name, p).value;
      && p.Keys == ALL_FILES && name == ArtifactName(s) && Writable(s)
      && p[ManifestFile] == PackageOf(s)[ManifestFile]
      && SameButForFlags(p[ProtocolFile], PackageOf(s)[ProtocolFile])
      && p[ReportFile] == PackageOf(s)[ReportFile]
      && Load(name, PackageOf(s)) == Ok(s)
  {
    var s := Parsed(p).value;
    AcceptedIsWritable(p);
    ParsedProtocol(p);
    PackageFiles(s);
    LoadInvertsPublish(s);
  }

  /** Every value of the protocol and of the three outcome files has the type the writer gives it. */
  ghost predicate PackageAsWritten(p: Package)
    requires Parsed(p).Ok?
  {
    && ProtocolAsWritten(p[ProtocolFile].json.fields)
    && (forall i | 0 <= i < |Items(p[PopulationFile])| :: PopulationAsWritten(Items(p[PopulationFile])[i].fields))
    && (forall i | 0 <= i < |Items(p[RecommendationFile])| ::
          RecommendationAsWritten(Items(p[RecommendationFile])[i].fields))
    && ReviewAsWritten(p[ReviewFile].json.fields)
  }

  predicate ProtocolAsWritten(f: Fields)
    requires f.ProtocolFields?
  {
    f.costAdjusted.Bool? && f.pathRequired.Bool?
  }

  lemma ProtocolFileIff(c: Content, universe: int)
    requires SameButForFlags(c, Data(ProtocolOf(universe)))
    ensures c == Data(ProtocolOf(universe)) <==> ProtocolAsWritten(c.json.fields)
  {
  }

  function Items(c: Content): seq<Json>
    requires c.Data? && c.json.Plain? && c.json.fields.ListFields? && c.json.fields.items.List?
  {
    c.json.fields.items.elements
  }

  lemma PopulationFileIff(c: Content)
    requires PopulationItems(c)
    ensures c == Data(WriteOutcomes(PopulationOf(c)))
            <==> forall i | 0 <= i < |Items(c)| :: PopulationAsWritten(Items(c)[i].fields)
  {
    var again := Data(WriteOutcomes(PopulationOf(c)));
    forall i | 0 <= i < |Items(c)| ensures Items(c)[i] == Items(again)[i] <==> PopulationAsWritten(Items(c)[i].fields) {
      AcceptedObservationIff(Items(c)[i]);
    }
    assert c == again <==> Items(c) == Items(again);
  }

  lemma RecommendationFileIff(c: Content)
    requires RecommendationItems(c)
    ensures c == Data(WriteRecommendations(RecommendationsOf(c)))
            <==> forall i | 0 <= i < |Items(c)| :: RecommendationAsWritten(Items(c)[i].fields)
  {
    var again := Data(WriteRecommendations(RecommendationsOf(c)));
    forall i | 0 <= i < |Items(c)|
      ensures Items(c)[i] == Items(again)[i] <==> RecommendationAsWritten(Items(c)[i].fields)
    {
      AcceptedRecommendationIff(Items(c)[i]);
    }
    assert c == again <==> Items(c) == Items(again);
  }

  lemma SamePackage(p: Package, q: Package)
    requires ChecksumsHold(p) && ChecksumsHold(q)
    requires forall f | f in ALL_FILES && f != ChecksumFile :: p[f] == q[f]
    ensures p == q
  {
    SameMap(p[ChecksumFile].sums, q[ChecksumFile].sums);
    SameMap(p, q);
  }

  /** Two verified packages with one manifest and report are the same exactly when the other four files are. */
  lemma OutcomeFilesDecide(p: Package, q: Package)
    requires ChecksumsHold(p) && ChecksumsHold(q)
    requires p[ManifestFile] == q[ManifestFile] && p[ReportFile] == q[ReportFile]
    ensures p == q <==>
      && p[ProtocolFile] == q[ProtocolFile] && p[PopulationFile] == q[PopulationFile]
      && p[RecommendationFile] == q[RecommendationFile] && p[ReviewFile] == q[ReviewFile]
  {
    if p[ProtocolFile] == q[ProtocolFile] && p[PopulationFile] == q[PopulationFile]
       && p[RecommendationFile] == q[RecommendationFile] && p[ReviewFile] == q[ReviewFile]
    {
      SamePackage(p, q);
    }
  }

  lemma PrintedChecksums(s: SettledDecision)
    ensures ChecksumsHold(PackageOf(s))
  {
    PackageFiles(s);
  }

  /** An accepted package is the published one exactly when no value in it was converted. */
  lemma AcceptedPackageIff(name: Text, p: Package)
    requires Load(name, p).Ok?
    ensures p == PackageOf(Load(name, p).value) <==> PackageAsWritten(p)
  {
    var s := Load(name, p).value;
    AcceptedPackageIsReconstructible(name, p);
    ParsedFrom(p);
    PrintedChecksums(s);
    ParsedProtocol(p);
    OutcomeFilesDecide(p, PackageOf(s));
    OutcomeFilesIff(p, s);
  }

  lemma OutcomeFilesIff(p: Package, s: SettledDecision)
    requires Parsed(p) == Ok(s)
    requires s.population == PopulationOf(p[PopulationFile]) && s.outcomes == RecommendationsOf(p[RecommendationFile])
    requires s.review == ReadReview(p[ReviewFile].json).value
    requires SameButForFlags(p[ProtocolFile], Data(ProtocolOf(s.universe)))
    ensures PackageOf(s).Keys == ALL_FILES
    ensures PackageAsWritten(p) <==>
      && p[ProtocolFile] == PackageOf(s)[ProtocolFile]
      && p[PopulationFile] == PackageOf(s)[PopulationFile]
      && p[RecommendationFile] == PackageOf(s)[RecommendationFile]
      && p[ReviewFile] == PackageOf(s)[ReviewFile]
  {
    PackageFiles(s);
    ProtocolFileIff(p[ProtocolFile], s.universe);
    PopulationFileIff(p[PopulationFile]);
    RecommendationFileIff(p[RecommendationFile]);
    AcceptedReviewIff(p[ReviewFile].json);
  }

  /** A published package with other flags in its protocol, and the checksums computed again. */
  function Reflagged(s: SettledDecision, costAdjusted: Json, pathRequired: Json): Package {
    var fields := ProtocolFields(Str(Named(s.universe)), costAdjusted, pathRequired);
    var files := DataFiles(s)[ProtocolFile := Data(Signed(fields, Str(HashOf(CanonicalProtocol(s.universe))), Null))];
    files[ChecksumFile := Checksums(files)]
  }

  lemma ReflaggedFiles(s: SettledDecision, costAdjusted: Json, pathRequired: Json)
    ensures ChecksumsHold(Reflagged(s, costAdjusted, pathRequired)) && ChecksumsHold(PackageOf(s))
    ensures Reflagged(s, costAdjusted, pathRequired)[ProtocolFile].Data?
    ensures Reflagged(s, costAdjusted, pathRequired)[ProtocolFile].json ==
            Signed(ProtocolFields(Str(Named(s.universe)), costAdjusted, pathRequired),
                   Str(HashOf(CanonicalProtocol(s.universe))), Null)
    ensures forall f | f in ALL_FILES - {ProtocolFile, ChecksumFile} ::
              Reflagged(s, costAdjusted, pathRequired)[f] == PackageOf(s)[f]
  {
    PackageFiles(s);
    var q := Reflagged(s, costAdjusted, pathRequired);
    assert q[ChecksumFile].sums.Keys == ALL_FILES - {ChecksumFile};
    assert q.Keys == ALL_FILES;
  }

  lemma ReflaggedProtocolIff(s: SettledDecision, costAdjusted: Json, pathRequired: Json)
    ensures ProtocolReadable(Reflagged(s, costAdjusted, pathRequired)[ProtocolFile])
            <==> AmountOf(costAdjusted) == Some(0.0) && AmountOf(pathRequired) == Some(0.0)
  {
    ReflaggedFiles(s, costAdjusted, pathRequired);
  }

  lemma ReflaggedParses(s: SettledDecision, p: Package)
    requires Writable(s) && ChecksumsHold(p) && ChecksumsHold(PackageOf(s))
    requires forall f | f in ALL_FILES - {ProtocolFile, ChecksumFile} :: p[f] == PackageOf(s)[f]
    requires ProtocolReadable(p[ProtocolFile]) && NameIn(p[ProtocolFile].json.fields.universe) == s.universe
    ensures Load(ArtifactName(s), p) == Ok(s)
  {
    PackageFiles(s);
    PrintedHeadersRead(s);
    PrintedOutcomesRead(s);
    AssembledFromPrinted(s);
  }

  /** Other flags under new checksums are accepted exactly when they equal false, as zero does. */
  lemma ReflaggedAcceptedIff(s: SettledDecision, costAdjusted: Json, pathRequired: Json)
    requires Writable(s)
    ensures Load(ArtifactName(s), Reflagged(s, costAdjusted, pathRequired)).Ok?
            <==> AmountOf(costAdjusted) == Some(0.0) && AmountOf(pathRequired) == Some(0.0)
    ensures Load(ArtifactName(s), Reflagged(s, costAdjusted, pathRequired)).Ok? ==>
            Load(ArtifactName(s), Reflagged(s, costAdjusted, pathRequired)) == Ok(s)
  {
    ReflaggedFiles(s, costAdjusted, pathRequired);
    ReflaggedProtocolIff(s, costAdjusted, pathRequired);
    if AmountOf(costAdjusted) == Some(0.0) && AmountOf(pathRequired) == Some(0.0) {
      ReflaggedParses(s, Reflagged(s, costAdjusted, pathRequired));
    }
  }

  /** A package that says zero for false is accepted, but it is not the published one. */
  lemma ZeroPassesForFalse(s: SettledDecision)
    requires Writable(s)
    ensures Load(ArtifactName(s), Reflagged(s, Int(0), Bool(false))) == Ok(s)
    ensures Reflagged(s, Int(0), Bool(false)) != PackageOf(s)
  {
    ReflaggedAcceptedIff(s, Int(0), Bool(false));
    ReflaggedFiles(s, Int(0), Bool(false));
    PackageFiles(s);
  }

  lemma StaleChecksum(p: Package, f: FileName, c: Content)
    requires ChecksumsHold(p) && f != ChecksumFile && c != p[f]
    ensures !ChecksumsHold(p[f := c])
  {
    var q := p[f := c];
    assert f in ALL_FILES - {ChecksumFile};
    assert q[ChecksumFile] == p[ChecksumFile];
    assert p[f] == p[ChecksumFile].sums[f];
  }

  /** The checks are not redundant: the same package under another name, or with one file changed, is refused. */
  lemma TamperedPackagesAreRefused(s: SettledDecision, name: Text, f: FileName, c: Content)
    requires Writable(s)
    ensures name != ArtifactName(s) ==> Load(name, PackageOf(s)).Err?
    ensures f != ChecksumFile && c != PackageOf(s)[f] ==> Load(ArtifactName(s), PackageOf(s)[f := c]).Err?
  {
    ParsedInvertsPrinted(s);
    PrintedChecksums(s);
    if f != ChecksumFile && c != PackageOf(s)[f] {
      StaleChecksum(PackageOf(s), f, c);
    }
  }
}
