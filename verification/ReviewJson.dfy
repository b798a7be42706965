/** The canonical JSON of outcomes and reviews, and its readers. A text that the program derives from a content hash
    is modelled by the content it is derived from. */
module ReviewJson {
  import opened Wrappers
  import opened PredictionRuns
  import opened Recommendations
  import opened DecisionBundle
  import opened OutcomeSettlement
  import opened DailyReview
  import opened Settlement

  datatype Schema = PopulationV1 | RecommendationV1 | ReviewV1 | PopulationListV1 | RecommendationListV1 | PackageV1

  /** Spellings tell apart the texts a conversion reads alike; Instant is the form the program writes. */
  datatype Text =
    | Named(name: int)
    | Whole(number: int, spelling: int)
    | Fraction(amount: real, spelling: int)
    | OtherInstant(moment: int, spelling: int)
    | SchemaName(schema: Schema)
    | Status(available: bool)
    | Exploratory
    | Instant(time: int)
    | ReasonText(reason: OutcomeReason)
    | OfBundle(bundle: Bundle)
    | OfRun(run: PredictionRun)
    | OfRecommendation(recommendation: Recommendation)
    | OfOutcome(outcome: PopulationOutcome)
    | OfRecommendationOutcome(recommended: RecommendationOutcome)
    | OfReview(review: Review)
    | OfProvider(provider: ProviderResult)
    | OfSettlement(settlement: SettledDecision)
    | HashOf(content: Fields)

  /** An object by its exact field set; the readers refuse every other field set. */
  datatype Fields =
    | PopulationFields(schema: Json, decision: Json, symbol: Json, target: Json, status: Json, value: Json,
                       observedAt: Json, source: Json, reason: Json, eligibility: Json)
    | RecommendationFields(schema: Json, decision: Json, recommendation: Json, run: Json, model: Json, symbol: Json,
                           target: Json, population: Json, status: Json, value: Json, eligibility: Json)
    | ReviewFields(schema: Json, decision: Json, target: Json, count: Json, coverage: Json, positive: Json,
                   topMean: Json, populationMean: Json, rankingCoverage: Json, quality: Json, blocked: Json,
                   overlap: Json, union: Json,
                   jaccard: Json, unresolved: Json, eligibility: Json)
    | ListFields(schema: Json, items: Json)
    | ProtocolFields(universe: Json, costAdjusted: Json, pathRequired: Json)
    | ManifestFields(schema: Json, artifact: Json, settlement: Json, settlementHash: Json, decision: Json,
                     archive: Json,
                     resultHash: Json, session: Json, target: Json, review: Json, eligibility: Json)
    | OtherFields

  /** A plain object, or one that also carries its content hash and its identity. Where a text is expected, a value of
      another type is modelled by the text the reader converts it to. */
  datatype Json =
    | Null
    | Bool(truth: bool)
    | Int(number: int)
    | Real(amount: real)
    | Str(text: Text)
    | Converted(text: Text)
    | List(elements: seq<Json>)
    | Plain(fields: Fields)
    | Signed(fields: Fields, contentHash: Json, identity: Json)

  // ---- converting readers ----

  /** What a reader takes as text. */
  function TextOf(j: Json): Option<Text> {
    match j
    case Str(t) => Some(t)
    case Converted(t) => Some(t)
    case _ => None
  }

  /** What a reader takes as a fraction: numbers, truth values and number texts. */
  function ReadNumber(j: Json): Option<real> {
    match j
    case Real(x) => Some(x)
    case Int(n) => Some(n as real)
    case Bool(b) => Some(if b then 1.0 else 0.0)
    case Str(Whole(n, _)) => Some(n as real)
    case Str(Fraction(x, _)) => Some(x)
    case _ => None
  }

  function Truncate(x: real): int {
    if x >= 0.0 then x.Floor else -((-x).Floor)
  }

  /** What a reader takes as a count: a fraction is cut towards zero, but a fraction text is refused. */
  function ReadCount(j: Json): Option<int> {
    match j
    case Int(n) => Some(n)
    case Real(x) => Some(Truncate(x))
    case Bool(b) => Some(if b then 1 else 0)
    case Str(Whole(n, _)) => Some(n)
    case _ => None
  }

  function WriteReal(x: Option<real>): Json {
    if x.Some? then Real(x.value) else Null
  }

  /** None outside means unreadable, None inside means null. */
  function ReadOptional(j: Json): Option<Option<real>> {
    if j == Null then Some(None)
    else if ReadNumber(j).Some? then Some(ReadNumber(j)) else None
  }

  function WriteInstant(t: Option<int>): Json {
    if t.Some? then Str(Instant(t.value)) else Null
  }

  function ReadInstant(j: Json): Option<Option<int>> {
    if j == Null then Some(None)
    else match TextOf(j)
      case Some(Instant(t)) => Some(Some(t))
      case Some(OtherInstant(t, _)) => Some(Some(t))
      case _ => None
  }

  function WriteName(n: Option<int>): Json {
    if n.Some? then Str(Named(n.value)) else Null
  }

  function ReadName(j: Json): Option<Option<int>> {
    if j == Null then Some(None)
    else if IsName(j) then Some(Some(NameIn(j))) else None
  }

  function WriteReason(r: Option<OutcomeReason>): Json {
    if r.Some? then Str(ReasonText(r.value)) else Null
  }

  function ReadReason(j: Json): Option<Option<OutcomeReason>> {
    if j == Null then Some(None)
    else match TextOf(j)
      case Some(ReasonText(r)) => Some(Some(r))
      case _ => None
  }

  predicate IsName(j: Json) {
    TextOf(j).Some? && TextOf(j).value.Named?
  }

  function NameIn(j: Json): int
    requires IsName(j)
  {
    TextOf(j).value.name
  }

  predicate IsStatus(j: Json) {
    TextOf(j).Some? && TextOf(j).value.Status?
  }

  predicate IsBundle(j: Json) {
    TextOf(j).Some? && TextOf(j).value.OfBundle?
  }

  function BundleIn(j: Json): Bundle
    requires IsBundle(j)
  {
    TextOf(j).value.bundle
  }

  /** Numbers and truth values as an equality test sees them: false is zero, true is one. */
  function AmountOf(j: Json): Option<real> {
    match j
    case Bool(b) => Some(if b then 1.0 else 0.0)
    case Int(n) => Some(n as real)
    case Real(x) => Some(x)
    case _ => None
  }

  /** Two values of a flat object pass an equality test. */
  predicate PassesAsEqual(a: Json, b: Json) {
    a == b || (AmountOf(a).Some? && AmountOf(a) == AmountOf(b))
  }

  // ---- values in the form the writer gives them ----

  predicate NullOrText(j: Json) {
    j == Null || j.Str?
  }

  predicate NullOrReal(j: Json) {
    j == Null || j.Real?
  }

  predicate NullOrInstant(j: Json) {
    j == Null || (j.Str? && j.text.Instant?)
  }

  // ---- population outcomes ----

  function PopulationPayload(o: PopulationOutcome): Fields {
    PopulationFields(Str(SchemaName(PopulationV1)), Str(OfBundle(o.decision)), Str(Named(o.symbol)),
                     Str(Named(o.target)),
                     Str(Status(o.available)), WriteReal(o.value), WriteInstant(o.observedAt), WriteName(o.source),
                     WriteReason(o.reason), Str(Exploratory))
  }

  function WritePopulation(o: PopulationOutcome): Json {
    Signed(PopulationPayload(o), Str(HashOf(PopulationPayload(o))), Str(OfOutcome(o)))
  }

  predicate PopulationReadable(f: Fields) {
    && f.PopulationFields? && f.schema == Str(SchemaName(PopulationV1))
    && IsBundle(f.decision) && IsName(f.symbol) && IsName(f.target) && IsStatus(f.status)
    && ReadOptional(f.value).Some? && ReadInstant(f.observedAt).Some?
    && ReadName(f.source).Some? && ReadReason(f.reason).Some? && TextOf(f.eligibility) == Some(Exploratory)
  }

  function PopulationFrom(f: Fields): PopulationOutcome
    requires PopulationReadable(f)
  {
    PopulationOutcome(BundleIn(f.decision), NameIn(f.symbol), NameIn(f.target), TextOf(f.status).value.available,
                      ReadOptional(f.value).value, ReadInstant(f.observedAt).value, ReadName(f.source).value,
                      ReadReason(f.reason).value)
  }

  function ReadPopulation(j: Json): Option<PopulationOutcome> {
    if !j.Signed? || !PopulationReadable(j.fields) then None else
      var o := PopulationFrom(j.fields);
      if ValidPopulationOutcome(o) && j.contentHash == Str(HashOf(PopulationPayload(o)))
         && j.identity == Str(OfOutcome(o))
      then Some(o) else None
  }

  lemma PopulationRoundTrip(o: PopulationOutcome)
    requires ValidPopulationOutcome(o)
    ensures ReadPopulation(WritePopulation(o)) == Some(o)
  {
    var f := PopulationPayload(o);
    assert PopulationReadable(f);
    assert PopulationFrom(f) == o;
  }

  /** Every field has the type the writer gives it. */
  predicate PopulationAsWritten(f: Fields)
    requires f.PopulationFields?
  {
    && f.decision.Str? && f.symbol.Str? && f.target.Str? && f.status.Str? && f.eligibility.Str?
    && NullOrReal(f.value) && NullOrInstant(f.observedAt) && NullOrText(f.source) && NullOrText(f.reason)
  }

  /** An accepted observation is the published one exactly when no field was converted. */
  lemma AcceptedObservationIff(j: Json)
    requires ReadPopulation(j).Some?
    ensures j == WritePopulation(ReadPopulation(j).value) <==> PopulationAsWritten(j.fields)
  {
    var o := ReadPopulation(j).value;
    assert o == PopulationFrom(j.fields);
    if PopulationAsWritten(j.fields) {
      assert PopulationPayload(o) == j.fields;
    }
  }

  // ---- recommendation outcomes ----

  function RecommendationPayload(o: RecommendationOutcome): Fields {
    RecommendationFields(Str(SchemaName(RecommendationV1)), Str(OfBundle(o.decision)),
                         Str(OfRecommendation(o.recommendation)),
                         Str(OfRun(o.run)), Str(Named(o.model)), Str(Named(o.symbol)), Str(Named(o.target)),
                         Str(OfOutcome(o.population)), Str(Status(o.available)), WriteReal(o.value), Str(Exploratory))
  }

  function WriteRecommendation(o: RecommendationOutcome): Json {
    Signed(RecommendationPayload(o), Str(HashOf(RecommendationPayload(o))), Str(OfRecommendationOutcome(o)))
  }

  predicate IsRecommendation(j: Json) {
    TextOf(j).Some? && TextOf(j).value.OfRecommendation?
  }

  predicate IsRun(j: Json) {
    TextOf(j).Some? && TextOf(j).value.OfRun?
  }

  predicate IsOutcome(j: Json) {
    TextOf(j).Some? && TextOf(j).value.OfOutcome?
  }

  predicate RecommendationReadable(f: Fields) {
    && f.RecommendationFields? && f.schema == Str(SchemaName(RecommendationV1))
    && IsBundle(f.decision) && IsRecommendation(f.recommendation) && IsRun(f.run)
    && IsName(f.model) && IsName(f.symbol) && IsName(f.target) && IsOutcome(f.population) && IsStatus(f.status)
    && ReadOptional(f.value).Some? && TextOf(f.eligibility) == Some(Exploratory)
  }

  function RecommendationFrom(f: Fields): RecommendationOutcome
    requires RecommendationReadable(f)
  {
    RecommendationOutcome(BundleIn(f.decision), TextOf(f.recommendation).value.recommendation, TextOf(f.run).value.run,
                          NameIn(f.model), NameIn(f.symbol), NameIn(f.target), TextOf(f.population).value.outcome,
                          TextOf(f.status).value.available, ReadOptional(f.value).value)
  }

  function ReadRecommendation(j: Json): Option<RecommendationOutcome> {
    if !j.Signed? || !RecommendationReadable(j.fields) then None else
      var o := RecommendationFrom(j.fields);
      if ValidRecommendationOutcome(o) && j.contentHash == Str(HashOf(RecommendationPayload(o)))
         && j.identity == Str(OfRecommendationOutcome(o))
      then Some(o) else None
  }

  lemma RecommendationRoundTrip(o: RecommendationOutcome)
    requires ValidRecommendationOutcome(o)
    ensures ReadRecommendation(WriteRecommendation(o)) == Some(o)
  {
    var f := RecommendationPayload(o);
    assert RecommendationReadable(f);
    assert RecommendationFrom(f) == o;
  }

  predicate RecommendationAsWritten(f: Fields)
    requires f.RecommendationFields?
  {
    && f.decision.Str? && f.recommendation.Str? && f.run.Str? && f.model.Str? && f.symbol.Str? && f.target.Str?
    && f.population.Str? && f.status.Str? && f.eligibility.Str? && NullOrReal(f.value)
  }

  /** An accepted recommendation outcome is the published one exactly when no field was converted. */
  lemma AcceptedRecommendationIff(j: Json)
    requires ReadRecommendation(j).Some?
    ensures j == WriteRecommendation(ReadRecommendation(j).value) <==> RecommendationAsWritten(j.fields)
  {
    var o := ReadRecommendation(j).value;
    assert o == RecommendationFrom(j.fields);
    if RecommendationAsWritten(j.fields) {
      assert RecommendationPayload(o) == j.fields;
    }
  }

  // ---- counted pairs ----

  function WritePair(p: (int, int)): Json {
    List([Str(Named(p.0)), Int(p.1)])
  }

  function WritePairs(pairs: seq<(int, int)>): Json {
    List(seq(|pairs|, i requires 0 <= i < |pairs| => WritePair(pairs[i])))
  }

  predicate IsPair(j: Json) {
    j.List? && |j.elements| == 2 && IsName(j.elements[0]) && j.elements[1].Int?
  }

  function PairFrom(j: Json): (int, int)
    requires IsPair(j)
  {
    (NameIn(j.elements[0]), j.elements[1].number)
  }

  predicate ArePairs(j: Json) {
    j.List? && forall i | 0 <= i < |j.elements| :: IsPair(j.elements[i])
  }

  function PairsFrom(j: Json): seq<(int, int)>
    requires ArePairs(j)
  {
    seq(|j.elements|, i requires 0 <= i < |j.elements| => PairFrom(j.elements[i]))
  }

  lemma PairRoundTrip(p: (int, int))
    ensures IsPair(WritePair(p)) && PairFrom(WritePair(p)) == p
  {
  }

  lemma PairsRoundTrip(pairs: seq<(int, int)>)
    ensures ArePairs(WritePairs(pairs)) && PairsFrom(WritePairs(pairs)) == pairs
  {
    var j := WritePairs(pairs);
    forall i | 0 <= i < |j.elements| ensures IsPair(j.elements[i]) && PairFrom(j.elements[i]) == pairs[i] {
      PairRoundTrip(pairs[i]);
    }
  }

  // ---- reviews ----

  function ReviewPayload(r: Review): Fields {
    ReviewFields(Str(SchemaName(ReviewV1)), Str(OfBundle(r.decision)), Str(Named(r.target)), Int(r.count),
                 Real(r.coverage),
                 Int(r.positive), WriteReal(r.topMean), WriteReal(r.populationMean), Real(r.rankingCoverage),
                 WritePairs(r.quality), WritePairs(r.blocked), Int(r.overlap), Int(r.union), Real(r.jaccard),
                 Int(r.unresolved), Str(Exploratory))
  }

  function WriteReview(r: Review): Json {
    Signed(ReviewPayload(r), Str(HashOf(ReviewPayload(r))), Str(OfReview(r)))
  }

  predicate ReviewReadable(f: Fields) {
    && f.ReviewFields? && f.schema == Str(SchemaName(ReviewV1)) && IsBundle(f.decision) && IsName(f.target)
    && ReadCount(f.count).Some? && ReadNumber(f.coverage).Some? && ReadCount(f.positive).Some?
    && ReadOptional(f.topMean).Some? && ReadOptional(f.populationMean).Some? && ReadNumber(f.rankingCoverage).Some?
    && ArePairs(f.quality) && ArePairs(f.blocked)
    && ReadCount(f.overlap).Some? && ReadCount(f.union).Some? && ReadNumber(f.jaccard).Some?
    && ReadCount(f.unresolved).Some? && TextOf(f.eligibility) == Some(Exploratory)
  }

  function ReviewFrom(f: Fields): Review
    requires ReviewReadable(f)
  {
    Review(BundleIn(f.decision), NameIn(f.target), ReadCount(f.count).value, ReadNumber(f.coverage).value,
           ReadCount(f.positive).value, ReadOptional(f.topMean).value, ReadOptional(f.populationMean).value,
           ReadNumber(f.rankingCoverage).value, PairsFrom(f.quality), PairsFrom(f.blocked), ReadCount(f.overlap).value,
           ReadCount(f.union).value, ReadNumber(f.jaccard).value, ReadCount(f.unresolved).value)
  }

  ghost function ReadReview(j: Json): Option<Review> {
    if !j.Signed? || !ReviewReadable(j.fields) then None else
      var r := ReviewFrom(j.fields);
      if ValidReview(r) && j.contentHash == Str(HashOf(ReviewPayload(r))) && j.identity == Str(OfReview(r))
      then Some(r) else None
  }

  method ParseReview(j: Json) returns (r: Option<Review>)
    ensures r == ReadReview(j)
  {
    if !j.Signed? || !ReviewReadable(j.fields) {
      return None;
    }
    var review := ReviewFrom(j.fields);
    var ok := CheckReview(review);
    if !ok || j.contentHash != Str(HashOf(ReviewPayload(review))) || j.identity != Str(OfReview(review)) {
      return None;
    }
    return Some(review);
  }

  lemma ReviewRoundTrip(r: Review)
    requires ValidReview(r)
    ensures ReadReview(WriteReview(r)) == Some(r)
  {
    var f := ReviewPayload(r);
    PairsRoundTrip(r.quality);
    PairsRoundTrip(r.blocked);
    assert ReviewReadable(f);
    assert ReviewFrom(f) == r;
  }

  predicate PairsAsWritten(j: Json)
    requires ArePairs(j)
  {
    forall i | 0 <= i < |j.elements| :: j.elements[i].elements[0].Str?
  }

  lemma PairsAsWrittenIff(j: Json)
    requires ArePairs(j)
    ensures j == WritePairs(PairsFrom(j)) <==> PairsAsWritten(j)
  {
    var again := WritePairs(PairsFrom(j));
    assert |again.elements| == |j.elements|;
    if PairsAsWritten(j) {
      forall i | 0 <= i < |j.elements| ensures again.elements[i] == j.elements[i] {
        assert j.elements[i].elements == [j.elements[i].elements[0], j.elements[i].elements[1]];
      }
      assert again.elements == j.elements;
    } else {
      var i :| 0 <= i < |j.elements| && !j.elements[i].elements[0].Str?;
      assert again.elements[i] == WritePair(PairFrom(j.elements[i]));
      assert again.elements[i].elements[0].Str?;
    }
  }

  predicate ReviewAsWritten(f: Fields)
    requires ReviewReadable(f)
  {
    && f.decision.Str? && f.target.Str? && f.eligibility.Str?
    && f.count.Int? && f.positive.Int? && f.overlap.Int? && f.union.Int? && f.unresolved.Int?
    && f.coverage.Real? && f.rankingCoverage.Real? && f.jaccard.Real?
    && NullOrReal(f.topMean) && NullOrReal(f.populationMean)
    && PairsAsWritten(f.quality) && PairsAsWritten(f.blocked)
  }

  /** An accepted review is the published one exactly when no field was converted. */
  lemma AcceptedReviewIff(j: Json)
    requires ReadReview(j).Some?
    ensures j == WriteReview(ReadReview(j).value) <==> ReviewAsWritten(j.fields)
  {
    var r := ReadReview(j).value;
    PairsAsWrittenIff(j.fields.quality);
    PairsAsWrittenIff(j.fields.blocked);
    if ReviewAsWritten(j.fields) {
      assert ReviewPayload(r) == j.fields;
    }
  }
}
