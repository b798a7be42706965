/** Settling a published decision against the next session's 10:30 bars: one outcome per candidate, one per
    recommendation. Identities are the contents they identify; a local time is a number of seconds. */
module OutcomeSettlement {
  import opened Wrappers
  import opened Ordering
  import opened BarHistory
  import opened CandidateRanking
  import opened PredictionRuns
  import opened Recommendations
  import opened EntryPlumbing
  import opened DecisionBundle

  const HALF_PAST_TEN := 37800

  datatype PublicBar = PublicBar(
    symbol: int, time: int, available: Option<int>, source: int,
    open: real, high: real, low: real, close: real, volume: real, amount: real, unadjusted: bool)

  datatype SourcePayload = SourcePayload(source: int, tencent: bool)

  datatype ProviderResult = ProviderResult(payloads: seq<SourcePayload>, bars: seq<PublicBar>)

  datatype OutcomeReason =
    | ReferencePriceUnavailable
    | EndpointBarMissing
    | EndpointAvailableTimeUnknown
    | AdjustmentBasisIncompatible
    | EndpointProviderNotTencent

  datatype PopulationOutcome = PopulationOutcome(
    decision: Bundle, symbol: int, target: int, available: bool,
    value: Option<real>, observedAt: Option<int>, source: Option<int>, reason: Option<OutcomeReason>)

  datatype RecommendationOutcome = RecommendationOutcome(
    decision: Bundle, recommendation: Recommendation, run: PredictionRun, model: int, symbol: int, target: int,
    population: PopulationOutcome, available: bool, value: Option<real>)

  datatype SettlementError = NotPublished | SessionNotLater | PopulationsDisagree | DuplicateEndpoint
    | BarRefused | OutcomeRefused | SymbolOutsidePopulation | ReviewRefused | SettlementRefused

  // ---- constructors ----

  predicate ValidPublicBar(b: PublicBar) {
    && b.open > 0.0 && b.high > 0.0 && b.low > 0.0 && b.close > 0.0
    && b.volume >= 0.0 && b.amount >= 0.0
    && b.low <= b.open && b.low <= b.close && b.low <= b.high
    && b.high >= b.open && b.high >= b.close
  }

  predicate SameBarKey(a: PublicBar, b: PublicBar) {
    a.symbol == b.symbol && a.time == b.time
  }

  /** The provider result's constructor: archived sources, one bar per symbol and instant. */
  ghost predicate ValidProviderResult(p: ProviderResult) {
    && p.payloads != []
    && (forall i, j | 0 <= i < j < |p.payloads| :: p.payloads[i].source != p.payloads[j].source)
    && (forall b | b in p.bars :: ValidPublicBar(b) && exists s :: s in p.payloads && s.source == b.source)
    && (forall i, j | 0 <= i < j < |p.bars| :: !SameBarKey(p.bars[i], p.bars[j]))
  }

  predicate ValidCompositeBar(open: real, high: real, low: real, close: real, volume: real, amount: real) {
    && open > 0.0 && high > 0.0 && low > 0.0 && close > 0.0
    && high >= open && high >= close && low <= open && low <= close && low <= high
    && volume >= 0.0 && amount >= 0.0
  }

  predicate ValidPopulationOutcome(o: PopulationOutcome) {
    && o.target == NEXT_SESSION_1030
    && if o.available then o.value.Some? && o.observedAt.Some? && o.source.Some? && o.reason.None?
       else o.value.None? && o.observedAt.None? && o.reason.Some?
  }

  predicate ValidRecommendationOutcome(o: RecommendationOutcome) {
    o.target == NEXT_SESSION_1030 && (o.available <==> o.value.Some?)
  }

  // ---- the candidate population ----

  function RunSymbols(run: PredictionRun): set<int> {
    Elements(PredictionSymbols(run.predictions)) + Elements(RejectionSymbols(run.rejections))
  }

  /** The candidate population a run covers, in symbol order. */
  function Population(run: PredictionRun): seq<int> {
    SortedSeq(RunSymbols(run))
  }

  function Populations(runs: seq<PredictionRun>): (ps: seq<seq<int>>)
    ensures |ps| == |runs| && forall i | 0 <= i < |runs| :: ps[i] == Population(runs[i])
  {
    seq(|runs|, i requires 0 <= i < |runs| => Population(runs[i]))
  }

  ghost predicate AllSame(ps: seq<seq<int>>) {
    forall i | 0 <= i < |ps| :: ps[i] == ps[0]
  }

  method CommonPopulation(ps: seq<seq<int>>) returns (r: Result<seq<int>, SettlementError>)
    requires ps != []
    ensures r.Ok? <==> AllSame(ps)
    ensures r.Ok? ==> r.value == ps[0]
  {
    var symbols := ps[0];
    for i := 1 to |ps|
      invariant forall j | 0 <= j < i :: ps[j] == symbols
    {
      if ps[i] != symbols {
        return Err(PopulationsDisagree);
      }
    }
    return Ok(symbols);
  }

  // ---- endpoint bars ----

  predicate IsEndpoint(b: PublicBar, session: int) {
    Day(b.time) == session && Clock(b.time) == HALF_PAST_TEN
  }

  /** The first endpoint bar of a symbol. */
  function EndpointOf(bars: seq<PublicBar>, session: int, symbol: int): Option<PublicBar> {
    if bars == [] then None
    else
      var earlier := EndpointOf(bars[..|bars| - 1], session, symbol);
      if earlier.Some? then earlier
      else if IsEndpoint(bars[|bars| - 1], session) && bars[|bars| - 1].symbol == symbol then Some(bars[|bars| - 1])
      else None
  }

  lemma {:induction false} EndpointFound(bars: seq<PublicBar>, session: int, symbol: int)
    ensures EndpointOf(bars, session, symbol).Some? ==>
      var b := EndpointOf(bars, session, symbol).value;
      b in bars && IsEndpoint(b, session) && b.symbol == symbol
    ensures EndpointOf(bars, session, symbol).None? ==>
      forall b | b in bars :: !(IsEndpoint(b, session) && b.symbol == symbol)
  {
    if bars != [] {
      EndpointFound(bars[..|bars| - 1], session, symbol);
      assert bars == bars[..|bars| - 1] + [bars[|bars| - 1]];
    }
  }

  /** Two endpoint bars of one symbol would share their instant, so the duplicate check cannot fire. */
  lemma {:induction false} EndpointsAreUnique(p: ProviderResult, session: int, n: nat)
    requires ValidProviderResult(p) && n < |p.bars| && IsEndpoint(p.bars[n], session)
    ensures EndpointOf(p.bars[..n], session, p.bars[n].symbol).None?
  {
    EndpointFound(p.bars[..n], session, p.bars[n].symbol);
    forall b | b in p.bars[..n] ensures !(IsEndpoint(b, session) && b.symbol == p.bars[n].symbol) {
      var i :| 0 <= i < n && p.bars[i] == b;
      assert !SameBarKey(p.bars[i], p.bars[n]);
    }
  }

  ghost predicate EndpointsOf(endpoints: map<int, PublicBar>, bars: seq<PublicBar>, session: int) {
    forall s :: EndpointOf(bars, session, s) == if s in endpoints then Some(endpoints[s]) else None
  }

  method CollectEndpoints(p: ProviderResult, session: int) returns (r: Result<map<int, PublicBar>, SettlementError>)
    requires ValidProviderResult(p)
    ensures r.Ok? && EndpointsOf(r.value, p.bars, session)
  {
    var endpoints: map<int, PublicBar> := map[];
    for n := 0 to |p.bars|
      invariant EndpointsOf(endpoints, p.bars[..n], session)
    {
      assert p.bars[..n + 1][..n] == p.bars[..n];
      if IsEndpoint(p.bars[n], session) {
        EndpointsAreUnique(p, session, n);
        if p.bars[n].symbol in endpoints {
          return Err(DuplicateEndpoint);
        }
        endpoints := endpoints[p.bars[n].symbol := p.bars[n]];
      }
    }
    assert p.bars[..|p.bars|] == p.bars;
    return Ok(endpoints);
  }

  // ---- one candidate ----

  function PayloadOf(payloads: seq<SourcePayload>, source: int): Option<SourcePayload> {
    if payloads == [] then None
    else if payloads[|payloads| - 1].source == source then Some(payloads[|payloads| - 1])
    else PayloadOf(payloads[..|payloads| - 1], source)
  }

  lemma {:induction false} PayloadFound(payloads: seq<SourcePayload>, source: int)
    requires exists s :: s in payloads && s.source == source
    ensures PayloadOf(payloads, source).Some?
  {
    var s :| s in payloads && s.source == source;
    if payloads[|payloads| - 1].source != source {
      assert s in payloads[..|payloads| - 1];
      PayloadFound(payloads[..|payloads| - 1], source);
    }
  }

  /** The source of an endpoint bar is always found among the archived payloads. */
  lemma {:induction false} EndpointIsArchived(p: ProviderResult, session: int, symbol: int)
    requires ValidProviderResult(p) && EndpointOf(p.bars, session, symbol).Some?
    ensures PayloadOf(p.payloads, EndpointOf(p.bars, session, symbol).value.source).Some?
  {
    EndpointFound(p.bars, session, symbol);
    var b := EndpointOf(p.bars, session, symbol).value;
    assert b in p.bars;
    PayloadFound(p.payloads, b.source);
  }

  predicate FromTencent(p: ProviderResult, source: int) {
    PayloadOf(p.payloads, source).Some? && PayloadOf(p.payloads, source).value.tencent
  }

  /** Why a candidate stays unresolved, in the order the evidence is examined. */
  function Obstacle(reference: Option<real>, endpoint: Option<PublicBar>, p: ProviderResult): Option<OutcomeReason> {
    if reference.None? then Some(ReferencePriceUnavailable)
    else if endpoint.None? then Some(EndpointBarMissing)
    else if endpoint.value.available.None? then Some(EndpointAvailableTimeUnknown)
    else if !endpoint.value.unadjusted then Some(AdjustmentBasisIncompatible)
    else if !FromTencent(p, endpoint.value.source) then Some(EndpointProviderNotTencent)
    else None
  }

  function ReferencePrice(s: Snapshot, symbol: int): Option<real> {
    if ObservationFor(s, symbol).Some? then ObservationFor(s, symbol).value.price else None
  }

  /** Close over reference price minus one, or the first obstacle. */
  function Settled(decision: Bundle, symbol: int, reference: Option<real>, endpoint: Option<PublicBar>,
                   p: ProviderResult): PopulationOutcome
    requires reference.Some? ==> reference.value > 0.0
  {
    var obstacle := Obstacle(reference, endpoint, p);
    if obstacle.None? then
      PopulationOutcome(decision, symbol, NEXT_SESSION_1030, true, Some(endpoint.value.close / reference.value - 1.0),
                        endpoint.value.available, Some(endpoint.value.source), None)
    else
      PopulationOutcome(decision, symbol, NEXT_SESSION_1030, false, None, None,
                        if endpoint.Some? then Some(endpoint.value.source) else None, obstacle)
  }

  lemma {:induction false} ReferenceIsPositive(observations: seq<Observation>, symbol: int)
    requires forall o | o in observations :: o.price.Some? ==> o.price.value > 0.0
    ensures FirstObservation(observations, symbol).Some? ==>
      var o := FirstObservation(observations, symbol).value;
      o.price.Some? ==> o.price.value > 0.0
  {
    if observations != [] && observations[0].symbol != symbol {
      ReferenceIsPositive(observations[1..], symbol);
    }
  }

  ghost function OutcomeOf(decision: Bundle, p: ProviderResult, session: int, symbol: int): PopulationOutcome
    requires decision.snapshot.Some? && ValidSnapshot(decision.snapshot.value)
  {
    ReferenceIsPositive(decision.snapshot.value.observations, symbol);
    Settled(decision, symbol, ReferencePrice(decision.snapshot.value, symbol), EndpointOf(p.bars, session, symbol), p)
  }

  /** The composite bar's constructor accepts every bar the provider's constructor accepts. */
  method MakeCompositeBar(b: PublicBar) returns (r: Result<real, SettlementError>)
    requires ValidPublicBar(b)
    ensures r == Ok(b.close)
  {
    if !ValidCompositeBar(b.open, b.high, b.low, b.close, b.volume, b.amount) {
      return Err(BarRefused);
    }
    return Ok(b.close);
  }

  method SettleSymbol(decision: Bundle, symbol: int, reference: Option<real>, endpoint: Option<PublicBar>,
                      p: ProviderResult)
    returns (r: Result<PopulationOutcome, SettlementError>)
    requires reference.Some? ==> reference.value > 0.0
    requires endpoint.Some? ==> ValidPublicBar(endpoint.value) && PayloadOf(p.payloads, endpoint.value.source).Some?
    ensures r == Ok(Settled(decision, symbol, reference, endpoint, p)) && ValidPopulationOutcome(r.value)
  {
    var reason := Obstacle(reference, endpoint, p);
    var o: PopulationOutcome;
    if reason.None? {
      var close := MakeCompositeBar(endpoint.value);
      o := PopulationOutcome(decision, symbol, NEXT_SESSION_1030, true,
                             Some(endpoint.value.close / reference.value - 1.0),
                             endpoint.value.available, Some(endpoint.value.source), None);
    } else {
      o := PopulationOutcome(decision, symbol, NEXT_SESSION_1030, false, None, None,
                             if endpoint.Some? then Some(endpoint.value.source) else None, reason);
    }
    if !ValidPopulationOutcome(o) {
      return Err(OutcomeRefused);
    }
    return Ok(o);
  }

  // ---- the whole population ----

  ghost function Outcomes(decision: Bundle, p: ProviderResult, session: int,
                          symbols: seq<int>): (o: seq<PopulationOutcome>)
    requires decision.snapshot.Some? && ValidSnapshot(decision.snapshot.value)
    ensures |o| == |symbols| && forall i | 0 <= i < |symbols| :: o[i] == OutcomeOf(decision, p, session, symbols[i])
  {
    seq(|symbols|, i requires 0 <= i < |symbols| => OutcomeOf(decision, p, session, symbols[i]))
  }

  method SettlePopulation(decision: Bundle, p: ProviderResult, session: int, symbols: seq<int>)
    returns (r: Result<seq<PopulationOutcome>, SettlementError>)
    requires decision.snapshot.Some? && ValidSnapshot(decision.snapshot.value)
    requires ValidProviderResult(p)
    ensures r == Ok(Outcomes(decision, p, session, symbols))
  {
    var collected := CollectEndpoints(p, session);
    var endpoints := collected.value;
    var outcomes: seq<PopulationOutcome> := [];
    for i := 0 to |symbols|
      invariant outcomes == Outcomes(decision, p, session, symbols[..i])
    {
      var s := symbols[i];
      var reference := ReferencePrice(decision.snapshot.value, s);
      var endpoint := if s in endpoints then Some(endpoints[s]) else None;
      ReferenceIsPositive(decision.snapshot.value.observations, s);
      EndpointFound(p.bars, session, s);
      assert EndpointOf(p.bars, session, s) == endpoint;
      if endpoint.Some? {
        EndpointIsArchived(p, session, s);
      }
      var one := SettleSymbol(decision, s, reference, endpoint, p);
      assert symbols[..i + 1] == symbols[..i] + [s];
      outcomes := outcomes + [one.value];
    }
    assert symbols[..|symbols|] == symbols;
    return Ok(outcomes);
  }

  // ---- recommendations ----

  function OutcomeFor(outcomes: seq<PopulationOutcome>, symbol: int): Option<PopulationOutcome> {
    if outcomes == [] then None
    else if outcomes[|outcomes| - 1].symbol == symbol then Some(outcomes[|outcomes| - 1])
    else OutcomeFor(outcomes[..|outcomes| - 1], symbol)
  }

  function RecommendationOutcomeOf(decision: Bundle, rec: Recommendation, o: PopulationOutcome): RecommendationOutcome {
    RecommendationOutcome(decision, rec, rec.run, rec.model, rec.symbol, NEXT_SESSION_1030, o, o.available, o.value)
  }

  /** Each recommendation carries the outcome of its symbol in the population. */
  ghost predicate CarriesPopulation(outcomes: seq<RecommendationOutcome>, decision: Bundle, recs: seq<Recommendation>,
                                    population: seq<PopulationOutcome>)
  {
    && |outcomes| == |recs|
    && forall i | 0 <= i < |recs| :: Carries(outcomes[i], decision, recs[i], population)
  }

  ghost predicate Carries(o: RecommendationOutcome, decision: Bundle, rec: Recommendation,
                          population: seq<PopulationOutcome>) {
    && OutcomeFor(population, rec.symbol).Some?
    && o == RecommendationOutcomeOf(decision, rec, OutcomeFor(population, rec.symbol).value)
    && ValidRecommendationOutcome(o)
  }

  lemma {:induction false} OutcomeForFound(outcomes: seq<PopulationOutcome>, symbol: int)
    ensures OutcomeFor(outcomes, symbol).Some? <==> exists o :: o in outcomes && o.symbol == symbol
    ensures OutcomeFor(outcomes, symbol).Some? ==>
      OutcomeFor(outcomes, symbol).value in outcomes && OutcomeFor(outcomes, symbol).value.symbol == symbol
  {
    if outcomes != [] {
      OutcomeForFound(outcomes[..|outcomes| - 1], symbol);
      assert outcomes == outcomes[..|outcomes| - 1] + [outcomes[|outcomes| - 1]];
    }
  }

  method SettleRecommendations(decision: Bundle, recs: seq<Recommendation>, population: seq<PopulationOutcome>)
    returns (r: Result<seq<RecommendationOutcome>, SettlementError>)
    requires forall o | o in population :: ValidPopulationOutcome(o)
    ensures r.Ok? <==> forall rec | rec in recs :: OutcomeFor(population, rec.symbol).Some?
    ensures r.Ok? ==> CarriesPopulation(r.value, decision, recs, population)
  {
    var outcomes: seq<RecommendationOutcome> := [];
    for i := 0 to |recs|
      invariant forall rec | rec in recs[..i] :: OutcomeFor(population, rec.symbol).Some?
      invariant CarriesPopulation(outcomes, decision, recs[..i], population)
    {
      assert recs[i] in recs && recs[..i + 1] == recs[..i] + [recs[i]];
      var found := OutcomeFor(population, recs[i].symbol);
      if found.None? {
        return Err(SymbolOutsidePopulation);
      }
      OutcomeForFound(population, recs[i].symbol);
      outcomes := outcomes + [RecommendationOutcomeOf(decision, recs[i], found.value)];
    }
    assert recs[..|recs|] == recs;
    return Ok(outcomes);
  }
}
