/** Evaluation of one candidate policy over a population of sessions: hard integrity, factor percentiles, context
    adjustment, ranking with ties and fractional Top-K weights. */
module CandidatePolicy {
  import opened Wrappers
  import opened FiniteSums
  import opened Ordering
  import opened CrossSectionalRanking
  import opened BoundarySelection
  import opened PolicyContracts

  function Get(m: map<int, Option<real>>, k: int): Option<real> {
    if k in m then m[k] else None
  }

  function TotalOf(m: map<int, real>): real {
    Sum(m.Keys, k => At(m, k))
  }

  // ---- what one record must be, as a function of the session's population ----

  function HardReasons(policy: Policy, item: Input): set<Reason> {
    if policy.role == Incumbent then item.incumbentReasons
    else item.universalReasons + if item.liquidity < policy.minimumLiquidity then {MinimumLiquidityFailed} else {}
  }

  /** The values of one factor over the candidates that pass hard integrity and have one. */
  function FactorSection(policy: Policy, cross: map<int, Input>, factor: int): map<int, real> {
    map s | s in cross && HardReasons(policy, cross[s]) == {} && Get(cross[s].factorValues, factor).Some? ::
      Get(cross[s].factorValues, factor).value
  }

  /** A ranked candidate is credited with its weighted percentile under the factor's name. */
  function Credit(earlier: map<int, real>, definition: Factor, percentiles: map<int, real>, s: int): map<int, real> {
    if s in percentiles then earlier[definition.id := percentiles[s] * definition.weight] else earlier
  }

  ghost function FactorPercentilesOf(policy: Policy, cross: map<int, Input>, f: Factor): map<int, real> {
    Percentiles(FactorSection(policy, cross, f.id), f.direction == HigherIsBetter)
  }

  ghost function Contributions(policy: Policy, factors: seq<Factor>, cross: map<int, Input>, s: int): map<int, real> {
    if factors == [] then map[] else
      var f := factors[|factors| - 1];
      Credit(Contributions(policy, factors[..|factors| - 1], cross, s), f, FactorPercentilesOf(policy, cross, f), s)
  }

  function Missing(factors: seq<Factor>, item: Input): set<int> {
    set i | 0 <= i < |factors| && Get(item.factorValues, factors[i].id).None? :: factors[i].id
  }

  function Observed(factors: seq<Factor>, item: Input): map<int, Option<real>> {
    map id | id in FactorIds(factors) :: Get(item.factorValues, id)
  }

  function Adjustments(contexts: seq<ContextRule>, mode: ContextMode, item: Input): map<int, real> {
    if contexts == [] then map[] else
      var init := Adjustments(contexts[..|contexts| - 1], mode, item);
      var c := contexts[|contexts| - 1];
      var value := Get(item.contextValues, c.id);
      if c.mode == mode && value.Some? then init[c.id := value.value * c.weight] else init
  }

  function IncumbentRecord(item: Input): Record {
    var eligible := item.incumbentEligible;
    var alpha := if eligible then item.incumbentScore else None;
    var status :=
      if !eligible then HardIneligible
      else if item.incumbentScore.None? then FactorUnavailable
      else if item.incumbentSelected then Selected
      else EligibleNotSelected;
    Record(item.session, item.symbol, eligible, item.incumbentReasons, item.incumbentScore.Some?, item.factorValues,
           if alpha.Some? then item.incumbentContributions else map[],
           alpha, map[], map[], map[], alpha, None, status,
           if item.incumbentSelected then 1.0 else 0.0, item.incumbentReasons)
  }

  function ChallengerRecord(policy: Policy, item: Input, contributions: map<int, real>): Record {
    var hardReasons := HardReasons(policy, item);
    var eligible := hardReasons == {};
    var missing := Missing(policy.factors, item);
    var available := missing == {};
    var scored := eligible && available;
    var alpha := if scored then Some(TotalOf(contributions)) else None;
    var context := if scored then Adjustments(policy.contexts, ScoreAdjustment, item) else map[];
    var confidence := if scored then Adjustments(policy.contexts, ConfidenceAdjustment, item) else map[];
    var risk := if scored then Adjustments(policy.contexts, RiskCondition, item) else map[];
    var final := if scored then Some(alpha.value + TotalOf(context)) else None;
    var status :=
      if !eligible then HardIneligible
      else if !available then FactorUnavailable
      else EligibleNotSelected;
    Record(item.session, item.symbol, eligible, hardReasons, available, Observed(policy.factors, item),
           if scored then contributions else map[],
           alpha, context, confidence, risk, final, None, status, 0.0,
           hardReasons + set id | id in missing :: FactorMissing(id))
  }

  function ProvisionalRecord(policy: Policy, item: Input, contributions: map<int, real>): Record {
    if policy.role == Incumbent then IncumbentRecord(item) else ChallengerRecord(policy, item, contributions)
  }

  ghost function Provisional(policy: Policy, cross: map<int, Input>, s: int): Record
    requires s in cross
  {
    ProvisionalRecord(policy, cross[s],
                      if policy.role == Incumbent then cross[s].incumbentContributions
                      else Contributions(policy, policy.factors, cross, s))
  }

  /** The final scores of the candidates that have one. */
  ghost function Scores(policy: Policy, cross: map<int, Input>): map<int, real> {
    map s | s in cross && Provisional(policy, cross, s).finalScore.Some? ::
      Provisional(policy, cross, s).finalScore.value
  }

  function Finalized(r: Record, rank: Option<int>, weight: real): Record {
    r.(rank := rank,
       weight := weight,
       status := if weight > 0.0 then Selected else r.status,
       reasons := if 0.0 < weight < 1.0 then r.reasons + {TopKBoundaryFractionalExposure} else r.reasons)
  }

  ghost function FinalWeight(policy: Policy, cross: map<int, Input>, s: int): real
    requires s in cross && policy.topK > 0
  {
    if policy.role == Incumbent then Provisional(policy, cross, s).weight
    else At(Weights(Scores(policy, cross), policy.topK, true), s)
  }

  ghost function FinalRecord(policy: Policy, cross: map<int, Input>, s: int): Record
    requires s in cross && policy.topK > 0
  {
    var scores := Scores(policy, cross);
    Finalized(Provisional(policy, cross, s),
              if s in scores then Some(RankOf(scores, s, true)) else None,
              FinalWeight(policy, cross, s))
  }

  // ---- one session ----

  /** The session's inputs by symbol. */
  function CrossOf(items: seq<Input>): map<int, Input> {
    if items == [] then map[] else
      CrossOf(items[..|items| - 1])[items[|items| - 1].symbol := items[|items| - 1]]
  }

  function Symbols(items: seq<Input>): seq<int> {
    seq(|items|, i requires 0 <= i < |items| => items[i].symbol)
  }

  lemma {:induction false} CrossLookup(items: seq<Input>)
    requires Distinct(Symbols(items))
    ensures forall i | 0 <= i < |items| ::
      items[i].symbol in CrossOf(items) && CrossOf(items)[items[i].symbol] == items[i]
    ensures forall s | s in CrossOf(items) ::
      s in Symbols(items) && CrossOf(items)[s] in items && CrossOf(items)[s].symbol == s
  {
    if items != [] {
      var init, last := items[..|items| - 1], items[|items| - 1];
      assert Symbols(items) == Symbols(init) + [last.symbol];
      assert Distinct(Symbols(init)) by {
        assert forall i | 0 <= i < |init| :: Symbols(init)[i] == Symbols(items)[i];
      }
      CrossLookup(init);
      forall i | 0 <= i < |items|
        ensures items[i].symbol in CrossOf(items) && CrossOf(items)[items[i].symbol] == items[i]
      {
        if i < |init| {
          assert items[i] == init[i];
          assert Symbols(items)[i] != Symbols(items)[|init|];
        }
      }
    }
  }

  method FactorPercentiles(policy: Policy, cross: map<int, Input>, integrity: map<int, set<Reason>>, definition: Factor)
    returns (percentiles: map<int, real>)
    requires integrity == map s | s in cross :: HardReasons(policy, cross[s])
    ensures percentiles == FactorPercentilesOf(policy, cross, definition)
  {
    var available := map s | s in cross && integrity[s] == {} && Get(cross[s].factorValues, definition.id).Some? ::
      Get(cross[s].factorValues, definition.id).value;
    assert available == FactorSection(policy, cross, definition.id);
    percentiles := RankPercentiles(available, definition.direction == HigherIsBetter);
  }

  lemma {:induction false} ContributionStep(policy: Policy, factors: seq<Factor>, n: nat, cross: map<int, Input>,
                                            s: int, percentiles: map<int, real>)
    requires n < |factors|
    requires percentiles == FactorPercentilesOf(policy, cross, factors[n])
    ensures Contributions(policy, factors[..n + 1], cross, s) ==
            Credit(Contributions(policy, factors[..n], cross, s), factors[n], percentiles, s)
  {
    var longer := factors[..n + 1];
    assert longer[..|longer| - 1] == factors[..n] && longer[|longer| - 1] == factors[n];
  }

  /** The contributions of the whole session from a list of factors. */
  ghost function ContributionTable(policy: Policy, factors: seq<Factor>, cross: map<int, Input>)
    : map<int, map<int, real>>
  {
    map s | s in cross :: Contributions(policy, factors, cross, s)
  }

  lemma NoContributions(policy: Policy, cross: map<int, Input>)
    ensures ContributionTable(policy, policy.factors[..0], cross) == map s | s in cross :: map[]
  {
  }

  /** One more factor extends every candidate's contributions. */
  lemma TableStep(policy: Policy, n: nat, cross: map<int, Input>, percentiles: map<int, real>,
                  table: map<int, map<int, real>>)
    requires n < |policy.factors| && percentiles == FactorPercentilesOf(policy, cross, policy.factors[n])
    requires table == ContributionTable(policy, policy.factors[..n], cross) && table.Keys == cross.Keys
    ensures (map s | s in cross :: Credit(table[s], policy.factors[n], percentiles, s))
         == ContributionTable(policy, policy.factors[..n + 1], cross)
  {
    forall s | s in cross
      ensures Contributions(policy, policy.factors[..n + 1], cross, s)
              == Credit(Contributions(policy, policy.factors[..n], cross, s), policy.factors[n], percentiles, s)
    {
      ContributionStep(policy, policy.factors, n, cross, s, percentiles);
    }
  }

  method FactorContributions(policy: Policy, cross: map<int, Input>, integrity: map<int, set<Reason>>)
    returns (result: map<int, map<int, real>>)
    requires integrity == map s | s in cross :: HardReasons(policy, cross[s])
    ensures result == ContributionTable(policy, policy.factors, cross)
  {
    result := map s | s in cross :: map[];
    NoContributions(policy, cross);
    for n := 0 to |policy.factors|
      invariant result == ContributionTable(policy, policy.factors[..n], cross)
    {
      var percentiles := FactorPercentiles(policy, cross, integrity, policy.factors[n]);
      assert result.Keys == cross.Keys;
      TableStep(policy, n, cross, percentiles, result);
      result := map s | s in cross :: Credit(result[s], policy.factors[n], percentiles, s);
    }
    assert policy.factors[..|policy.factors|] == policy.factors;
  }

  /** The record constructor: it raises unless every check passes. */
  method MakeRecord(r: Record) returns (made: Result<Record, PolicyError>)
    ensures made == if ValidRecord(r) then Ok(r) else Err(InvalidRecord)
  {
    if ValidRecord(r) {
      return Ok(r);
    }
    return Err(InvalidRecord);
  }

  lemma ProvisionalIsValid(policy: Policy, item: Input, contributions: map<int, real>)
    requires ValidInput(item)
    ensures ValidRecord(ProvisionalRecord(policy, item, contributions))
  {
  }

  ghost predicate ValidCross(cross: map<int, Input>) {
    forall s | s in cross :: cross[s].symbol == s && ValidInput(cross[s])
  }

  ghost function SessionRecords(policy: Policy, items: seq<Input>): seq<Record>
    requires Distinct(Symbols(items)) && policy.topK > 0
  {
    CrossLookup(items);
    seq(|items|, i requires 0 <= i < |items| => FinalRecord(policy, CrossOf(items), items[i].symbol))
  }

  ghost function ProvisionalRecords(policy: Policy, items: seq<Input>): seq<Record>
    requires Distinct(Symbols(items))
  {
    CrossLookup(items);
    seq(|items|, i requires 0 <= i < |items| => Provisional(policy, CrossOf(items), items[i].symbol))
  }

  lemma IntegrityAgrees(policy: Policy, item: Input)
    requires ValidInput(item)
    ensures (if policy.role == Incumbent then item.incumbentEligible else HardReasons(policy, item) == {})
            <==> HardReasons(policy, item) == {}
  {
  }

  /** The first pass over one item, given its entry of the session's contributions. */
  lemma {:induction false} ProvisionalAt(policy: Policy, items: seq<Input>, n: nat)
    requires Distinct(Symbols(items)) && n < |items| && ValidInput(items[n])
    ensures items[n].symbol in CrossOf(items) && CrossOf(items)[items[n].symbol] == items[n]
    ensures var contributions := if policy.role == Incumbent then items[n].incumbentContributions
                                 else Contributions(policy, policy.factors, CrossOf(items), items[n].symbol);
      ProvisionalRecords(policy, items)[n] == ProvisionalRecord(policy, items[n], contributions)
  {
    CrossLookup(items);
  }

  method ProvisionalPass(policy: Policy, items: seq<Input>) returns (r: Result<seq<Record>, PolicyError>)
    requires Distinct(Symbols(items)) && forall i | 0 <= i < |items| :: ValidInput(items[i])
    ensures r == Ok(ProvisionalRecords(policy, items))
  {
    var cross := CrossOf(items);
    var integrity := map s | s in cross :: HardReasons(policy, cross[s]);
    var contributions: map<int, map<int, real>>;
    if policy.role == Incumbent {
      contributions := map s | s in cross :: cross[s].incumbentContributions;
    } else {
      contributions := FactorContributions(policy, cross, integrity);
    }
    var provisional: seq<Record> := [];
    for n := 0 to |items|
      invariant |provisional| == n
      invariant forall i | 0 <= i < n :: provisional[i] == ProvisionalRecords(policy, items)[i]
    {
      var item := items[n];
      IntegrityAgrees(policy, item);
      ProvisionalAt(policy, items, n);
      var hardReasons := integrity[item.symbol];
      var hardEligible := if policy.role == Incumbent then item.incumbentEligible else hardReasons == {};
      if hardEligible == (hardReasons != {}) {
        return Err(IntegrityDisagrees);
      }
      ProvisionalIsValid(policy, item, contributions[item.symbol]);
      var made := MakeRecord(ProvisionalRecord(policy, item, contributions[item.symbol]));
      match made {
        case Err(e) => return Err(e);
        case Ok(record) => provisional := provisional + [record];
      }
    }
    assert provisional == ProvisionalRecords(policy, items);
    return Ok(provisional);
  }

  function ScoreBySymbol(records: seq<Record>): map<int, real> {
    if records == [] then map[] else
      var init, last := ScoreBySymbol(records[..|records| - 1]), records[|records| - 1];
      if last.finalScore.Some? then init[last.symbol := last.finalScore.value] else init
  }

  function RecordSymbols(records: seq<Record>): seq<int> {
    seq(|records|, i requires 0 <= i < |records| => records[i].symbol)
  }

  lemma {:induction false} ScoreLookup(records: seq<Record>)
    requires Distinct(RecordSymbols(records))
    ensures forall i | 0 <= i < |records| ::
      && (records[i].symbol in ScoreBySymbol(records) <==> records[i].finalScore.Some?)
      && (records[i].finalScore.Some? ==> ScoreBySymbol(records)[records[i].symbol] == records[i].finalScore.value)
    ensures forall s | s in ScoreBySymbol(records) :: s in RecordSymbols(records)
  {
    if records != [] {
      var init, last := records[..|records| - 1], records[|records| - 1];
      var symbols := RecordSymbols(records);
      assert symbols == RecordSymbols(init) + [last.symbol];
      assert Distinct(RecordSymbols(init)) by {
        assert forall i | 0 <= i < |init| :: RecordSymbols(init)[i] == symbols[i];
      }
      ScoreLookup(init);
      assert last.symbol !in RecordSymbols(init) by {
        assert forall i | 0 <= i < |init| :: RecordSymbols(init)[i] == symbols[i] && symbols[i] != symbols[|init|];
      }
      forall i | 0 <= i < |records|
        ensures (records[i].symbol in ScoreBySymbol(records) <==> records[i].finalScore.Some?)
        ensures records[i].finalScore.Some? ==> ScoreBySymbol(records)[records[i].symbol] == records[i].finalScore.value
      {
        if i < |init| {
          assert records[i] == init[i] && symbols[i] != symbols[|init|];
        }
      }
    }
  }

  lemma {:induction false} ScoreBySymbolIsScores(policy: Policy, items: seq<Input>)
    requires Distinct(Symbols(items))
    ensures ScoreBySymbol(ProvisionalRecords(policy, items)) == Scores(policy, CrossOf(items))
  {
    var records := ProvisionalRecords(policy, items);
    CrossLookup(items);
    assert RecordSymbols(records) == Symbols(items);
    ScoreLookup(records);
    var found, expected := ScoreBySymbol(records), Scores(policy, CrossOf(items));
    forall s ensures s in found <==> s in expected
             ensures s in found && s in expected ==> found[s] == expected[s] {
      if s in CrossOf(items) {
        var i :| 0 <= i < |items| && Symbols(items)[i] == s;
        assert records[i].symbol == s;
      }
    }
    SameMap(found, expected);
  }

  lemma FinalIsValid(policy: Policy, cross: map<int, Input>, s: int)
    requires ValidPolicy(policy) && ValidCross(cross) && s in cross
    ensures ValidRecord(FinalRecord(policy, cross, s))
  {
    var r := Provisional(policy, cross, s);
    ProvisionalIsValid(policy, cross[s], r.contributions);
    var scores := Scores(policy, cross);
    BoundaryWeightsAreFair(scores, policy.topK, true);
  }

  method SelectionWeights(policy: Policy, scores: map<int, real>) returns (r: Result<map<int, real>, PolicyError>)
    requires policy.topK > 0
    ensures policy.role == Challenger ==> r == Ok(Weights(scores, policy.topK, true))
    ensures r.Ok?
  {
    if scores != map[] && policy.role == Challenger {
      CappedSlots(scores, policy.topK, true);
      var boundary := FractionalBoundaryWeights(scores, Min(policy.topK, |scores|), true);
      match boundary {
        case Err(e) => return Err(BoundaryRejected);
        case Ok(selection) => return Ok(selection.weights);
      }
    }
    return Ok(map[]);
  }

  /** A provisional record completed with its rank and weight. */
  function Completed(role: Role, record: Record, ranks: map<int, int>, weights: map<int, real>): Record {
    Finalized(record,
              if record.symbol in ranks then Some(ranks[record.symbol]) else None,
              if role == Incumbent then record.weight else At(weights, record.symbol))
  }

  method FinalLoop(role: Role, provisional: seq<Record>, ranks: map<int, int>, weights: map<int, real>,
                   ghost expected: seq<Record>)
    returns (r: Result<seq<Record>, PolicyError>)
    requires |expected| == |provisional|
    requires forall i | 0 <= i < |provisional| :: Completed(role, provisional[i], ranks, weights) == expected[i]
    requires forall i | 0 <= i < |expected| :: ValidRecord(expected[i])
    ensures r == Ok(expected)
  {
    var records: seq<Record> := [];
    for n := 0 to |provisional|
      invariant records == expected[..n]
    {
      var made := MakeRecord(Completed(role, provisional[n], ranks, weights));
      match made {
        case Err(e) => return Err(e);
        case Ok(done) => records := records + [done];
      }
    }
    assert expected[..|expected|] == expected;
    return Ok(records);
  }

  method FinalPass(policy: Policy, items: seq<Input>, provisional: seq<Record>)
    returns (r: Result<seq<Record>, PolicyError>)
    requires ValidPolicy(policy)
    requires Distinct(Symbols(items)) && forall i | 0 <= i < |items| :: ValidInput(items[i])
    requires provisional == ProvisionalRecords(policy, items)
    ensures r == Ok(SessionRecords(policy, items))
  {
    var scores := ScoreBySymbol(provisional);
    ScoreBySymbolIsScores(policy, items);
    var ranks := CompetitionRanks(scores, true);
    var selection := SelectionWeights(policy, scores);
    match selection {
      case Err(e) => return Err(e);
      case Ok(weights) =>
        ghost var expected := SessionRecords(policy, items);
        forall i | 0 <= i < |items|
          ensures Completed(policy.role, provisional[i], ranks, weights) == expected[i] && ValidRecord(expected[i])
        {
          CompletedIsFinal(policy, items, i, scores, ranks, weights);
        }
        r := FinalLoop(policy.role, provisional, ranks, weights, expected);
    }
  }

  lemma {:induction false} CompletedIsFinal(policy: Policy, items: seq<Input>, i: nat, scores: map<int, real>,
                                            ranks: map<int, int>, weights: map<int, real>)
    requires ValidPolicy(policy) && i < |items|
    requires Distinct(Symbols(items)) && forall j | 0 <= j < |items| :: ValidInput(items[j])
    requires scores == Scores(policy, CrossOf(items))
    requires ranks == Ranks(scores, true)
    requires policy.role == Challenger ==> weights == Weights(scores, policy.topK, true)
    ensures Completed(policy.role, ProvisionalRecords(policy, items)[i], ranks, weights)
         == SessionRecords(policy, items)[i]
    ensures ValidRecord(SessionRecords(policy, items)[i])
  {
    CrossLookup(items);
    FinalIsValid(policy, CrossOf(items), items[i].symbol);
    CompletedOne(policy, CrossOf(items), items[i].symbol, scores, ranks, weights);
  }

  lemma CompletedOne(policy: Policy, cross: map<int, Input>, s: int,
                     scores: map<int, real>, ranks: map<int, int>, weights: map<int, real>)
    requires policy.topK > 0 && s in cross && cross[s].symbol == s
    requires scores == Scores(policy, cross)
    requires ranks == Ranks(scores, true)
    requires policy.role == Challenger ==> weights == Weights(scores, policy.topK, true)
    ensures Completed(policy.role, Provisional(policy, cross, s), ranks, weights) == FinalRecord(policy, cross, s)
  {
    assert Provisional(policy, cross, s).symbol == s;
  }
}
