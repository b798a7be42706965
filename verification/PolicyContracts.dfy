/** Frozen records of the candidate policy evaluator and the checks their constructors make. */
module PolicyContracts {
  import opened Wrappers
  import opened Ordering

  datatype Role = Incumbent | Challenger

  datatype Direction = HigherIsBetter | LowerIsBetter

  datatype Factor = Factor(id: int, direction: Direction, weight: real)

  datatype ContextMode = ScoreAdjustment | ConfidenceAdjustment | RiskCondition

  datatype ContextRule = ContextRule(id: int, weight: real, mode: ContextMode)

  datatype Policy = Policy(
    role: Role,
    factors: seq<Factor>,
    contexts: seq<ContextRule>,
    topK: int,
    minimumLiquidity: real,
    dataset: int)

  function FactorIds(factors: seq<Factor>): seq<int> {
    seq(|factors|, i requires 0 <= i < |factors| => factors[i].id)
  }

  function ContextIds(contexts: seq<ContextRule>): seq<int> {
    seq(|contexts|, i requires 0 <= i < |contexts| => contexts[i].id)
  }

  ghost predicate ValidPolicy(p: Policy) {
    && Increasing(FactorIds(p.factors))
    && Increasing(ContextIds(p.contexts))
    && (p.role == Challenger ==> p.factors != [])
    && (p.role == Incumbent ==> p.factors == [] && p.contexts == [])
    && p.topK > 0
    && p.minimumLiquidity >= 0.0
    && (forall f | f in p.factors :: f.weight == 1.0)
  }

  datatype Reason =
    | Gate(code: int)
    | MinimumLiquidityFailed
    | FactorMissing(factor: int)
    | TopKBoundaryFractionalExposure

  datatype Input = Input(
    session: int,
    symbol: int,
    dataset: int,
    universeEligible: bool,
    tradable: bool,
    suspended: bool,
    dataIntegrity: bool,
    requiredHistory: bool,
    pitCorrect: bool,
    liquidity: real,
    restrictionsSatisfied: bool,
    factorValues: map<int, Option<real>>,
    contextValues: map<int, Option<real>>,
    incumbentScore: Option<real>,
    incumbentSelected: bool,
    incumbentContributions: map<int, real>,
    incumbentEligible: bool,
    incumbentReasons: set<Reason>,
    universalEligible: bool,
    universalReasons: set<Reason>)

  predicate ValidInput(i: Input) {
    && i.liquidity >= 0.0
    && (i.incumbentEligible <==> i.incumbentReasons == {})
    && (i.incumbentSelected ==> i.incumbentEligible && i.incumbentScore.Some?)
    && (i.universalEligible <==> i.universalReasons == {})
    && (i.universalEligible <==>
        i.universeEligible && i.tradable && !i.suspended && i.dataIntegrity && i.requiredHistory
        && i.pitCorrect && i.restrictionsSatisfied)
  }

  datatype Status = HardIneligible | FactorUnavailable | Selected | EligibleNotSelected

  datatype Record = Record(
    session: int,
    symbol: int,
    eligible: bool,
    hardReasons: set<Reason>,
    factorAvailable: bool,
    factorValues: map<int, Option<real>>,
    contributions: map<int, real>,
    alphaScore: Option<real>,
    contextAdjustments: map<int, real>,
    confidenceAdjustments: map<int, real>,
    riskConditions: map<int, real>,
    finalScore: Option<real>,
    rank: Option<int>,
    status: Status,
    weight: real,
    reasons: set<Reason>)

  predicate ValidRecord(r: Record) {
    && 0.0 <= r.weight <= 1.0
    && (r.rank.Some? ==> r.rank.value > 0)
    && (r.status == Selected ==> r.weight > 0.0)
    && (r.status != Selected ==> r.weight == 0.0)
    && (r.eligible <==> r.hardReasons == {})
  }

  /** Session first, then symbol. */
  function InputKey(i: Input): Key {
    Key(0.0, i.session, i.symbol)
  }

  function RecordKey(r: Record): Key {
    Key(0.0, r.session, r.symbol)
  }

  function Pairs(inputs: seq<Input>): seq<(int, int)> {
    seq(|inputs|, i requires 0 <= i < |inputs| => (inputs[i].session, inputs[i].symbol))
  }

  datatype PolicyError =
    | OutsideDataset
    | DuplicateInputs
    | IntegrityDisagrees
    | InvalidRecord
    | BoundaryRejected
    | RecordsOutOfOrder
}
