/** Ranking runs over one Candidate dataset: the single-feature baseline and the record contract that every ranking
    run must meet. */
module CandidateRanking {
  import opened Wrappers
  import opened FiniteSums
  import opened Ordering
  import opened CrossSectionalRanking
  import opened TopK

  datatype CellValue = Number(value: real) | NonFinite | NonNumeric

  datatype Cell = Available(content: CellValue) | Unavailable(status: int)

  datatype TargetCell = Observed(outcome: real) | NotObserved(status: int)

  /** One candidate: its cells by feature identity and its target. */
  datatype Row = Row(symbol: int, cells: map<int, Cell>, target: TargetCell)

  datatype Dataset = Dataset(
    id: int,
    eligibility: int,
    universe: int,
    target: int,
    decisionTime: int,
    population: seq<int>,
    features: seq<int>,
    rows: seq<Row>)

  function RowSymbols(rows: seq<Row>): seq<int> {
    seq(|rows|, i requires 0 <= i < |rows| => rows[i].symbol)
  }

  ghost predicate ValidDataset(d: Dataset) {
    && Increasing(d.population)
    && Distinct(d.features)
    && RowSymbols(d.rows) == d.population
    && (forall r | r in d.rows :: r.cells.Keys == Elements(d.features))
  }

  datatype RejectReason = Withheld(status: int) | NotANumber | NotFinite

  datatype Rejection = Rejection(symbol: int, reason: RejectReason, feature: int)

  datatype Prediction = Prediction(symbol: int, score: real, rank: int)

  datatype Run = Run(
    dataset: Dataset,
    candidatePopulation: nat,
    rankedPopulation: nat,
    predictions: seq<Prediction>,
    rejections: seq<Rejection>)

  datatype RankingError = FeatureNotPresent | PredictionRejected | RunRejected

  function PredictionSymbols(ps: seq<Prediction>): seq<int> {
    seq(|ps|, i requires 0 <= i < |ps| => ps[i].symbol)
  }

  function RejectionSymbols(rs: seq<Rejection>): seq<int> {
    seq(|rs|, i requires 0 <= i < |rs| => rs[i].symbol)
  }

  function ScoreMap(ps: seq<Prediction>): map<int, real> {
    if ps == [] then map[] else ScoreMap(ps[..|ps| - 1])[ps[|ps| - 1].symbol := ps[|ps| - 1].score]
  }

  function RankMap(ps: seq<Prediction>): map<int, int> {
    if ps == [] then map[] else RankMap(ps[..|ps| - 1])[ps[|ps| - 1].symbol := ps[|ps| - 1].rank]
  }

  /** The checks of a ranking run's constructor. */
  ghost predicate ValidRun(run: Run) {
    && run.rankedPopulation == |run.predictions|
    && run.candidatePopulation == |run.predictions| + |run.rejections|
    && Distinct(PredictionSymbols(run.predictions) + RejectionSymbols(run.rejections))
    && RankMap(run.predictions) == Ranks(ScoreMap(run.predictions), true)
  }

  method CheckRun(run: Run) returns (ok: bool)
    ensures ok <==> ValidRun(run)
  {
    var symbols := PredictionSymbols(run.predictions) + RejectionSymbols(run.rejections);
    CardinalityDetectsDuplicates(symbols);
    var expected := CompetitionRanks(ScoreMap(run.predictions), true);
    ok := run.rankedPopulation == |run.predictions|
      && run.candidatePopulation == |run.predictions| + |run.rejections|
      && |symbols| == |Elements(symbols)|
      && RankMap(run.predictions) == expected;
  }

  // ---- predictions of a scored population ----

  ghost function PredictionOf(scores: map<int, real>, k: int): Prediction
    requires k in scores
  {
    Prediction(k, scores[k], RankOf(scores, k, true))
  }

  ghost function Along(r: seq<int>, scores: map<int, real>): (ps: seq<Prediction>)
    requires forall i | 0 <= i < |r| :: r[i] in scores
    ensures |ps| == |r| && forall i | 0 <= i < |r| :: ps[i] == PredictionOf(scores, r[i])
  {
    seq(|r|, i requires 0 <= i < |r| => PredictionOf(scores, r[i]))
  }

  /** Predictions from best to worst, ties by symbol, each with its competition rank. */
  ghost function PredictionsOf(scores: map<int, real>): (ps: seq<Prediction>)
    ensures |ps| == |scores|
  {
    RankedKeysMembers(scores, true);
    Along(RankedKeys(scores, true), scores)
  }

  /** The checks of a prediction's constructor. */
  predicate ValidPrediction(p: Prediction, population: int) {
    population > 0 && 0 < p.rank <= population
  }

  lemma PredictionsAreValid(scores: map<int, real>, population: int)
    requires |scores| <= population
    ensures forall p | p in PredictionsOf(scores) :: ValidPrediction(p, population)
  {
    RankedKeysRank(scores, true);
    var r := RankedKeys(scores, true);
    forall p | p in PredictionsOf(scores) ensures ValidPrediction(p, population) {
      var i :| 0 <= i < |r| && PredictionsOf(scores)[i] == p;
      RankAtMostPosition(r, scores, true, i);
    }
  }

  lemma RankedPrediction(scores: map<int, real>, i: nat)
    requires i < |RankedKeys(scores, true)|
    ensures |PredictionsOf(scores)| == |RankedKeys(scores, true)|
    ensures var k := RankedKeys(scores, true)[i];
      k in scores && k in Ranks(scores, true)
      && Prediction(k, scores[k], Ranks(scores, true)[k]) == PredictionsOf(scores)[i]
  {
    RankedKeysMembers(scores, true);
    assert RankedKeys(scores, true)[i] in RankedKeys(scores, true);
  }

  /** Over a population that holds everyone scored, no prediction is ever refused. */
  method MakePredictions(scores: map<int, real>, population: int) returns (made: Result<seq<Prediction>, RankingError>)
    ensures made.Ok? <==> forall p | p in PredictionsOf(scores) :: ValidPrediction(p, population)
    ensures made.Ok? ==> made.value == PredictionsOf(scores)
    ensures |scores| <= population ==> made.Ok?
  {
    var ranks := CompetitionRanks(scores, true);
    var ordered := RankedKeys(scores, true);
    RankedKeysMembers(scores, true);
    if |scores| <= population {
      PredictionsAreValid(scores, population);
    }
    forall i | 0 <= i < |ordered|
      ensures ordered[i] in scores && ordered[i] in ranks
      ensures Prediction(ordered[i], scores[ordered[i]], ranks[ordered[i]]) == PredictionsOf(scores)[i]
    {
      RankedPrediction(scores, i);
    }
    made := ListPredictions(ordered, scores, ranks, population, PredictionsOf(scores));
  }

  method ListPredictions(ordered: seq<int>, scores: map<int, real>, ranks: map<int, int>, population: int,
                         ghost expected: seq<Prediction>)
    returns (made: Result<seq<Prediction>, RankingError>)
    requires |expected| == |ordered|
    requires forall i | 0 <= i < |ordered| :: ordered[i] in scores && ordered[i] in ranks
    requires forall i | 0 <= i < |ordered| ::
      Prediction(ordered[i], scores[ordered[i]], ranks[ordered[i]]) == expected[i]
    ensures made.Ok? <==> forall p | p in expected :: ValidPrediction(p, population)
    ensures made.Ok? ==> made.value == expected
  {
    var ps: seq<Prediction> := [];
    for i := 0 to |ordered|
      invariant ps == expected[..i]
      invariant forall p | p in ps :: ValidPrediction(p, population)
    {
      var p := Prediction(ordered[i], scores[ordered[i]], ranks[ordered[i]]);
      if !ValidPrediction(p, population) {
        assert expected[i] in expected;
        return Err(PredictionRejected);
      }
      ps := ps + [p];
    }
    assert expected[..|ordered|] == expected;
    return Ok(ps);
  }

  ghost predicate ScoresOver(m: map<int, real>, r: seq<int>, scores: map<int, real>) {
    (forall k :: k in m <==> k in r) && forall k | k in m :: k in scores && m[k] == scores[k]
  }

  ghost predicate RanksOver(m: map<int, int>, r: seq<int>, scores: map<int, real>) {
    (forall k :: k in m <==> k in r) && forall k | k in m :: k in scores && m[k] == RankOf(scores, k, true)
  }

  lemma ScoresOverStep(m: map<int, real>, r: seq<int>, scores: map<int, real>, k: int)
    requires ScoresOver(m, r, scores) && k in scores
    ensures ScoresOver(m[k := scores[k]], r + [k], scores)
  {
  }

  lemma RanksOverStep(m: map<int, int>, r: seq<int>, scores: map<int, real>, k: int)
    requires RanksOver(m, r, scores) && k in scores
    ensures RanksOver(m[k := RankOf(scores, k, true)], r + [k], scores)
  {
  }

  lemma {:induction false} MapsOfAppended(ps: seq<Prediction>, p: Prediction)
    ensures ScoreMap(ps + [p]) == ScoreMap(ps)[p.symbol := p.score]
    ensures RankMap(ps + [p]) == RankMap(ps)[p.symbol := p.rank]
  {
    assert (ps + [p])[..|ps|] == ps;
  }

  lemma {:induction false} AlongMaps(r: seq<int>, scores: map<int, real>)
    requires forall i | 0 <= i < |r| :: r[i] in scores
    ensures ScoresOver(ScoreMap(Along(r, scores)), r, scores)
    ensures RanksOver(RankMap(Along(r, scores)), r, scores)
  {
    if r != [] {
      var init, k := r[..|r| - 1], r[|r| - 1];
      AlongMaps(init, scores);
      var ps := Along(init, scores);
      MapsOfAppended(ps, PredictionOf(scores, k));
      ScoresOverStep(ScoreMap(ps), init, scores, k);
      RanksOverStep(RankMap(ps), init, scores, k);
      assert r == init + [k];
      assert Along(r, scores) == ps + [PredictionOf(scores, k)];
    }
  }

  lemma ScoresOverAll(m: map<int, real>, r: seq<int>, scores: map<int, real>)
    requires ScoresOver(m, r, scores)
    requires forall k :: k in r <==> k in scores
    ensures m == scores
  {
    forall k ensures k in m <==> k in scores {
    }
    forall k | k in m && k in scores ensures m[k] == scores[k] {
    }
    SameMap(m, scores);
  }

  lemma RanksOverAll(m: map<int, int>, r: seq<int>, scores: map<int, real>)
    requires RanksOver(m, r, scores)
    requires forall k :: k in r <==> k in scores
    ensures m == Ranks(scores, true)
  {
    var ranks := Ranks(scores, true);
    forall k ensures k in m <==> k in ranks {
    }
    forall k | k in m && k in ranks ensures m[k] == ranks[k] {
    }
    SameMap(m, ranks);
  }

  lemma AlongSymbols(r: seq<int>, scores: map<int, real>)
    requires forall i | 0 <= i < |r| :: r[i] in scores
    ensures PredictionSymbols(Along(r, scores)) == r
  {
    var ps := Along(r, scores);
    assert forall i | 0 <= i < |r| :: ps[i] == PredictionOf(scores, r[i]);
  }

  lemma PredictionsScoreAndRank(scores: map<int, real>)
    ensures ScoreMap(PredictionsOf(scores)) == scores
    ensures RankMap(PredictionsOf(scores)) == Ranks(scores, true)
    ensures PredictionSymbols(PredictionsOf(scores)) == RankedKeys(scores, true)
  {
    RankedKeysMembers(scores, true);
    var r := RankedKeys(scores, true);
    AlongMaps(r, scores);
    AlongSymbols(r, scores);
    ScoresOverAll(ScoreMap(Along(r, scores)), r, scores);
    RanksOverAll(RankMap(Along(r, scores)), r, scores);
  }

  // ---- the single-feature baseline ----

  function Numeric(cell: Cell): Option<real> {
    if cell.Available? && cell.content.Number? then Some(cell.content.value) else None
  }

  function WhyRejected(cell: Cell): RejectReason
    requires Numeric(cell).None?
  {
    match cell
    case Unavailable(status) => Withheld(status)
    case Available(NonFinite) => NotFinite
    case Available(_) => NotANumber
  }

  /** The rankable values of one feature, by symbol. */
  function FeatureScores(rows: seq<Row>, feature: int): map<int, real>
    requires forall r | r in rows :: feature in r.cells
  {
    if rows == [] then map[] else
      var init, last := FeatureScores(rows[..|rows| - 1], feature), rows[|rows| - 1];
      var n := Numeric(last.cells[feature]);
      if n.Some? then init[last.symbol := n.value] else init
  }

  function FeatureRejections(rows: seq<Row>, feature: int): seq<Rejection>
    requires forall r | r in rows :: feature in r.cells
  {
    if rows == [] then [] else
      var init, last := FeatureRejections(rows[..|rows| - 1], feature), rows[|rows| - 1];
      if Numeric(last.cells[feature]).Some? then init
      else init + [Rejection(last.symbol, WhyRejected(last.cells[feature]), feature)]
  }

  lemma RowsKnowFeature(d: Dataset, feature: int)
    requires ValidDataset(d) && feature in d.features
    ensures forall r | r in d.rows :: feature in r.cells
  {
    assert feature in Elements(d.features);
  }

  const REJECTION_KEY: Rejection -> Key := (r: Rejection) => Key(0.0, 0, r.symbol)

  method RankCandidatesByFeature(d: Dataset, feature: int) returns (r: Result<Run, RankingError>)
    requires ValidDataset(d)
    ensures r.Ok? <==> feature in d.features
    ensures r.Ok? ==>
      && (forall x | x in d.rows :: feature in x.cells)
      && r.value == Run(d, |d.population|, |FeatureScores(d.rows, feature)|,
                        PredictionsOf(FeatureScores(d.rows, feature)), FeatureRejections(d.rows, feature))
      && ValidRun(r.value)
  {
    if feature !in d.features {
      return Err(FeatureNotPresent);
    }
    RowsKnowFeature(d, feature);
    var scores, rejections := ScoreRows(d.rows, feature);
    FeatureAccounts(d.rows, feature);
    var predictions := MakePredictions(scores, |d.population|);
    match predictions {
      case Err(e) => return Err(e);
      case Ok(ps) =>
        RejectionsSorted(d, feature);
        SortOfSorted(rejections, REJECTION_KEY);
        var run := Run(d, |d.population|, |ps|, ps, Sort(rejections, REJECTION_KEY));
        FeatureRunIsValid(d, feature);
        var ok := CheckRun(run);
        if !ok {
          return Err(RunRejected);
        }
        return Ok(run);
    }
  }

  method ScoreRows(rows: seq<Row>, feature: int) returns (scores: map<int, real>, rejections: seq<Rejection>)
    requires forall r | r in rows :: feature in r.cells
    ensures scores == FeatureScores(rows, feature)
    ensures rejections == FeatureRejections(rows, feature)
  {
    scores, rejections := map[], [];
    for n := 0 to |rows|
      invariant forall r | r in rows[..n] :: feature in r.cells
      invariant scores == FeatureScores(rows[..n], feature)
      invariant rejections == FeatureRejections(rows[..n], feature)
    {
      assert rows[n] in rows;
      assert rows[..n + 1][..n] == rows[..n];
      var cell := rows[n].cells[feature];
      if Numeric(cell).None? {
        rejections := rejections + [Rejection(rows[n].symbol, WhyRejected(cell), feature)];
      } else {
        scores := scores[rows[n].symbol := Numeric(cell).value];
      }
    }
    assert rows[..|rows|] == rows;
  }

  // ---- population accounting, shared by both rankers ----

  /** Ranked and rejected symbols split the rows, each row on exactly one side. */
  ghost predicate Accounts(symbols: seq<int>, ranked: set<int>, rejections: seq<Rejection>) {
    && |ranked| + |rejections| == |symbols|
    && Increasing(RejectionSymbols(rejections))
    && (forall s | s in RejectionSymbols(rejections) :: s !in ranked && s in symbols)
    && (forall s | s in ranked :: s in symbols)
    && (forall s | s in symbols :: s in ranked || s in RejectionSymbols(rejections))
  }

  lemma AccountedDistinct(ranked: seq<int>, rejected: seq<int>)
    requires Distinct(ranked) && Increasing(rejected)
    requires forall s | s in rejected :: s !in ranked
    ensures Distinct(ranked + rejected)
  {
    var all := ranked + rejected;
    forall i, j | 0 <= i < j < |all| ensures all[i] != all[j] {
      if i < |ranked| <= j {
        assert all[j] == rejected[j - |ranked|] && all[j] in rejected && all[i] in ranked;
      }
    }
  }

  /** The run passes its constructor and preserves the candidate population exactly. */
  lemma AccountedRun(d: Dataset, scores: map<int, real>, rejections: seq<Rejection>)
    requires ValidDataset(d) && Accounts(d.population, scores.Keys, rejections)
    ensures ValidRun(Run(d, |d.population|, |scores|, PredictionsOf(scores), rejections))
    ensures SortedSeq(Elements(PredictionSymbols(PredictionsOf(scores)) + RejectionSymbols(rejections))) == d.population
  {
    PredictionsScoreAndRank(scores);
    RankedKeysMembers(scores, true);
    var ranked, rejected := RankedKeys(scores, true), RejectionSymbols(rejections);
    AccountedDistinct(ranked, rejected);
    assert |scores| == |scores.Keys|;
    var all := Elements(ranked + rejected);
    SortedSetUnique(SortedSeq(all), d.population, all);
  }

  lemma {:induction false} FeatureAccounts(rows: seq<Row>, feature: int)
    requires forall r | r in rows :: feature in r.cells
    requires Increasing(RowSymbols(rows))
    ensures Accounts(RowSymbols(rows), FeatureScores(rows, feature).Keys, FeatureRejections(rows, feature))
  {
    if rows != [] {
      var init, last := rows[..|rows| - 1], rows[|rows| - 1];
      LastSymbolIsLargest(rows);
      FeatureAccounts(init, feature);
      if Numeric(last.cells[feature]).Some? {
        AccountsRanked(RowSymbols(init), FeatureScores(init, feature).Keys, FeatureRejections(init, feature),
                       last.symbol);
      } else {
        AccountsRejected(RowSymbols(init), FeatureScores(init, feature).Keys, FeatureRejections(init, feature),
                         Rejection(last.symbol, WhyRejected(last.cells[feature]), feature));
      }
    }
  }

  ghost predicate AllBelow(symbols: seq<int>, s: int) {
    forall i | 0 <= i < |symbols| :: symbols[i] < s
  }

  lemma LastSymbolIsLargest(rows: seq<Row>)
    requires rows != [] && Increasing(RowSymbols(rows))
    ensures RowSymbols(rows) == RowSymbols(rows[..|rows| - 1]) + [rows[|rows| - 1].symbol]
    ensures Increasing(RowSymbols(rows[..|rows| - 1]))
    ensures AllBelow(RowSymbols(rows[..|rows| - 1]), rows[|rows| - 1].symbol)
  {
    var init, last := rows[..|rows| - 1], rows[|rows| - 1];
    var symbols := RowSymbols(rows);
    assert symbols == RowSymbols(init) + [last.symbol];
    assert forall i | 0 <= i < |init| :: RowSymbols(init)[i] == symbols[i] && symbols[i] < symbols[|init|];
  }

  /** A new largest symbol may join the ranked. */
  lemma AccountsRanked(symbols: seq<int>, ranked: set<int>, rejections: seq<Rejection>, s: int)
    requires Accounts(symbols, ranked, rejections)
    requires AllBelow(symbols, s)
    ensures Accounts(symbols + [s], ranked + {s}, rejections)
  {
    assert s !in symbols;
  }

  /** Or the rejections. */
  lemma AccountsRejected(symbols: seq<int>, ranked: set<int>, rejections: seq<Rejection>, r: Rejection)
    requires Accounts(symbols, ranked, rejections)
    requires AllBelow(symbols, r.symbol)
    ensures Accounts(symbols + [r.symbol], ranked, rejections + [r])
  {
    var before := RejectionSymbols(rejections);
    assert RejectionSymbols(rejections + [r]) == before + [r.symbol];
    forall i | 0 <= i < |before| ensures before[i] < r.symbol {
      assert before[i] in before;
    }
    assert r.symbol !in symbols;
  }

  lemma {:induction false} RejectionsSorted(d: Dataset, feature: int)
    requires ValidDataset(d) && feature in d.features
    ensures forall r | r in d.rows :: feature in r.cells
    ensures Sorted(FeatureRejections(d.rows, feature), REJECTION_KEY)
    ensures KeysDiffer(FeatureRejections(d.rows, feature), REJECTION_KEY)
  {
    RowsKnowFeature(d, feature);
    FeatureAccounts(d.rows, feature);
    IncreasingRejections(FeatureRejections(d.rows, feature));
  }

  lemma IncreasingRejections(rs: seq<Rejection>)
    requires Increasing(RejectionSymbols(rs))
    ensures Sorted(rs, REJECTION_KEY) && KeysDiffer(rs, REJECTION_KEY)
  {
    var symbols := RejectionSymbols(rs);
    assert forall i | 0 <= i < |rs| :: symbols[i] == rs[i].symbol;
    forall x, y | x in rs && y in rs && REJECTION_KEY(x) == REJECTION_KEY(y) ensures x == y {
      var i :| 0 <= i < |rs| && rs[i] == x;
      var j :| 0 <= j < |rs| && rs[j] == y;
      assert symbols[i] == symbols[j];
    }
  }

  lemma {:induction false} FeatureRunIsValid(d: Dataset, feature: int)
    requires ValidDataset(d) && feature in d.features
    ensures forall r | r in d.rows :: feature in r.cells
    ensures var scores, rejections := FeatureScores(d.rows, feature), FeatureRejections(d.rows, feature);
      ValidRun(Run(d, |d.population|, |scores|, PredictionsOf(scores), rejections))
  {
    RowsKnowFeature(d, feature);
    FeatureAccounts(d.rows, feature);
    AccountedRun(d, FeatureScores(d.rows, feature), FeatureRejections(d.rows, feature));
  }
}
