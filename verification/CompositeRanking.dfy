/** The transparent composite: a weighted mean of per-feature percentiles over the candidates whose features are all
    usable. Feature identities are ordered integers. */
module CompositeRanking {
  import opened Wrappers
  import opened Ordering
  import opened CrossSectionalRanking
  import opened CandidateRanking

  datatype Component = Component(feature: int, higher: bool, weight: real)

  datatype CompositeError = NoComponent | WeightNotPositive | DuplicateFeature | MissingFeature
    | PredictionRefused | RunRefused

  datatype CompositeRun = CompositeRun(base: Run, components: seq<int>)

  function Features(cs: seq<Component>): seq<int> {
    seq(|cs|, i requires 0 <= i < |cs| => cs[i].feature)
  }

  ghost predicate ValidSpec(cs: seq<Component>) {
    && cs != []
    && Distinct(Features(cs))
    && forall c | c in cs :: c.weight > 0.0
  }

  /** The constructors of a component and of the specification, in the order they raise. */
  method CheckSpec(cs: seq<Component>) returns (fault: Option<CompositeError>)
    ensures fault.None? <==> ValidSpec(cs)
    ensures fault == Some(WeightNotPositive) <==> exists c :: c in cs && c.weight <= 0.0
  {
    if c :| c in cs && c.weight <= 0.0 {
      return Some(WeightNotPositive);
    }
    if cs == [] {
      return Some(NoComponent);
    }
    CardinalityDetectsDuplicates(Features(cs));
    if |Features(cs)| != |Elements(Features(cs))| {
      return Some(DuplicateFeature);
    }
    return None;
  }

  const FEATURE_KEY: Component -> Key := (c: Component) => Key(0.0, 0, c.feature)

  function OrderedComponents(cs: seq<Component>): seq<Component> {
    Sort(cs, FEATURE_KEY)
  }

  function TotalWeight(cs: seq<Component>): real {
    if cs == [] then 0.0 else TotalWeight(cs[..|cs| - 1]) + cs[|cs| - 1].weight
  }

  // ---- complete cases ----

  function NumberAt(cells: map<int, Cell>, feature: int): Option<real> {
    if feature in cells then Numeric(cells[feature]) else None
  }

  /** The first component, in order, whose cell is not usable. */
  function FirstFault(cells: map<int, Cell>, cs: seq<Component>): Option<int> {
    if cs == [] then None
    else if NumberAt(cells, cs[0].feature).None? then Some(cs[0].feature)
    else FirstFault(cells, cs[1..])
  }

  function ValuesOf(cells: map<int, Cell>, cs: seq<Component>): map<int, real> {
    if cs == [] then map[] else
      var init, f := ValuesOf(cells, cs[..|cs| - 1]), cs[|cs| - 1].feature;
      var v := NumberAt(cells, f);
      if v.Some? then init[f := v.value] else init
  }

  function CompleteValues(rows: seq<Row>, cs: seq<Component>): map<int, map<int, real>> {
    if rows == [] then map[] else
      var init, last := CompleteValues(rows[..|rows| - 1], cs), rows[|rows| - 1];
      if FirstFault(last.cells, cs).None? then init[last.symbol := ValuesOf(last.cells, cs)] else init
  }

  function FaultReason(cells: map<int, Cell>, feature: int): RejectReason {
    if feature in cells && Numeric(cells[feature]).None? then WhyRejected(cells[feature]) else NotANumber
  }

  function CompositeRejections(rows: seq<Row>, cs: seq<Component>): seq<Rejection> {
    if rows == [] then [] else
      var init, last := CompositeRejections(rows[..|rows| - 1], cs), rows[|rows| - 1];
      var fault := FirstFault(last.cells, cs);
      if fault.None? then init
      else init + [Rejection(last.symbol, FaultReason(last.cells, fault.value), fault.value)]
  }

  // ---- scores ----

  /** The cross section of one feature over the complete cases. */
  function Section(complete: map<int, map<int, real>>, feature: int): map<int, real> {
    map s | s in complete :: At(complete[s], feature)
  }

  /** What one component sees in one complete case. */
  ghost function Part(complete: map<int, map<int, real>>, c: Component, s: int): real {
    if s in complete then Percentile(Section(complete, c.feature), s, c.higher) else 0.0
  }

  ghost function Parts(complete: map<int, map<int, real>>, s: int): Component -> real {
    (c: Component) => Part(complete, c, s)
  }

  /** A component's share of the score. */
  function Weighed(weight: real, total: real, x: real): real
    requires total > 0.0
  {
    weight / total * x
  }

  ghost function WeightedSum(cs: seq<Component>, total: real, p: Component -> real): real
    requires total > 0.0
  {
    if cs == [] then 0.0 else
      WeightedSum(cs[..|cs| - 1], total, p) + Weighed(cs[|cs| - 1].weight, total, p(cs[|cs| - 1]))
  }

  lemma {:induction false} TotalWeightPositive(cs: seq<Component>)
    requires forall c | c in cs :: c.weight > 0.0
    ensures TotalWeight(cs) >= 0.0
    ensures cs != [] ==> TotalWeight(cs) > 0.0
  {
    if cs != [] {
      TotalWeightPositive(cs[..|cs| - 1]);
    }
  }

  lemma OrderedSpec(cs: seq<Component>)
    requires ValidSpec(cs)
    ensures ValidSpec(OrderedComponents(cs))
    ensures forall c :: c in OrderedComponents(cs) <==> c in cs
    ensures TotalWeight(OrderedComponents(cs)) > 0.0
  {
    var o := OrderedComponents(cs);
    SameMembers(cs, o);
    FeatureKeysDiffer(cs);
    KeysDifferPermutation(cs, o, FEATURE_KEY);
    DistinctFromFeatures(cs);
    PermutationDistinct(cs, o);
    FeaturesFromDistinct(o);
    TotalWeightPositive(o);
  }

  lemma FeatureKeysDiffer(cs: seq<Component>)
    requires Distinct(Features(cs))
    ensures KeysDiffer(cs, FEATURE_KEY)
  {
    var fs := Features(cs);
    forall x, y | x in cs && y in cs && FEATURE_KEY(x) == FEATURE_KEY(y) ensures x == y {
      var i :| 0 <= i < |cs| && cs[i] == x;
      var j :| 0 <= j < |cs| && cs[j] == y;
      assert fs[i] == fs[j];
    }
  }

  lemma DistinctFromFeatures(cs: seq<Component>)
    requires Distinct(Features(cs))
    ensures Distinct(cs)
  {
    var fs := Features(cs);
    assert forall i | 0 <= i < |cs| :: fs[i] == cs[i].feature;
  }

  lemma FeaturesFromDistinct(cs: seq<Component>)
    requires Distinct(cs) && KeysDiffer(cs, FEATURE_KEY)
    ensures Distinct(Features(cs))
  {
    var fs := Features(cs);
    forall i, j | 0 <= i < j < |fs| ensures fs[i] != fs[j] {
      assert cs[i] in cs && cs[j] in cs && cs[i] != cs[j];
    }
  }

  /** The composite score of every complete case. */
  ghost function CompositeScores(rows: seq<Row>, ordered: seq<Component>): map<int, real>
    requires TotalWeight(ordered) > 0.0
  {
    var complete := CompleteValues(rows, ordered);
    map s | s in complete :: WeightedSum(ordered, TotalWeight(ordered), Parts(complete, s))
  }

  ghost function OrderedComposite(d: Dataset, ordered: seq<Component>): CompositeRun
    requires TotalWeight(ordered) > 0.0
  {
    var scores := CompositeScores(d.rows, ordered);
    CompositeRun(
      Run(d, |d.population|, |scores|, PredictionsOf(scores), CompositeRejections(d.rows, ordered)),
      Features(ordered))
  }

  /** The ranking a dataset and a specification determine. */
  ghost function Composite(d: Dataset, cs: seq<Component>): CompositeRun
    requires ValidSpec(cs)
  {
    OrderedSpec(cs);
    OrderedComposite(d, OrderedComponents(cs))
  }

  ghost predicate ValidCompositeRun(run: CompositeRun) {
    run.components != [] && Distinct(run.components) && ValidRun(run.base)
  }

  ghost predicate FeaturesPresent(d: Dataset, cs: seq<Component>) {
    forall c | c in cs :: c.feature in d.features
  }

  ghost predicate CellsKnown(rows: seq<Row>, cs: seq<Component>) {
    forall r, c | r in rows && c in cs :: c.feature in r.cells
  }

  // ---- the ranker ----

  method CompleteCase(row: Row, ordered: seq<Component>) returns (values: map<int, real>, rejection: Option<Rejection>)
    requires forall c | c in ordered :: c.feature in row.cells
    ensures rejection.None? <==> FirstFault(row.cells, ordered).None?
    ensures rejection.None? ==> values == ValuesOf(row.cells, ordered)
    ensures rejection.Some? ==>
      var f := FirstFault(row.cells, ordered).value;
      rejection.value == Rejection(row.symbol, FaultReason(row.cells, f), f)
  {
    values, rejection := map[], None;
    assert ordered[0..] == ordered;
    for i := 0 to |ordered|
      invariant rejection.None?
      invariant FirstFault(row.cells, ordered) == FirstFault(row.cells, ordered[i..])
      invariant values == ValuesOf(row.cells, ordered[..i])
    {
      assert ordered[i] in ordered;
      var feature := ordered[i].feature;
      var cell := row.cells[feature];
      if Numeric(cell).None? {
        rejection := Some(Rejection(row.symbol, WhyRejected(cell), feature));
        return;
      }
      values := values[feature := Numeric(cell).value];
      assert ordered[..i + 1][..i] == ordered[..i];
      assert ordered[i..][1..] == ordered[i + 1..];
    }
    assert ordered[..|ordered|] == ordered;
  }

  method CompleteCases(rows: seq<Row>, ordered: seq<Component>)
    returns (complete: map<int, map<int, real>>, rejections: seq<Rejection>)
    requires CellsKnown(rows, ordered)
    ensures complete == CompleteValues(rows, ordered)
    ensures rejections == CompositeRejections(rows, ordered)
  {
    complete, rejections := map[], [];
    for n := 0 to |rows|
      invariant complete == CompleteValues(rows[..n], ordered)
      invariant rejections == CompositeRejections(rows[..n], ordered)
    {
      assert rows[n] in rows;
      assert rows[..n + 1][..n] == rows[..n];
      var values, rejection := CompleteCase(rows[n], ordered);
      if rejection.Some? {
        rejections := rejections + [rejection.value];
      } else {
        complete := complete[rows[n].symbol := values];
      }
    }
    assert rows[..|rows|] == rows;
  }

  /** The percentile map of every component. */
  ghost predicate PercentilesKnown(ps: map<int, map<int, real>>, complete: map<int, map<int, real>>,
                                   cs: seq<Component>) {
    forall c | c in cs :: c.feature in ps && ps[c.feature] == Percentiles(Section(complete, c.feature), c.higher)
  }

  method FeaturePercentilesOf(complete: map<int, map<int, real>>, ordered: seq<Component>)
    returns (ps: map<int, map<int, real>>)
    requires Distinct(Features(ordered))
    ensures PercentilesKnown(ps, complete, ordered)
  {
    ps := map[];
    for i := 0 to |ordered|
      invariant PercentilesKnown(ps, complete, ordered[..i])
    {
      var c := ordered[i];
      var ranked := RankPercentiles(Section(complete, c.feature), c.higher);
      PercentilesStep(ps, complete, ordered, i, ranked);
      ps := ps[c.feature := ranked];
    }
    assert ordered[..|ordered|] == ordered;
  }

  lemma PercentilesStep(ps: map<int, map<int, real>>, complete: map<int, map<int, real>>, cs: seq<Component>, i: nat,
                        ranked: map<int, real>)
    requires Distinct(Features(cs)) && i < |cs|
    requires PercentilesKnown(ps, complete, cs[..i])
    requires ranked == Percentiles(Section(complete, cs[i].feature), cs[i].higher)
    ensures PercentilesKnown(ps[cs[i].feature := ranked], complete, cs[..i + 1])
  {
    var fs := Features(cs);
    forall c | c in cs[..i + 1]
      ensures c.feature in ps[cs[i].feature := ranked]
      ensures ps[cs[i].feature := ranked][c.feature] == Percentiles(Section(complete, c.feature), c.higher)
    {
      var j :| 0 <= j < i + 1 && cs[j] == c;
      assert fs[j] == c.feature && fs[i] == cs[i].feature;
      if j < i {
        assert c in cs[..i];
      }
    }
  }

  /** The compiled form of one score. */
  function MixScore(ps: map<int, map<int, real>>, cs: seq<Component>, total: real, s: int): real
    requires total > 0.0
    requires forall c | c in cs :: c.feature in ps
  {
    if cs == [] then 0.0 else
      MixScore(ps, cs[..|cs| - 1], total, s) + Weighed(cs[|cs| - 1].weight, total, At(ps[cs[|cs| - 1].feature], s))
  }

  lemma PartIsPercentile(complete: map<int, map<int, real>>, c: Component, s: int)
    requires s in complete
    ensures Part(complete, c, s) == At(Percentiles(Section(complete, c.feature), c.higher), s)
  {
  }

  lemma {:induction false} MixIsWeightedSum(ps: map<int, map<int, real>>, complete: map<int, map<int, real>>,
                                            cs: seq<Component>, total: real, s: int)
    requires total > 0.0 && s in complete
    requires PercentilesKnown(ps, complete, cs)
    ensures MixScore(ps, cs, total, s) == WeightedSum(cs, total, Parts(complete, s))
  {
    if cs != [] {
      MixIsWeightedSum(ps, complete, cs[..|cs| - 1], total, s);
      var c := cs[|cs| - 1];
      assert c in cs;
      PartIsPercentile(complete, c, s);
    }
  }

  method RankCandidatesByTransparentComposite(d: Dataset, cs: seq<Component>)
    returns (r: Result<CompositeRun, CompositeError>)
    requires ValidDataset(d) && ValidSpec(cs)
    ensures r.Ok? <==> FeaturesPresent(d, cs)
    ensures r.Ok? ==> r.value == Composite(d, cs) && ValidCompositeRun(r.value)
  {
    var ordered := OrderedComponents(cs);
    OrderedSpec(cs);
    var present := CheckFeatures(d, ordered);
    if !present {
      return Err(MissingFeature);
    }
    CompositeRunIsValid(d, ordered);
    var built := BuildRun(d, ordered);
    match built {
      case Err(_) => return Err(PredictionRefused);
      case Ok(run) =>
        var ok := CheckCompositeRun(run);
        if !ok {
          return Err(RunRefused);
        }
        return Ok(run);
    }
  }

  method CheckFeatures(d: Dataset, ordered: seq<Component>) returns (present: bool)
    ensures present <==> FeaturesPresent(d, ordered)
  {
    for i := 0 to |ordered|
      invariant FeaturesPresent(d, ordered[..i])
    {
      if ordered[i].feature !in d.features {
        return false;
      }
    }
    return true;
  }

  lemma {:induction false} CompositeRejectionsInOrder(rows: seq<Row>, cs: seq<Component>)
    requires Increasing(RowSymbols(rows))
    ensures Sort(CompositeRejections(rows, cs), REJECTION_KEY) == CompositeRejections(rows, cs)
  {
    CompositeAccounts(rows, cs);
    IncreasingRejections(CompositeRejections(rows, cs));
    SortOfSorted(CompositeRejections(rows, cs), REJECTION_KEY);
  }

  /** Nothing the ranker builds can fail the run's own checks. */
  lemma {:induction false} CompositeRunIsValid(d: Dataset, ordered: seq<Component>)
    requires ValidDataset(d) && ValidSpec(ordered) && TotalWeight(ordered) > 0.0
    ensures ValidCompositeRun(OrderedComposite(d, ordered))
  {
    CompositeAccounts(d.rows, ordered);
    var scores := CompositeScores(d.rows, ordered);
    assert scores.Keys == CompleteValues(d.rows, ordered).Keys;
    AccountedRun(d, scores, CompositeRejections(d.rows, ordered));
  }

  method BuildRun(d: Dataset, ordered: seq<Component>) returns (r: Result<CompositeRun, RankingError>)
    requires ValidDataset(d) && ValidSpec(ordered) && FeaturesPresent(d, ordered)
    requires TotalWeight(ordered) > 0.0
    ensures r == Ok(OrderedComposite(d, ordered))
  {
    CellsPresent(d, ordered);
    var scores, rejections := ScoreCompleteCases(d.rows, ordered);
    ScoredWithinPopulation(d, ordered);
    var predictions := MakePredictions(scores, |d.population|);
    match predictions {
      case Err(e) => return Err(e);
      case Ok(ps) =>
        CompositeRejectionsInOrder(d.rows, ordered);
        return Ok(CompositeRun(Run(d, |d.population|, |ps|, ps, Sort(rejections, REJECTION_KEY)), Features(ordered)));
    }
  }

  lemma {:induction false} ScoredWithinPopulation(d: Dataset, ordered: seq<Component>)
    requires ValidDataset(d) && ValidSpec(ordered) && TotalWeight(ordered) > 0.0
    ensures |CompositeScores(d.rows, ordered)| <= |d.population|
  {
    CompositeAccounts(d.rows, ordered);
    assert CompositeScores(d.rows, ordered).Keys == CompleteValues(d.rows, ordered).Keys;
  }

  method ScoreCompleteCases(rows: seq<Row>, ordered: seq<Component>)
    returns (scores: map<int, real>, rejections: seq<Rejection>)
    requires CellsKnown(rows, ordered) && Distinct(Features(ordered)) && TotalWeight(ordered) > 0.0
    ensures scores == CompositeScores(rows, ordered)
    ensures rejections == CompositeRejections(rows, ordered)
  {
    var complete;
    complete, rejections := CompleteCases(rows, ordered);
    scores := ScoreAll(complete, ordered);
  }

  method CheckCompositeRun(run: CompositeRun) returns (ok: bool)
    ensures ok <==> ValidCompositeRun(run)
  {
    var base := CheckRun(run.base);
    CardinalityDetectsDuplicates(run.components);
    ok := run.components != [] && |run.components| == |Elements(run.components)| && base;
  }

  method ScoreAll(complete: map<int, map<int, real>>, ordered: seq<Component>) returns (scores: map<int, real>)
    requires Distinct(Features(ordered)) && TotalWeight(ordered) > 0.0
    ensures scores == map s | s in complete :: WeightedSum(ordered, TotalWeight(ordered), Parts(complete, s))
  {
    var ps := FeaturePercentilesOf(complete, ordered);
    var total := TotalWeight(ordered);
    forall s | s in complete
      ensures MixScore(ps, ordered, total, s) == WeightedSum(ordered, total, Parts(complete, s))
    {
      MixIsWeightedSum(ps, complete, ordered, total, s);
    }
    scores := map s | s in complete :: MixScore(ps, ordered, total, s);
  }

  lemma CellsPresent(d: Dataset, cs: seq<Component>)
    requires ValidDataset(d) && FeaturesPresent(d, cs)
    ensures CellsKnown(d.rows, cs)
  {
    forall r, c | r in d.rows && c in cs ensures c.feature in r.cells {
      assert c.feature in Elements(d.features);
    }
  }

  lemma {:induction false} CompositeAccounts(rows: seq<Row>, cs: seq<Component>)
    requires Increasing(RowSymbols(rows))
    ensures Accounts(RowSymbols(rows), CompleteValues(rows, cs).Keys, CompositeRejections(rows, cs))
  {
    if rows != [] {
      var init, last := rows[..|rows| - 1], rows[|rows| - 1];
      LastSymbolIsLargest(rows);
      CompositeAccounts(init, cs);
      var fault := FirstFault(last.cells, cs);
      if fault.None? {
        AccountsRanked(RowSymbols(init), CompleteValues(init, cs).Keys, CompositeRejections(init, cs), last.symbol);
      } else {
        AccountsRejected(RowSymbols(init), CompleteValues(init, cs).Keys, CompositeRejections(init, cs),
                         Rejection(last.symbol, FaultReason(last.cells, fault.value), fault.value));
      }
    }
  }
}
