/** What the transparent composite may depend on: the order of each feature's values, the proportions of the
    weights, and the complete cases only. */
module CompositeLaws {
  import opened Wrappers
  import opened FiniteSums
  import opened Ordering
  import opened CrossSectionalRanking
  import opened PercentileLaws
  import opened TopK
  import opened CandidateRanking
  import opened CompositeRanking

  // ---- component order ----

  /** A permutation of the components is the same specification and the same ranking. */
  lemma ComponentOrderIsIrrelevant(d: Dataset, a: seq<Component>, b: seq<Component>)
    requires ValidSpec(a) && multiset(a) == multiset(b)
    ensures ValidSpec(b) && Composite(d, a) == Composite(d, b)
  {
    SameMembers(a, b);
    FeatureKeysDiffer(a);
    KeysDifferPermutation(a, b, FEATURE_KEY);
    DistinctFromFeatures(a);
    PermutationDistinct(a, b);
    FeaturesFromDistinct(b);
    SortUnique(a, b, FEATURE_KEY);
  }

  // ---- common scaling of the weights ----

  function Rescale(c: Component, k: real): Component {
    c.(weight := k * c.weight)
  }

  function Rescaled(cs: seq<Component>, k: real): seq<Component> {
    seq(|cs|, i requires 0 <= i < |cs| => Rescale(cs[i], k))
  }

  lemma RescaledPrepend(c: Component, cs: seq<Component>, k: real)
    ensures Rescaled([c] + cs, k) == [Rescale(c, k)] + Rescaled(cs, k)
  {
  }

  lemma RescaledSorted(cs: seq<Component>, k: real)
    requires Sorted(cs, FEATURE_KEY)
    ensures Sorted(Rescaled(cs, k), FEATURE_KEY)
  {
    var r := Rescaled(cs, k);
    forall i, j | 0 <= i < j < |r| ensures AtMost(FEATURE_KEY(r[i]), FEATURE_KEY(r[j])) {
      assert AtMost(FEATURE_KEY(cs[i]), FEATURE_KEY(cs[j]));
    }
  }

  lemma {:induction false} RescaledInsert(c: Component, cs: seq<Component>, k: real)
    requires Sorted(cs, FEATURE_KEY)
    ensures Sorted(Rescaled(cs, k), FEATURE_KEY)
    ensures Insert(Rescale(c, k), Rescaled(cs, k), FEATURE_KEY) == Rescaled(Insert(c, cs, FEATURE_KEY), k)
  {
    RescaledSorted(cs, k);
    if cs == [] || AtMost(FEATURE_KEY(c), FEATURE_KEY(cs[0])) {
      RescaledPrepend(c, cs, k);
    } else {
      RescaledInsert(c, cs[1..], k);
      assert Rescaled(cs, k)[1..] == Rescaled(cs[1..], k);
      RescaledPrepend(cs[0], Insert(c, cs[1..], FEATURE_KEY), k);
    }
  }

  lemma {:induction false} RescaledOrder(cs: seq<Component>, k: real)
    ensures OrderedComponents(Rescaled(cs, k)) == Rescaled(OrderedComponents(cs), k)
  {
    if cs != [] {
      RescaledOrder(cs[1..], k);
      assert Rescaled(cs, k)[1..] == Rescaled(cs[1..], k);
      RescaledInsert(cs[0], Sort(cs[1..], FEATURE_KEY), k);
    }
  }

  lemma {:induction false} RescaledTotal(cs: seq<Component>, k: real)
    ensures TotalWeight(Rescaled(cs, k)) == k * TotalWeight(cs)
  {
    if cs != [] {
      var init := cs[..|cs| - 1];
      RescaledTotal(init, k);
      assert Rescaled(cs, k)[..|cs| - 1] == Rescaled(init, k);
      Distribute(k, TotalWeight(init), cs[|cs| - 1].weight);
    }
  }

  lemma RatioScales(k: real, w: real, total: real, scaled: real)
    requires k > 0.0 && total > 0.0 && scaled == k * total
    ensures scaled > 0.0 && (k * w) / scaled == w / total
  {
    var q := w / total;
    assert w == q * total;
    assert k * w == q * scaled;
  }

  lemma WeighedScales(k: real, w: real, total: real, scaled: real, x: real)
    requires k > 0.0 && total > 0.0 && scaled == k * total
    ensures scaled > 0.0 && Weighed(k * w, scaled, x) == Weighed(w, total, x)
  {
    RatioScales(k, w, total, scaled);
  }

  /** p reads a component's feature and direction, never its weight. */
  ghost predicate IgnoresWeight(p: Component -> real, cs: seq<Component>, k: real) {
    forall c | c in cs :: p(Rescale(c, k)) == p(c)
  }

  lemma {:induction false} RescaledSum(cs: seq<Component>, total: real, scaled: real, p: Component -> real, k: real)
    requires k > 0.0 && total > 0.0 && scaled == k * total && scaled > 0.0 && IgnoresWeight(p, cs, k)
    ensures WeightedSum(Rescaled(cs, k), scaled, p) == WeightedSum(cs, total, p)
  {
    if cs != [] {
      var init, c := cs[..|cs| - 1], cs[|cs| - 1];
      RescaledSum(init, total, scaled, p, k);
      assert Rescaled(cs, k)[..|cs| - 1] == Rescaled(init, k);
      assert c in cs;
      WeighedScales(k, c.weight, total, scaled, p(c));
    }
  }

  lemma {:induction false} RescaledFault(cells: map<int, Cell>, cs: seq<Component>, k: real)
    ensures FirstFault(cells, Rescaled(cs, k)) == FirstFault(cells, cs)
  {
    if cs != [] {
      RescaledFault(cells, cs[1..], k);
      assert Rescaled(cs, k)[1..] == Rescaled(cs[1..], k);
    }
  }

  lemma {:induction false} RescaledValues(cells: map<int, Cell>, cs: seq<Component>, k: real)
    ensures ValuesOf(cells, Rescaled(cs, k)) == ValuesOf(cells, cs)
  {
    if cs != [] {
      var init := cs[..|cs| - 1];
      RescaledValues(cells, init, k);
      assert Rescaled(cs, k)[..|cs| - 1] == Rescaled(init, k);
    }
  }

  lemma {:induction false} RescaledCases(rows: seq<Row>, cs: seq<Component>, k: real)
    ensures CompleteValues(rows, Rescaled(cs, k)) == CompleteValues(rows, cs)
    ensures CompositeRejections(rows, Rescaled(cs, k)) == CompositeRejections(rows, cs)
  {
    if rows != [] {
      RescaledCases(rows[..|rows| - 1], cs, k);
      RescaledFault(rows[|rows| - 1].cells, cs, k);
      RescaledValues(rows[|rows| - 1].cells, cs, k);
    }
  }

  lemma {:induction false} RescaledScores(rows: seq<Row>, cs: seq<Component>, k: real)
    requires k > 0.0 && TotalWeight(cs) > 0.0
    ensures TotalWeight(Rescaled(cs, k)) > 0.0
    ensures CompositeScores(rows, Rescaled(cs, k)) == CompositeScores(rows, cs)
  {
    RescaledTotal(cs, k);
    ScaledPositive(k, TotalWeight(cs));
    RescaledCases(rows, cs, k);
    var complete := CompleteValues(rows, cs);
    forall s | s in complete
      ensures WeightedSum(Rescaled(cs, k), TotalWeight(Rescaled(cs, k)), Parts(complete, s))
           == WeightedSum(cs, TotalWeight(cs), Parts(complete, s))
    {
      RescaledScore(complete, cs, s, k);
    }
  }

  lemma {:induction false} RescaledScore(complete: map<int, map<int, real>>, cs: seq<Component>, s: int, k: real)
    requires k > 0.0 && TotalWeight(cs) > 0.0
    ensures TotalWeight(Rescaled(cs, k)) > 0.0
    ensures WeightedSum(Rescaled(cs, k), TotalWeight(Rescaled(cs, k)), Parts(complete, s))
         == WeightedSum(cs, TotalWeight(cs), Parts(complete, s))
  {
    RescaledTotal(cs, k);
    ScaledPositive(k, TotalWeight(cs));
    RescaledSum(cs, TotalWeight(cs), TotalWeight(Rescaled(cs, k)), Parts(complete, s), k);
  }

  lemma RescaledSpec(cs: seq<Component>, k: real)
    requires ValidSpec(cs) && k > 0.0
    ensures ValidSpec(Rescaled(cs, k))
  {
    var r := Rescaled(cs, k);
    assert Features(r) == Features(cs);
    forall c | c in r ensures c.weight > 0.0 {
      var i :| 0 <= i < |r| && r[i] == c;
      assert cs[i] in cs;
      ScaledPositive(k, cs[i].weight);
    }
  }

  lemma ScaledPositive(k: real, w: real)
    requires k > 0.0 && w > 0.0
    ensures k * w > 0.0
  {
  }

  /** Scaling every weight by the same positive factor changes nothing. */
  lemma WeightsMatterOnlyInProportion(d: Dataset, cs: seq<Component>, k: real)
    requires ValidSpec(cs) && k > 0.0
    ensures ValidSpec(Rescaled(cs, k)) && Composite(d, Rescaled(cs, k)) == Composite(d, cs)
  {
    RescaledSpec(cs, k);
    RescaledOrder(cs, k);
    OrderedSpec(cs);
    var ordered := OrderedComponents(cs);
    RescaledScores(d.rows, ordered, k);
    RescaledCases(d.rows, ordered, k);
    assert Features(Rescaled(ordered, k)) == Features(ordered);
  }

  // ---- only the order of each feature matters ----

  lemma {:induction false} SumCongruentParts(cs: seq<Component>, total: real,
                                             p: Component -> real, q: Component -> real)
    requires total > 0.0
    requires forall c | c in cs :: p(c) == q(c)
    ensures WeightedSum(cs, total, p) == WeightedSum(cs, total, q)
  {
    if cs != [] {
      SumCongruentParts(cs[..|cs| - 1], total, p, q);
      assert cs[|cs| - 1] in cs;
    }
  }

  ghost predicate SameOrderCases(a: map<int, map<int, real>>, b: map<int, map<int, real>>, cs: seq<Component>) {
    && a.Keys == b.Keys
    && forall c | c in cs :: SameOrder(Section(a, c.feature), Section(b, c.feature))
  }

  lemma {:induction false} SameOrderScore(a: map<int, map<int, real>>, b: map<int, map<int, real>>, cs: seq<Component>,
                                          total: real, s: int)
    requires SameOrderCases(a, b, cs) && total > 0.0 && s in a
    ensures WeightedSum(cs, total, Parts(a, s)) == WeightedSum(cs, total, Parts(b, s))
  {
    forall c | c in cs ensures Parts(a, s)(c) == Parts(b, s)(c) {
      SameOrderRank(Section(a, c.feature), Section(b, c.feature), s, c.higher);
    }
    SumCongruentParts(cs, total, Parts(a, s), Parts(b, s));
  }

  /** Applies g to every usable value of one feature. */
  function Reshape(cell: Cell, g: real -> real): Cell {
    if Numeric(cell).Some? then Available(Number(g(Numeric(cell).value))) else cell
  }

  function ReshapeCells(cells: map<int, Cell>, feature: int, g: real -> real): map<int, Cell> {
    if feature in cells then cells[feature := Reshape(cells[feature], g)] else cells
  }

  function Reshaped(rows: seq<Row>, feature: int, g: real -> real): seq<Row> {
    seq(|rows|, i requires 0 <= i < |rows| => rows[i].(cells := ReshapeCells(rows[i].cells, feature, g)))
  }

  ghost predicate StrictlyIncreasing(g: real -> real) {
    forall x, y :: x < y ==> g(x) < g(y)
  }

  lemma {:induction false} ReshapedFault(cells: map<int, Cell>, cs: seq<Component>, feature: int, g: real -> real)
    ensures FirstFault(ReshapeCells(cells, feature, g), cs) == FirstFault(cells, cs)
  {
    if cs != [] {
      ReshapedFault(cells, cs[1..], feature, g);
    }
  }

  /** A complete case holds the number of every component's cell. */
  lemma {:induction false} ValuesAt(cells: map<int, Cell>, cs: seq<Component>, c: Component)
    requires c in cs && NumberAt(cells, c.feature).Some?
    ensures c.feature in ValuesOf(cells, cs) && ValuesOf(cells, cs)[c.feature] == NumberAt(cells, c.feature).value
  {
    if c != cs[|cs| - 1] {
      assert c in cs[..|cs| - 1];
      ValuesAt(cells, cs[..|cs| - 1], c);
    }
  }

  lemma {:induction false} NoFault(cells: map<int, Cell>, cs: seq<Component>, c: Component)
    requires c in cs && FirstFault(cells, cs).None?
    ensures NumberAt(cells, c.feature).Some?
  {
    if c != cs[0] {
      assert c in cs[1..];
      NoFault(cells, cs[1..], c);
    }
  }

  /** b holds a's values with g applied to one feature. */
  ghost predicate ReshapedCases(a: map<int, map<int, real>>, b: map<int, map<int, real>>, c: Component, feature: int,
                                g: real -> real) {
    && (forall s :: s in a <==> s in b)
    && forall s | s in a && s in b ::
      At(b[s], c.feature) == if c.feature == feature then g(At(a[s], c.feature)) else At(a[s], c.feature)
  }

  lemma {:induction false} ReshapedValues(cells: map<int, Cell>, cs: seq<Component>, c: Component, feature: int,
                                          g: real -> real)
    requires c in cs && FirstFault(cells, cs).None?
    ensures At(ValuesOf(ReshapeCells(cells, feature, g), cs), c.feature) ==
            if c.feature == feature then g(At(ValuesOf(cells, cs), c.feature)) else At(ValuesOf(cells, cs), c.feature)
  {
    NoFault(cells, cs, c);
    ValuesAt(cells, cs, c);
    ValuesAt(ReshapeCells(cells, feature, g), cs, c);
  }

  lemma {:induction false} ReshapedComplete(rows: seq<Row>, cs: seq<Component>, c: Component, feature: int,
                                            g: real -> real)
    requires c in cs
    ensures ReshapedCases(CompleteValues(rows, cs), CompleteValues(Reshaped(rows, feature, g), cs), c, feature, g)
  {
    if rows != [] {
      var init, last := rows[..|rows| - 1], rows[|rows| - 1];
      ReshapedComplete(init, cs, c, feature, g);
      assert Reshaped(rows, feature, g)[..|rows| - 1] == Reshaped(init, feature, g);
      ReshapedFault(last.cells, cs, feature, g);
      if FirstFault(last.cells, cs).None? {
        ReshapedValues(last.cells, cs, c, feature, g);
      }
    }
  }

  lemma {:induction false} ReshapedRejections(rows: seq<Row>, cs: seq<Component>, feature: int, g: real -> real)
    ensures CompositeRejections(Reshaped(rows, feature, g), cs) == CompositeRejections(rows, cs)
  {
    if rows != [] {
      var init, last := rows[..|rows| - 1], rows[|rows| - 1];
      ReshapedRejections(init, cs, feature, g);
      assert Reshaped(rows, feature, g)[..|rows| - 1] == Reshaped(init, feature, g);
      ReshapedFault(last.cells, cs, feature, g);
    }
  }

  lemma ReshapedSection(a: map<int, map<int, real>>, b: map<int, map<int, real>>, c: Component, feature: int,
                        g: real -> real)
    requires ReshapedCases(a, b, c, feature, g) && StrictlyIncreasing(g)
    ensures SameOrder(Section(a, c.feature), Section(b, c.feature))
  {
    var p, q := Section(a, c.feature), Section(b, c.feature);
    forall s ensures s in p.Keys <==> s in q.Keys {
    }
    SameSet(p.Keys, q.Keys);
  }

  /** Any strictly increasing change of one feature's raw values leaves scores, ranks and rejections as they were. */
  lemma OnlyFeatureOrderMatters(d: Dataset, cs: seq<Component>, feature: int, g: real -> real)
    requires ValidSpec(cs) && StrictlyIncreasing(g)
    ensures var after := Composite(d.(rows := Reshaped(d.rows, feature, g)), cs).base;
            var before := Composite(d, cs).base;
      && after.predictions == before.predictions
      && after.rejections == before.rejections
      && after.rankedPopulation == before.rankedPopulation
  {
    OrderedSpec(cs);
    var ordered := OrderedComponents(cs);
    ReshapedRejections(d.rows, ordered, feature, g);
    ReshapedScores(d.rows, ordered, feature, g);
  }

  lemma {:induction false} ReshapedOrder(rows: seq<Row>, cs: seq<Component>, feature: int, g: real -> real)
    requires cs != [] && StrictlyIncreasing(g)
    ensures SameOrderCases(CompleteValues(rows, cs), CompleteValues(Reshaped(rows, feature, g), cs), cs)
  {
    var a, b := CompleteValues(rows, cs), CompleteValues(Reshaped(rows, feature, g), cs);
    ReshapedComplete(rows, cs, cs[0], feature, g);
    forall s ensures s in a.Keys <==> s in b.Keys {
    }
    SameSet(a.Keys, b.Keys);
    forall c | c in cs ensures SameOrder(Section(a, c.feature), Section(b, c.feature)) {
      ReshapedComplete(rows, cs, c, feature, g);
      ReshapedSection(a, b, c, feature, g);
    }
  }

  lemma {:induction false} ReshapedScores(rows: seq<Row>, cs: seq<Component>, feature: int, g: real -> real)
    requires cs != [] && TotalWeight(cs) > 0.0 && StrictlyIncreasing(g)
    ensures CompositeScores(Reshaped(rows, feature, g), cs) == CompositeScores(rows, cs)
  {
    ReshapedOrder(rows, cs, feature, g);
    SameOrderAll(CompleteValues(rows, cs), CompleteValues(Reshaped(rows, feature, g), cs), cs);
  }

  lemma {:induction false} SameOrderAll(a: map<int, map<int, real>>, b: map<int, map<int, real>>, cs: seq<Component>)
    requires SameOrderCases(a, b, cs) && TotalWeight(cs) > 0.0
    ensures (map s | s in a :: WeightedSum(cs, TotalWeight(cs), Parts(a, s)))
         == (map s | s in b :: WeightedSum(cs, TotalWeight(cs), Parts(b, s)))
  {
    forall s | s in a
      ensures WeightedSum(cs, TotalWeight(cs), Parts(a, s)) == WeightedSum(cs, TotalWeight(cs), Parts(b, s))
    {
      SameOrderScore(a, b, cs, TotalWeight(cs), s);
    }
  }

  // ---- rejected rows are inert ----

  lemma {:induction false} CasesWithout(rows: seq<Row>, cs: seq<Component>, i: nat)
    requires i < |rows| && FirstFault(rows[i].cells, cs).Some?
    ensures CompleteValues(rows[..i] + rows[i + 1..], cs) == CompleteValues(rows, cs)
    decreases |rows|
  {
    var init := rows[..|rows| - 1];
    if i == |rows| - 1 {
      assert rows[..i] + rows[i + 1..] == init;
    } else {
      CasesWithout(init, cs, i);
      var rest := rows[..i] + rows[i + 1..];
      assert rest[..|rest| - 1] == init[..i] + init[i + 1..];
      assert rest[|rest| - 1] == rows[|rows| - 1];
    }
  }

  lemma {:induction false} RejectedRowsKeepScores(rows: seq<Row>, cs: seq<Component>, i: nat, other: Row)
    requires i < |rows| && TotalWeight(cs) > 0.0
    requires FirstFault(rows[i].cells, cs).Some? && FirstFault(other.cells, cs).Some?
    ensures CompositeScores(rows[..i] + rows[i + 1..], cs) == CompositeScores(rows, cs)
    ensures CompositeScores(rows[i := other], cs) == CompositeScores(rows, cs)
  {
    CasesWithout(rows, cs, i);
    CasesWithout(rows[i := other], cs, i);
    assert rows[i := other][..i] + rows[i := other][i + 1..] == rows[..i] + rows[i + 1..];
  }

  /** A rejected row influences no prediction: drop it, or replace it by any other that is rejected. */
  lemma RejectedRowsAreInert(d: Dataset, less: Dataset, changed: Dataset, cs: seq<Component>, i: nat, other: Row)
    requires ValidSpec(cs) && i < |d.rows|
    requires FirstFault(d.rows[i].cells, OrderedComponents(cs)).Some?
    requires FirstFault(other.cells, OrderedComponents(cs)).Some?
    requires less.rows == d.rows[..i] + d.rows[i + 1..] && changed.rows == d.rows[i := other]
    ensures Composite(less, cs).base.predictions == Composite(d, cs).base.predictions
    ensures Composite(changed, cs).base.predictions == Composite(d, cs).base.predictions
  {
    OrderedSpec(cs);
    RejectedRowsKeepScores(d.rows, OrderedComponents(cs), i, other);
  }

  // ---- the scale of the scores ----

  lemma WeightedBounded(w: real, total: real, x: real)
    requires w > 0.0 && total > 0.0 && 0.0 <= x <= 1.0
    ensures 0.0 <= Weighed(w, total, x) <= w / total
  {
    assert w / total > 0.0;
  }

  lemma DivideSum(a: real, b: real, total: real)
    requires total > 0.0
    ensures (a + b) / total == a / total + b / total
  {
  }

  lemma {:induction false} SumBounded(cs: seq<Component>, total: real, p: Component -> real)
    requires total > 0.0 && forall c | c in cs :: c.weight > 0.0
    requires forall c | c in cs :: 0.0 <= p(c) <= 1.0
    ensures 0.0 <= WeightedSum(cs, total, p) <= TotalWeight(cs) / total
  {
    if cs != [] {
      var init, c := cs[..|cs| - 1], cs[|cs| - 1];
      SumBounded(init, total, p);
      assert c in cs;
      WeightedBounded(c.weight, total, p(c));
      DivideSum(TotalWeight(init), c.weight, total);
    }
  }

  lemma PartBounded(complete: map<int, map<int, real>>, c: Component, s: int)
    ensures 0.0 <= Part(complete, c, s) <= 1.0
  {
    if s in complete {
      PercentileBounds(Section(complete, c.feature), s, c.higher);
    }
  }

  lemma {:induction false} ScoreBounded(complete: map<int, map<int, real>>, cs: seq<Component>, s: int)
    requires ValidSpec(cs) && TotalWeight(cs) > 0.0
    ensures 0.0 <= WeightedSum(cs, TotalWeight(cs), Parts(complete, s)) <= 1.0
  {
    forall c | c in cs ensures 0.0 <= Parts(complete, s)(c) <= 1.0 {
      PartBounded(complete, c, s);
    }
    SumBounded(cs, TotalWeight(cs), Parts(complete, s));
    OverItself(TotalWeight(cs));
  }

  lemma OverItself(t: real)
    requires t > 0.0
    ensures t / t == 1.0
  {
  }

  /** Every composite score lies between zero and one. */
  lemma {:induction false} ScoresBounded(rows: seq<Row>, cs: seq<Component>, s: int)
    requires ValidSpec(cs) && TotalWeight(cs) > 0.0 && s in CompositeScores(rows, cs)
    ensures 0.0 <= CompositeScores(rows, cs)[s] <= 1.0
  {
    ScoreBounded(CompleteValues(rows, cs), cs, s);
  }

  ghost function ScoreAt(complete: map<int, map<int, real>>, cs: seq<Component>, total: real): int -> real
    requires total > 0.0
  {
    s => WeightedSum(cs, total, Parts(complete, s))
  }

  ghost function PartAt(complete: map<int, map<int, real>>, c: Component): int -> real {
    s => Part(complete, c, s)
  }

  lemma PartsAverage(complete: map<int, map<int, real>>, c: Component)
    ensures Sum(complete.Keys, PartAt(complete, c)) == |complete.Keys| as real / 2.0
  {
    var section := Section(complete, c.feature);
    assert section.Keys == complete.Keys && |section| == |section.Keys|;
    PercentilesAverageOneHalf(section, c.higher);
    var f := s => At(Percentiles(section, c.higher), s);
    forall s | s in complete.Keys ensures PartAt(complete, c)(s) == f(s) {
      PartIsPercentile(complete, c, s);
    }
    SumCongruent(complete.Keys, PartAt(complete, c), f);
  }

  /** The population sum of the scores is the same mix of the population sums of the parts. */
  lemma {:induction false} ScoreSum(complete: map<int, map<int, real>>, cs: seq<Component>, total: real, half: real)
    requires total > 0.0 && half == |complete.Keys| as real / 2.0
    ensures Sum(complete.Keys, ScoreAt(complete, cs, total)) == WeightedSum(cs, total, Always(half))
  {
    if cs == [] {
      SumOfZeros(complete.Keys, ScoreAt(complete, cs, total));
    } else {
      ScoreSum(complete, cs[..|cs| - 1], total, half);
      PartsAverage(complete, cs[|cs| - 1]);
      ScoreSplits(complete, cs, total);
    }
  }

  ghost function Always(x: real): Component -> real {
    (c: Component) => x
  }

  lemma {:induction false} ConstantMix(cs: seq<Component>, total: real, x: real)
    requires total > 0.0
    ensures WeightedSum(cs, total, Always(x)) == Weighed(TotalWeight(cs), total, x)
  {
    if cs != [] {
      ConstantMix(cs[..|cs| - 1], total, x);
      WeighedSplits(TotalWeight(cs[..|cs| - 1]), cs[|cs| - 1].weight, total, x);
    }
  }

  lemma WeighedSplits(a: real, w: real, total: real, x: real)
    requires total > 0.0
    ensures Weighed(a + w, total, x) == Weighed(a, total, x) + Weighed(w, total, x)
  {
    DivideSum(a, w, total);
    Distribute(x, a / total, w / total);
  }

  lemma ScoreSplits(complete: map<int, map<int, real>>, cs: seq<Component>, total: real)
    requires total > 0.0 && cs != []
    ensures Sum(complete.Keys, ScoreAt(complete, cs, total)) ==
            Sum(complete.Keys, ScoreAt(complete, cs[..|cs| - 1], total))
            + Weighed(cs[|cs| - 1].weight, total, Sum(complete.Keys, PartAt(complete, cs[|cs| - 1])))
  {
    var init, c := cs[..|cs| - 1], cs[|cs| - 1];
    var h, f, g := ScoreAt(complete, cs, total), ScoreAt(complete, init, total), PartAt(complete, c);
    forall s | s in complete.Keys ensures h(s) == f(s) + Weighed(c.weight, total, g(s)) {
      ScoreStep(complete, cs, total, s);
    }
    MixedSum(complete.Keys, h, f, g, c.weight, total);
  }

  lemma ScoreStep(complete: map<int, map<int, real>>, cs: seq<Component>, total: real, s: int)
    requires total > 0.0 && cs != []
    ensures ScoreAt(complete, cs, total)(s) ==
            ScoreAt(complete, cs[..|cs| - 1], total)(s)
            + Weighed(cs[|cs| - 1].weight, total, PartAt(complete, cs[|cs| - 1])(s))
  {
  }

  lemma WeighedAdds(w: real, total: real, x: real, y: real)
    requires total > 0.0
    ensures Weighed(w, total, x + y) == Weighed(w, total, x) + Weighed(w, total, y)
  {
    Distribute(w / total, x, y);
  }

  lemma {:induction false} MixedSum(keys: set<int>,
                                    h: int -> real, f: int -> real, g: int -> real, w: real, total: real)
    requires total > 0.0
    requires forall s | s in keys :: h(s) == f(s) + Weighed(w, total, g(s))
    ensures Sum(keys, h) == Sum(keys, f) + Weighed(w, total, Sum(keys, g))
    decreases |keys|
  {
    if keys != {} {
      var s := MinOf(keys);
      MixedSum(keys - {s}, h, f, g, w, total);
      WeighedAdds(w, total, g(s), Sum(keys - {s}, g));
    }
  }

  /** The scores of the complete cases always average to one half, whatever the weights and values. */
  lemma {:induction false} ScoresAverageOneHalf(rows: seq<Row>, cs: seq<Component>)
    requires TotalWeight(cs) > 0.0
    ensures var scores := CompositeScores(rows, cs);
      Sum(scores.Keys, s => At(scores, s)) == |scores.Keys| as real / 2.0
  {
    var complete, total := CompleteValues(rows, cs), TotalWeight(cs);
    CasesSum(complete, cs);
    forall s | s in complete.Keys ensures At(CompositeScores(rows, cs), s) == ScoreAt(complete, cs, total)(s) {
      ScoreOfCase(rows, cs, s);
    }
    SumCongruent(complete.Keys, s => At(CompositeScores(rows, cs), s), ScoreAt(complete, cs, total));
    assert CompositeScores(rows, cs).Keys == complete.Keys;
  }

  lemma {:induction false} CasesSum(complete: map<int, map<int, real>>, cs: seq<Component>)
    requires TotalWeight(cs) > 0.0
    ensures Sum(complete.Keys, ScoreAt(complete, cs, TotalWeight(cs))) == |complete.Keys| as real / 2.0
  {
    var half := |complete.Keys| as real / 2.0;
    ScoreSum(complete, cs, TotalWeight(cs), half);
    ConstantMix(cs, TotalWeight(cs), half);
    WholeWeight(TotalWeight(cs), half);
  }

  lemma WholeWeight(total: real, x: real)
    requires total > 0.0
    ensures Weighed(total, total, x) == x
  {
  }

  lemma {:induction false} ScoreOfCase(rows: seq<Row>, cs: seq<Component>, s: int)
    requires TotalWeight(cs) > 0.0 && s in CompleteValues(rows, cs)
    ensures At(CompositeScores(rows, cs), s) == ScoreAt(CompleteValues(rows, cs), cs, TotalWeight(cs))(s)
  {
  }

  // ---- dominance ----

  /** a is at least as good as b on component c of the complete cases. */
  ghost predicate AsGood(complete: map<int, map<int, real>>, c: Component, a: int, b: int)
    requires a in complete && b in complete
  {
    !IsBetter(At(complete[b], c.feature), At(complete[a], c.feature), c.higher)
  }

  ghost predicate Dominates(complete: map<int, map<int, real>>, cs: seq<Component>, a: int, b: int)
    requires a in complete && b in complete
  {
    forall c | c in cs :: AsGood(complete, c, a, b)
  }

  lemma PartOrder(complete: map<int, map<int, real>>, c: Component, a: int, b: int)
    requires a in complete && b in complete
    ensures AsGood(complete, c, a, b) <==> Parts(complete, a)(c) >= Parts(complete, b)(c)
    ensures AsGood(complete, c, b, a) <==> Parts(complete, b)(c) >= Parts(complete, a)(c)
  {
    PercentileOrder(Section(complete, c.feature), a, b, c.higher);
    PercentileOrder(Section(complete, c.feature), b, a, c.higher);
  }

  lemma WeightedOrder(w: real, total: real, x: real, y: real)
    requires w > 0.0 && total > 0.0
    ensures Weighed(w, total, x) <= Weighed(w, total, y) <==> x <= y
    ensures Weighed(w, total, x) == Weighed(w, total, y) <==> x == y
  {
    var q := w / total;
    assert q > 0.0;
    assert q * y - q * x == q * (y - x);
    if x < y {
      ScaledPositive(q, y - x);
    } else if y < x {
      ScaledPositive(q, x - y);
    }
  }

  lemma {:induction false} SumDominates(cs: seq<Component>, total: real, p: Component -> real, q: Component -> real)
    requires total > 0.0 && forall c | c in cs :: c.weight > 0.0
    requires forall c | c in cs :: p(c) >= q(c)
    ensures WeightedSum(cs, total, p) >= WeightedSum(cs, total, q)
    ensures WeightedSum(cs, total, p) == WeightedSum(cs, total, q) <==> forall c | c in cs :: p(c) == q(c)
  {
    if cs != [] {
      var init, c := cs[..|cs| - 1], cs[|cs| - 1];
      SumDominates(init, total, p, q);
      assert c in cs && cs == init + [c];
      WeightedOrder(c.weight, total, q(c), p(c));
    }
  }

  /** A candidate at least as good on every feature never ranks behind, and ties only when it is equal on
      all of them. */
  lemma {:induction false} DominanceIsRespected(rows: seq<Row>, cs: seq<Component>, a: int, b: int)
    requires ValidSpec(cs) && TotalWeight(cs) > 0.0
    requires a in CompleteValues(rows, cs) && b in CompleteValues(rows, cs)
    requires Dominates(CompleteValues(rows, cs), cs, a, b)
    ensures RankOf(CompositeScores(rows, cs), a, true) <= RankOf(CompositeScores(rows, cs), b, true)
    ensures RankOf(CompositeScores(rows, cs), a, true) == RankOf(CompositeScores(rows, cs), b, true)
            <==> Dominates(CompleteValues(rows, cs), cs, b, a)
  {
    var complete := CompleteValues(rows, cs);
    var p, q := Parts(complete, a), Parts(complete, b);
    forall c | c in cs ensures p(c) >= q(c) && (AsGood(complete, c, b, a) <==> p(c) == q(c)) {
      PartOrder(complete, c, a, b);
    }
    SumDominates(cs, TotalWeight(cs), p, q);
    BetterGrows(CompositeScores(rows, cs), a, b, true);
  }
}
