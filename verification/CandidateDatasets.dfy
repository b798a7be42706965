/** Building one candidate dataset from a population, feature materializations and a target materialization, and
    assembling datasets into a chronological panel. */
module CandidateDatasets {
  import opened Wrappers
  import opened Ordering
  import opened CandidateRanking

  datatype CandidatePopulation = CandidatePopulation(universe: int, decisionTime: int, symbols: seq<int>,
                                                     sourceDatasets: set<int>)

  /** The eligibility a source dataset was admitted with; greater is stronger. */
  datatype Contract = Contract(dataset: int, eligibility: int)

  datatype FeatureMaterialization = FeatureMaterialization(
    id: int, definition: int, universe: int, asOf: int, dataset: int, observations: map<int, Cell>)

  datatype TargetMaterialization = TargetMaterialization(
    target: int, universe: int, decisionTime: int, dataset: int, observations: map<int, TargetCell>)

  datatype DatasetError = NoFeatures | DuplicateIdentity | UnmatchedMaterialization | TargetMismatch | UniverseMismatch
    | FromTheFuture | ContractMissing | DatasetRejected

  /** Status codes of cells nobody observed. */
  const MISSING := 0
  const NOT_YET_OBSERVED := 0

  function Definitions(ms: seq<FeatureMaterialization>): seq<int> {
    seq(|ms|, i requires 0 <= i < |ms| => ms[i].definition)
  }

  function Identities(ms: seq<FeatureMaterialization>): seq<int> {
    seq(|ms|, i requires 0 <= i < |ms| => ms[i].id)
  }

  function ContractIds(contracts: seq<Contract>): seq<int> {
    seq(|contracts|, i requires 0 <= i < |contracts| => contracts[i].dataset)
  }

  function ContractTable(contracts: seq<Contract>): map<int, int> {
    if contracts == [] then map[] else
      var last := contracts[|contracts| - 1];
      ContractTable(contracts[..|contracts| - 1])[last.dataset := last.eligibility]
  }

  lemma {:induction false} TableKeys(contracts: seq<Contract>)
    ensures ContractTable(contracts).Keys == Elements(ContractIds(contracts))
  {
    if contracts != [] {
      var init, last := contracts[..|contracts| - 1], contracts[|contracts| - 1];
      TableKeys(init);
      assert ContractIds(contracts) == ContractIds(init) + [last.dataset];
    }
  }

  /** The materialization of a definition. */
  function MaterializationOf(ms: seq<FeatureMaterialization>, definition: int): Option<FeatureMaterialization> {
    if ms == [] then None
    else if ms[|ms| - 1].definition == definition then Some(ms[|ms| - 1])
    else MaterializationOf(ms[..|ms| - 1], definition)
  }

  function CellOf(ms: seq<FeatureMaterialization>, definition: int, symbol: int): Cell {
    var m := MaterializationOf(ms, definition);
    if m.Some? && symbol in m.value.observations then m.value.observations[symbol] else Unavailable(MISSING)
  }

  function TargetOf(t: TargetMaterialization, symbol: int): TargetCell {
    if symbol in t.observations then t.observations[symbol] else NotObserved(NOT_YET_OBSERVED)
  }

  ghost function RequiredDatasets(p: CandidatePopulation, ms: seq<FeatureMaterialization>,
                                  t: TargetMaterialization): set<int> {
    p.sourceDatasets + {t.dataset} + set m | m in ms :: m.dataset
  }

  predicate MatchesPopulation(m: FeatureMaterialization, p: CandidatePopulation) {
    m.universe == p.universe && m.asOf <= p.decisionTime
  }

  /** The conditions under which a dataset is built. */
  ghost predicate Buildable(p: CandidatePopulation, contracts: seq<Contract>, definitions: seq<int>,
                            ms: seq<FeatureMaterialization>,
                            target: int, t: TargetMaterialization)
  {
    && definitions != [] && Distinct(ContractIds(contracts)) && Distinct(definitions) && Distinct(Definitions(ms))
    && Elements(Definitions(ms)) == Elements(definitions)
    && t.target == target && t.universe == p.universe && t.decisionTime == p.decisionTime
    && (forall m | m in ms :: MatchesPopulation(m, p))
    && RequiredDatasets(p, ms, t) <= Elements(ContractIds(contracts))
    && Distinct(Identities(ms))
  }

  ghost function RowOf(ms: seq<FeatureMaterialization>, t: TargetMaterialization, definitions: seq<int>,
                       symbol: int): Row {
    Row(symbol, map f | f in Elements(definitions) :: CellOf(ms, f, symbol), TargetOf(t, symbol))
  }

  /** One row per symbol of the population, nothing filtered and nothing added; the weakest source decides the
      eligibility. */
  ghost predicate IsCandidateDataset(d: Dataset, p: CandidatePopulation, contracts: seq<Contract>,
                                     definitions: seq<int>,
                                     ms: seq<FeatureMaterialization>, target: int, t: TargetMaterialization)
  {
    && d.universe == p.universe && d.decisionTime == p.decisionTime && d.target == target
    && d.population == p.symbols && d.features == definitions
    && IsWeakest(d.eligibility, contracts, RequiredDatasets(p, ms, t))
    && |d.rows| == |p.symbols|
    && forall i | 0 <= i < |p.symbols| :: d.rows[i] == RowOf(ms, t, definitions, p.symbols[i])
  }

  method BuildRow(ms: seq<FeatureMaterialization>, t: TargetMaterialization, definitions: seq<int>, symbol: int)
    returns (row: Row)
    ensures row == RowOf(ms, t, definitions, symbol)
  {
    var cells: map<int, Cell> := map[];
    for i := 0 to |definitions|
      invariant cells == map f | f in Elements(definitions[..i]) :: CellOf(ms, f, symbol)
    {
      var f := definitions[i];
      assert Elements(definitions[..i + 1]) == Elements(definitions[..i]) + {f};
      cells := cells[f := CellOf(ms, f, symbol)];
    }
    assert definitions[..|definitions|] == definitions;
    row := Row(symbol, cells, TargetOf(t, symbol));
  }

  /** The checks before anything is built. */
  method CheckBuild(p: CandidatePopulation, contracts: seq<Contract>, definitions: seq<int>,
                    ms: seq<FeatureMaterialization>,
                    target: int, t: TargetMaterialization) returns (error: Option<DatasetError>, sources: set<int>)
    ensures error.None? && Distinct(Identities(ms)) <==>
            Buildable(p, contracts, definitions, ms, target, t)
    ensures error.None? ==> sources == RequiredDatasets(p, ms, t)
    ensures error.None? ==> Matching(definitions, ms) && sources <= Elements(ContractIds(contracts))
  {
    sources := {};
    if definitions == [] {
      return Some(NoFeatures), {};
    }
    CardinalityDetectsDuplicates(ContractIds(contracts));
    CardinalityDetectsDuplicates(definitions);
    CardinalityDetectsDuplicates(Definitions(ms));
    if |Elements(ContractIds(contracts))| != |contracts| || |Elements(definitions)| != |definitions|
       || |Elements(Definitions(ms))| != |ms| {
      return Some(DuplicateIdentity), {};
    }
    if Elements(Definitions(ms)) != Elements(definitions) {
      return Some(UnmatchedMaterialization), {};
    }
    if t.target != target {
      return Some(TargetMismatch), {};
    }
    if t.universe != p.universe || t.decisionTime != p.decisionTime {
      return Some(UniverseMismatch), {};
    }
    var late;
    late, sources := CollectSources(p, ms, t);
    if late {
      return Some(FromTheFuture), sources;
    }
    if !(sources <= Elements(ContractIds(contracts))) {
      return Some(ContractMissing), sources;
    }
    return None, sources;
  }

  method CollectSources(p: CandidatePopulation, ms: seq<FeatureMaterialization>, t: TargetMaterialization)
    returns (late: bool, sources: set<int>)
    ensures late <==> !forall m | m in ms :: MatchesPopulation(m, p)
    ensures !late ==> sources == RequiredDatasets(p, ms, t)
  {
    sources := p.sourceDatasets + {t.dataset};
    for i := 0 to |ms|
      invariant forall m | m in ms[..i] :: MatchesPopulation(m, p)
      invariant sources == RequiredDatasets(p, ms[..i], t)
    {
      if !MatchesPopulation(ms[i], p) {
        assert ms[i] in ms;
        return true, sources;
      }
      assert ms[..i + 1] == ms[..i] + [ms[i]];
      sources := sources + {ms[i].dataset};
    }
    assert ms[..|ms|] == ms;
    return false, sources;
  }

  // ---- materialization identities, in the order of the definitions ----

  ghost predicate Matching(definitions: seq<int>, ms: seq<FeatureMaterialization>) {
    Distinct(definitions) && Distinct(Definitions(ms)) && Elements(Definitions(ms)) == Elements(definitions)
  }

  lemma {:induction false} MaterializationFound(ms: seq<FeatureMaterialization>, k: nat)
    requires Distinct(Definitions(ms)) && k < |ms|
    ensures MaterializationOf(ms, ms[k].definition) == Some(ms[k])
  {
    var n := |ms| - 1;
    if k < n {
      assert Definitions(ms)[k] != Definitions(ms)[n];
      assert forall i | 0 <= i < n :: Definitions(ms[..n])[i] == Definitions(ms)[i];
      MaterializationFound(ms[..n], k);
    }
  }

  lemma {:induction false} DefinitionIsMaterialized(definitions: seq<int>, ms: seq<FeatureMaterialization>, i: nat)
    requires Matching(definitions, ms) && i < |definitions|
    ensures MaterializationOf(ms, definitions[i]).Some?
    ensures MaterializationOf(ms, definitions[i]).value in ms
    ensures MaterializationOf(ms, definitions[i]).value.definition == definitions[i]
  {
    assert definitions[i] in Elements(Definitions(ms));
    var k :| 0 <= k < |ms| && Definitions(ms)[k] == definitions[i];
    MaterializationFound(ms, k);
  }

  function IdentitiesAlong(definitions: seq<int>, ms: seq<FeatureMaterialization>): (ids: seq<int>)
    requires forall i | 0 <= i < |definitions| :: MaterializationOf(ms, definitions[i]).Some?
    ensures |ids| == |definitions|
  {
    seq(|definitions|, i requires 0 <= i < |definitions| => MaterializationOf(ms, definitions[i]).value.id)
  }

  /** Listed in the order of the definitions, the identities are distinct exactly when the materializations' are. */
  lemma {:induction false} IdentitiesAlongDistinctIff(definitions: seq<int>, ms: seq<FeatureMaterialization>)
    requires Matching(definitions, ms)
    ensures forall i | 0 <= i < |definitions| :: MaterializationOf(ms, definitions[i]).Some?
    ensures Distinct(IdentitiesAlong(definitions, ms)) <==> Distinct(Identities(ms))
  {
    forall i | 0 <= i < |definitions|
      ensures MaterializationOf(ms, definitions[i]).Some?
      ensures MaterializationOf(ms, definitions[i]).value in ms
      ensures MaterializationOf(ms, definitions[i]).value.definition == definitions[i]
    {
      DefinitionIsMaterialized(definitions, ms, i);
    }
    var along := IdentitiesAlong(definitions, ms);
    if Distinct(along) {
      forall j, k | 0 <= j < k < |ms| ensures Identities(ms)[j] != Identities(ms)[k] {
        var a := PlaceOf(definitions, ms, j);
        var b := PlaceOf(definitions, ms, k);
        assert Definitions(ms)[j] != Definitions(ms)[k];
        assert along[a] != along[b];
      }
    }
    if Distinct(Identities(ms)) {
      forall a, b | 0 <= a < b < |along| ensures along[a] != along[b] {
        DistinctAlong(definitions, ms, a, b);
      }
    }
  }

  lemma PlaceOf(definitions: seq<int>, ms: seq<FeatureMaterialization>, k: nat) returns (i: nat)
    requires Matching(definitions, ms) && k < |ms|
    ensures i < |definitions| && definitions[i] == ms[k].definition
    ensures MaterializationOf(ms, definitions[i]) == Some(ms[k])
  {
    assert Definitions(ms)[k] in Elements(Definitions(ms));
    i :| 0 <= i < |definitions| && definitions[i] == ms[k].definition;
    MaterializationFound(ms, k);
  }

  lemma {:induction false} DistinctAlong(definitions: seq<int>, ms: seq<FeatureMaterialization>, a: nat, b: nat)
    requires Matching(definitions, ms) && Distinct(Identities(ms)) && a < b < |definitions|
    ensures MaterializationOf(ms, definitions[a]).Some? && MaterializationOf(ms, definitions[b]).Some?
    ensures MaterializationOf(ms, definitions[a]).value.id != MaterializationOf(ms, definitions[b]).value.id
  {
    DefinitionIsMaterialized(definitions, ms, a);
    DefinitionIsMaterialized(definitions, ms, b);
    var m, n := MaterializationOf(ms, definitions[a]).value, MaterializationOf(ms, definitions[b]).value;
    var j :| 0 <= j < |ms| && ms[j] == m;
    var k :| 0 <= k < |ms| && ms[k] == n;
    assert j != k;
    assert Identities(ms)[j] != Identities(ms)[k];
  }

  // ---- the builder ----

  method BuildRows(p: CandidatePopulation, definitions: seq<int>, ms: seq<FeatureMaterialization>,
                   t: TargetMaterialization)
    returns (rows: seq<Row>)
    ensures |rows| == |p.symbols|
    ensures forall i | 0 <= i < |rows| :: rows[i] == RowOf(ms, t, definitions, p.symbols[i])
  {
    rows := [];
    for i := 0 to |p.symbols|
      invariant |rows| == i
      invariant forall j | 0 <= j < i :: rows[j] == RowOf(ms, t, definitions, p.symbols[j])
    {
      var row := BuildRow(ms, t, definitions, p.symbols[i]);
      rows := rows + [row];
    }
  }

  method BuildCandidateDataset(id: int, p: CandidatePopulation, contracts: seq<Contract>, definitions: seq<int>,
                               ms: seq<FeatureMaterialization>, target: int, t: TargetMaterialization)
    returns (r: Result<Dataset, DatasetError>)
    requires Increasing(p.symbols)
    ensures r.Ok? <==> Buildable(p, contracts, definitions, ms, target, t)
    ensures r.Ok? ==> ValidDataset(r.value) && IsCandidateDataset(r.value, p, contracts, definitions, ms, target, t)
  {
    var error, sources := CheckBuild(p, contracts, definitions, ms, target, t);
    if error.Some? {
      return Err(error.value);
    }
    var eligibility := Weakest(contracts, sources);
    var rows := BuildRows(p, definitions, ms, t);
    IdentitiesAlongDistinctIff(definitions, ms);
    var identities := IdentitiesAlong(definitions, ms);
    CardinalityDetectsDuplicates(identities);
    if |Elements(identities)| != |identities| {
      return Err(DatasetRejected);
    }
    var d := Dataset(id, eligibility, p.universe, target, p.decisionTime, p.symbols, definitions, rows);
    BuiltDatasetIsValid(d, p, contracts, definitions, ms, target, t);
    return Ok(d);
  }

  /** No other check of the dataset's constructor can fire. */
  lemma BuiltDatasetIsValid(d: Dataset, p: CandidatePopulation, contracts: seq<Contract>, definitions: seq<int>,
                            ms: seq<FeatureMaterialization>, target: int, t: TargetMaterialization)
    requires IsCandidateDataset(d, p, contracts, definitions, ms, target, t)
    requires Increasing(p.symbols) && Distinct(definitions)
    ensures ValidDataset(d)
  {
    forall i | 0 <= i < |d.rows|
      ensures d.rows[i].symbol == p.symbols[i] && d.rows[i].cells.Keys == Elements(definitions)
    {
      assert d.rows[i] == RowOf(ms, t, definitions, p.symbols[i]);
    }
    assert RowSymbols(d.rows) == d.population;
  }

  // ---- the weakest part decides the eligibility ----

  /** e is the least of the listed. */
  ghost predicate IsLeast(e: int, all: seq<int>) {
    e in all && forall x | x in all :: e <= x
  }

  method Least(all: seq<int>) returns (e: int)
    requires all != []
    ensures IsLeast(e, all)
  {
    e := all[0];
    for i := 1 to |all|
      invariant IsLeast(e, all[..i])
    {
      assert all[..i + 1] == all[..i] + [all[i]];
      if all[i] < e {
        e := all[i];
      }
    }
    assert all[..|all|] == all;
  }

  ghost predicate IsWeakest(e: int, contracts: seq<Contract>, sources: set<int>) {
    var table := ContractTable(contracts);
    && (exists s :: s in sources && s in table && table[s] == e)
    && (forall s | s in sources && s in table :: e <= table[s])
  }

  method Weakest(contracts: seq<Contract>, sources: set<int>) returns (e: int)
    requires sources <= Elements(ContractIds(contracts)) && sources != {}
    ensures IsWeakest(e, contracts, sources)
  {
    TableKeys(contracts);
    var ordered, table := SortedSeq(sources), ContractTable(contracts);
    EmptySortedSet(ordered, sources);
    forall i | 0 <= i < |ordered| ensures ordered[i] in table {
      assert ordered[i] in ordered;
    }
    var listed := seq(|ordered|, i requires 0 <= i < |ordered| => table[ordered[i]]);
    e := Least(listed);
    LeastIsWeakest(e, ordered, table, listed, sources);
  }

  lemma LeastIsWeakest(e: int, ordered: seq<int>, table: map<int, int>, listed: seq<int>, sources: set<int>)
    requires IsLeast(e, listed) && |listed| == |ordered|
    requires forall i | 0 <= i < |ordered| :: ordered[i] in table && listed[i] == table[ordered[i]]
    requires forall s :: s in ordered <==> s in sources
    ensures exists s :: s in sources && s in table && table[s] == e
    ensures forall s | s in sources && s in table :: e <= table[s]
  {
    var i :| 0 <= i < |listed| && listed[i] == e;
    var first := ordered[i];
    assert first in ordered;
    assert first in sources && first in table && table[first] == e;
    forall s | s in sources && s in table ensures e <= table[s] {
      assert s in ordered;
      var j :| 0 <= j < |ordered| && ordered[j] == s;
      assert listed[j] in listed;
    }
  }

  // ---- panels ----

  datatype Panel = Panel(target: int, features: seq<int>, eligibility: int, slices: seq<Dataset>)

  datatype PanelError = NoSlice | DuplicateTime | MixedTargets | MixedFeatures | DuplicateSlice

  const DECISION_TIME_KEY: Dataset -> Key := (d: Dataset) => Key(0.0, 0, d.decisionTime)

  function DecisionTimes(slices: seq<Dataset>): seq<int> {
    seq(|slices|, i requires 0 <= i < |slices| => slices[i].decisionTime)
  }

  function SliceIds(slices: seq<Dataset>): seq<int> {
    seq(|slices|, i requires 0 <= i < |slices| => slices[i].id)
  }

  function Eligibilities(slices: seq<Dataset>): seq<int> {
    seq(|slices|, i requires 0 <= i < |slices| => slices[i].eligibility)
  }

  ghost predicate Assemblable(slices: seq<Dataset>) {
    && slices != [] && Distinct(DecisionTimes(slices)) && Distinct(SliceIds(slices))
    && forall d, e | d in slices && e in slices :: d.target == e.target && d.features == e.features
  }

  /** Different slices in strictly increasing time, all of one target and one feature schema, as eligible as the
      weakest. */
  ghost predicate ValidPanel(p: Panel) {
    && p.slices != [] && Increasing(DecisionTimes(p.slices)) && Distinct(SliceIds(p.slices))
    && IsLeast(p.eligibility, Eligibilities(p.slices))
    && forall d | d in p.slices :: d.target == p.target && d.features == p.features
  }

  /** Numbers read off the slices are distinct exactly when the slices are and the numbers tell them apart. */
  lemma DistinctNumbersIff(slices: seq<Dataset>, numbers: seq<int>, key: Dataset -> Key)
    requires |numbers| == |slices| && forall i | 0 <= i < |slices| :: key(slices[i]) == Key(0.0, 0, numbers[i])
    ensures Distinct(numbers) <==> Distinct(slices) && KeysDiffer(slices, key)
  {
    if Distinct(numbers) {
      forall i, j | 0 <= i < j < |slices| ensures slices[i] != slices[j] {
        assert numbers[i] != numbers[j];
      }
      forall x, y | x in slices && y in slices && key(x) == key(y) ensures x == y {
        var i :| 0 <= i < |slices| && slices[i] == x;
        var j :| 0 <= j < |slices| && slices[j] == y;
        assert numbers[i] == numbers[j];
      }
    }
    if Distinct(slices) && KeysDiffer(slices, key) {
      forall i, j | 0 <= i < j < |numbers| ensures numbers[i] != numbers[j] {
        assert slices[i] in slices && slices[j] in slices && slices[i] != slices[j];
      }
    }
  }

  lemma PermutedNumbers(a: seq<Dataset>, b: seq<Dataset>, m: seq<int>, n: seq<int>, key: Dataset -> Key)
    requires multiset(a) == multiset(b)
    requires |m| == |a| && forall i | 0 <= i < |a| :: key(a[i]) == Key(0.0, 0, m[i])
    requires |n| == |b| && forall i | 0 <= i < |b| :: key(b[i]) == Key(0.0, 0, n[i])
    ensures Distinct(m) ==> Distinct(n)
  {
    DistinctNumbersIff(a, m, key);
    DistinctNumbersIff(b, n, key);
    if Distinct(m) {
      PermutationDistinct(a, b);
      KeysDifferPermutation(a, b, key);
    }
  }

  const SLICE_ID_KEY: Dataset -> Key := (d: Dataset) => Key(0.0, 0, d.id)

  lemma PermutedSlices(a: seq<Dataset>, b: seq<Dataset>)
    requires multiset(a) == multiset(b)
    ensures Distinct(DecisionTimes(a)) <==> Distinct(DecisionTimes(b))
    ensures Distinct(SliceIds(a)) <==> Distinct(SliceIds(b))
  {
    PermutedNumbers(a, b, DecisionTimes(a), DecisionTimes(b), DECISION_TIME_KEY);
    PermutedNumbers(b, a, DecisionTimes(b), DecisionTimes(a), DECISION_TIME_KEY);
    PermutedNumbers(a, b, SliceIds(a), SliceIds(b), SLICE_ID_KEY);
    PermutedNumbers(b, a, SliceIds(b), SliceIds(a), SLICE_ID_KEY);
  }

  lemma {:induction false} SlicesInOrder(slices: seq<Dataset>)
    ensures var ordered := Sort(slices, DECISION_TIME_KEY);
      && (Distinct(DecisionTimes(ordered)) <==> Distinct(DecisionTimes(slices)))
      && (Distinct(SliceIds(ordered)) <==> Distinct(SliceIds(slices)))
      && (Distinct(DecisionTimes(slices)) ==> Increasing(DecisionTimes(ordered)))
  {
    var ordered := Sort(slices, DECISION_TIME_KEY);
    PermutedSlices(slices, ordered);
    if Distinct(DecisionTimes(ordered)) {
      var times := DecisionTimes(ordered);
      forall i, j | 0 <= i < j < |times| ensures times[i] < times[j] {
        assert AtMost(DECISION_TIME_KEY(ordered[i]), DECISION_TIME_KEY(ordered[j]));
      }
    }
  }

  ghost predicate Uniform(slices: seq<Dataset>, target: int, features: seq<int>) {
    forall d | d in slices :: d.target == target && d.features == features
  }

  method CheckUniform(ordered: seq<Dataset>) returns (error: Option<PanelError>)
    requires ordered != []
    ensures error.None? <==> Uniform(ordered, ordered[0].target, ordered[0].features)
  {
    var first := ordered[0];
    for i := 1 to |ordered|
      invariant Uniform(ordered[..i], first.target, first.features)
    {
      assert ordered[i] in ordered;
      assert ordered[..i + 1] == ordered[..i] + [ordered[i]];
      if ordered[i].target != first.target {
        return Some(MixedTargets);
      }
      if ordered[i].features != first.features {
        return Some(MixedFeatures);
      }
    }
    assert ordered[..|ordered|] == ordered;
    return None;
  }

  lemma UniformIff(slices: seq<Dataset>, ordered: seq<Dataset>)
    requires multiset(slices) == multiset(ordered) && ordered != []
    ensures Uniform(ordered, ordered[0].target, ordered[0].features) <==>
            forall d, e | d in slices && e in slices :: d.target == e.target && d.features == e.features
  {
    SameMembers(slices, ordered);
    assert ordered[0] in ordered;
  }

  method AssemblePanel(slices: seq<Dataset>) returns (r: Result<Panel, PanelError>)
    ensures r.Ok? <==> Assemblable(slices)
    ensures r.Ok? ==> ValidPanel(r.value) && r.value.slices == Sort(slices, DECISION_TIME_KEY)
  {
    if slices == [] {
      return Err(NoSlice);
    }
    var ordered := Sort(slices, DECISION_TIME_KEY);
    SlicesInOrder(slices);
    UniformIff(slices, ordered);
    CardinalityDetectsDuplicates(DecisionTimes(ordered));
    CardinalityDetectsDuplicates(SliceIds(ordered));
    if |Elements(DecisionTimes(ordered))| != |ordered| {
      return Err(DuplicateTime);
    }
    var error := CheckUniform(ordered);
    if error.Some? {
      return Err(error.value);
    }
    var eligibility := Least(Eligibilities(ordered));
    if |Elements(SliceIds(ordered))| != |ordered| {
      return Err(DuplicateSlice);
    }
    return Ok(Panel(ordered[0].target, ordered[0].features, eligibility, ordered));
  }

  /** The order in which slices are supplied is irrelevant. */
  lemma {:induction false} AssemblyIgnoresOrder(a: seq<Dataset>, b: seq<Dataset>)
    requires multiset(a) == multiset(b)
    ensures Assemblable(a) <==> Assemblable(b)
    ensures Assemblable(a) ==> Sort(a, DECISION_TIME_KEY) == Sort(b, DECISION_TIME_KEY)
  {
    SameMembers(a, b);
    PermutedSlices(a, b);
    if Assemblable(a) {
      DistinctNumbersIff(a, DecisionTimes(a), DECISION_TIME_KEY);
      SortUnique(a, b, DECISION_TIME_KEY);
    }
  }
}
