/** Returns of the selected candidates and the whole comparison of an incumbent with a challenger. */
module ComparisonReport {
  import opened Wrappers
  import opened Ordering
  import opened Grouping
  import opened PolicyContracts
  import opened PolicyEvaluation
  import opened Correlation
  import opened PolicyComparison
  import opened SelectionReturns
  import Drawdown

  // ---- weighted daily returns ----

  function SelectedOf(group: seq<Record>): (r: seq<Record>)
    ensures forall x | x in r :: x in group && x.weight > 0.0
  {
    if group == [] then [] else
      (if group[0].weight > 0.0 then [group[0]] else []) + SelectedOf(group[1..])
  }

  function WeightSum(rs: seq<Record>): real {
    if rs == [] then 0.0 else rs[0].weight + WeightSum(rs[1..])
  }

  function ReturnOf(returns_: Returns, r: Record): real {
    if (r.session, r.symbol) in returns_ then returns_[(r.session, r.symbol)] else 0.0
  }

  function Gain(rs: seq<Record>, returns_: Returns): real {
    if rs == [] then 0.0 else ReturnOf(returns_, rs[0]) * rs[0].weight + Gain(rs[1..], returns_)
  }

  /** The weighted mean return of the selected; undefined when nothing is selected. */
  function DayReturn(group: seq<Record>, returns_: Returns): Option<real> {
    var selected := SelectedOf(group);
    if WeightSum(selected) > 0.0 then Some(Gain(selected, returns_) / WeightSum(selected)) else None
  }

  function SessionReturn(records: seq<Record>, returns_: Returns): int -> Option<real> {
    s => DayReturn(SessionGroup(records, s), returns_)
  }

  function SelectedReturns(records: seq<Record>, returns_: Returns): seq<real> {
    Defined(Series(SessionList(records), SessionReturn(records, returns_)))
  }

  method DailyReturns(groups: map<int, seq<Record>>, sessions: seq<int>, returns_: Returns,
                      ghost f: int -> Option<real>)
    returns (daily: seq<real>)
    requires forall i | 0 <= i < |sessions| :: sessions[i] in groups
    requires forall i | 0 <= i < |sessions| :: f(sessions[i]) == DayReturn(groups[sessions[i]], returns_)
    ensures daily == Defined(Series(sessions, f))
  {
    daily := [];
    for n := 0 to |sessions|
      invariant daily == Defined(Series(sessions, f)[..n])
    {
      var day := DayReturn(groups[sessions[n]], returns_);
      DefinedStep(Series(sessions, f), n);
      if day.Some? {
        daily := daily + [day.value];
      }
    }
    assert Series(sessions, f)[..|sessions|] == Series(sessions, f);
  }

  method SelectedDailyReturns(records: seq<Record>, returns_: Returns) returns (daily: seq<real>)
    ensures daily == SelectedReturns(records, returns_)
  {
    var groups := RecordGroups(records);
    var sessions := SortedSeq(groups.Keys);
    forall i | 0 <= i < |sessions|
      ensures sessions[i] in groups && groups[sessions[i]] == SessionGroup(records, sessions[i])
    {
      assert sessions[i] in sessions;
    }
    daily := DailyReturns(groups, sessions, returns_, SessionReturn(records, returns_));
  }

  lemma {:induction false} GainWithin(rs: seq<Record>, returns_: Returns, lo: real)
    requires forall x | x in rs :: x.weight > 0.0 && ReturnOf(returns_, x) > lo
    ensures WeightSum(rs) >= 0.0
    ensures rs != [] ==> WeightSum(rs) > 0.0 && Gain(rs, returns_) > lo * WeightSum(rs)
  {
    if rs != [] {
      var head, rest := rs[0], rs[1..];
      forall x | x in rest ensures x.weight > 0.0 && ReturnOf(returns_, x) > lo {
        assert x in rs;
      }
      GainWithin(rest, returns_, lo);
      assert head in rs;
      WeightedStep(ReturnOf(returns_, head), head.weight, lo, Gain(rest, returns_), WeightSum(rest));
    }
  }

  lemma WeightedStep(r: real, w: real, lo: real, g: real, t: real)
    requires w > 0.0 && r > lo && g >= lo * t
    ensures r * w + g > lo * (w + t)
  {
    assert (r - lo) * w > 0.0;
  }

  lemma QuotientAbove(g: real, t: real, lo: real)
    requires t > 0.0 && g > lo * t
    ensures g / t > lo
  {
    assert (g / t - lo) * t == g - lo * t;
  }

  /** A weighted return exceeds any bound that every selected return exceeds. */
  lemma DayReturnAbove(group: seq<Record>, returns_: Returns, lo: real)
    requires forall x | x in group :: ReturnOf(returns_, x) > lo
    ensures DayReturn(group, returns_).Some? ==> DayReturn(group, returns_).value > lo
    ensures DayReturn(group, returns_).Some? <==> exists x :: x in group && x.weight > 0.0
  {
    var selected := SelectedOf(group);
    GainWithin(selected, returns_, lo);
    SelectedRecords(group);
    if selected != [] {
      QuotientAbove(Gain(selected, returns_), WeightSum(selected), lo);
      assert selected[0] in selected;
    }
  }

  lemma {:induction false} SelectedRecords(group: seq<Record>)
    ensures forall x | x in group && x.weight > 0.0 :: x in SelectedOf(group)
  {
    if group != [] {
      SelectedRecords(group[1..]);
    }
  }

  function Net(daily: seq<real>, cost: real): (r: seq<real>)
    ensures |r| == |daily| && forall i | 0 <= i < |r| :: r[i] == daily[i] - cost
  {
    seq(|daily|, i requires 0 <= i < |daily| => daily[i] - cost)
  }

  lemma {:induction false} DefinedAbove(xs: seq<Option<real>>, lo: real)
    requires forall i | 0 <= i < |xs| && xs[i].Some? :: xs[i].value > lo
    ensures forall i | 0 <= i < |Defined(xs)| :: Defined(xs)[i] > lo
  {
    if xs != [] {
      DefinedAbove(xs[..|xs| - 1], lo);
    }
  }

  /** When every realized return beats the cost by more than a total loss, so does every day of the selection. */
  lemma SelectionStaysSolvent(records: seq<Record>, returns_: Returns, cost: real)
    requires forall r | r in records :: ReturnOf(returns_, r) > cost - 1.0
    ensures Drawdown.Solvent(Net(SelectedReturns(records, returns_), cost))
  {
    var sessions := SessionList(records);
    var f := SessionReturn(records, returns_);
    forall i | 0 <= i < |sessions| && f(sessions[i]).Some? ensures f(sessions[i]).value > cost - 1.0 {
      SessionAbove(records, returns_, cost - 1.0, sessions[i]);
    }
    DefinedAbove(Series(sessions, f), cost - 1.0);
  }

  lemma SessionAbove(records: seq<Record>, returns_: Returns, lo: real, session: int)
    requires forall r | r in records :: ReturnOf(returns_, r) > lo
    ensures SessionReturn(records, returns_)(session).Some? ==> SessionReturn(records, returns_)(session).value > lo
  {
    var group := SessionGroup(records, session);
    SameMembers(Of(records, RECORD_SESSION, session), group);
    forall x | x in group ensures ReturnOf(returns_, x) > lo {
      assert x in records;
    }
    DayReturnAbove(group, returns_, lo);
  }

  /** So the reported net drawdown is the deepest fall of net wealth, above a total loss. */
  lemma NetDrawdownMeansDeepestFall(records: seq<Record>, returns_: Returns, cost: real)
    requires forall r | r in records :: ReturnOf(returns_, r) > cost - 1.0
    ensures var net := Net(SelectedReturns(records, returns_), cost);
      -1.0 < Drawdown.Worst(net) <= 0.0 && Drawdown.IsDeepestFall(net, Drawdown.Worst(net))
  {
    SelectionStaysSolvent(records, returns_, cost);
    var net := Net(SelectedReturns(records, returns_), cost);
    Drawdown.AboveTotalLossIff(net);
    Drawdown.WorstIsDeepest(net);
  }

  // ---- the comparison ----

  datatype Evaluated = Evaluated(role: Role, dataset: int, records: seq<Record>)

  datatype Protocol = Protocol(dataset: int, target: int, cost: real)

  datatype Realized = Realized(session: int, symbol: int, value: real, dataset: int, target: int)

  datatype Side = Side(
    coverage: real,
    selectionCount: nat,
    rankIc: Option<real>,
    topReturn: Option<real>,
    net: Option<real>,
    drawdown: Option<real>)

  datatype Comparison = Comparison(incumbent: Side, challenger: Side, turnover: Option<real>, stability: Verdict)

  datatype CompareError =
    | IncumbentFirst
    | ChallengerSecond
    | DatasetOwnerDiffers
    | PopulationDiffers
    | TargetPopulationDrifted
    | TargetLineageDrifted

  function RecordPairs(records: seq<Record>): set<(int, int)> {
    set r | r in records :: (r.session, r.symbol)
  }

  function RealizedPairs(realized: seq<Realized>): seq<(int, int)> {
    seq(|realized|, i requires 0 <= i < |realized| => (realized[i].session, realized[i].symbol))
  }

  function ReturnTable(realized: seq<Realized>): Returns {
    if realized == [] then map[] else
      var last := realized[|realized| - 1];
      ReturnTable(realized[..|realized| - 1])[(last.session, last.symbol) := last.value]
  }

  lemma {:induction false} TablePairs(realized: seq<Realized>)
    ensures forall p :: p in ReturnTable(realized) <==> p in RealizedPairs(realized)
  {
    if realized != [] {
      var init, last := realized[..|realized| - 1], realized[|realized| - 1];
      TablePairs(init);
      assert RealizedPairs(realized) == RealizedPairs(init) + [(last.session, last.symbol)];
    }
  }

  /** What a comparison demands of its four inputs. */
  ghost predicate Comparable(incumbent: Evaluated, challenger: Evaluated, protocol: Protocol, realized: seq<Realized>) {
    && incumbent.role == Incumbent && challenger.role == Challenger
    && incumbent.dataset == challenger.dataset == protocol.dataset
    && RecordPairs(incumbent.records) == RecordPairs(challenger.records) != {}
    && Distinct(RealizedPairs(realized))
    && Elements(RealizedPairs(realized)) == RecordPairs(incumbent.records)
    && (forall i | 0 <= i < |realized| ::
          realized[i].dataset == protocol.dataset && realized[i].target == protocol.target)
  }

  function CountSelected(records: seq<Record>): nat {
    if records == [] then 0 else (if records[0].status == Selected then 1 else 0) + CountSelected(records[1..])
  }

  function CountUsable(records: seq<Record>): nat {
    if records == [] then 0 else
      (if records[0].eligible && records[0].factorAvailable then 1 else 0) + CountUsable(records[1..])
  }

  function MakeSide(records: seq<Record>, ic: Option<real>, daily: seq<real>, drawdown: Option<real>, cost: real): Side
    requires records != []
  {
    var top := Mean(daily);
    Side(CountUsable(records) as real / |records| as real, CountSelected(records), ic, top,
         if top.Some? then Some(top.value - cost) else None, drawdown)
  }

  ghost function SideOf(records: seq<Record>, returns_: Returns, cost: real, root: real -> real): Side
    requires Covers(returns_, records) && IsRoot(root) && records != []
  {
    var daily := SelectedReturns(records, returns_);
    MakeSide(records, RankIc(records, returns_, root), daily, Drawdown.Deepest(Net(daily, cost)), cost)
  }

  method SideReport(records: seq<Record>, returns_: Returns, cost: real, root: real -> real) returns (side: Side)
    requires Covers(returns_, records) && IsRoot(root) && records != []
    ensures side == SideOf(records, returns_, cost, root)
  {
    var ic := RankIcOf(records, returns_, root);
    var daily := SelectedDailyReturns(records, returns_);
    var drawdown := Drawdown.DrawdownOf(Net(daily, cost));
    return MakeSide(records, ic, daily, drawdown, cost);
  }

  lemma {:induction false} TableCovers(records: seq<Record>, realized: seq<Realized>)
    requires Elements(RealizedPairs(realized)) == RecordPairs(records)
    ensures Covers(ReturnTable(realized), records)
  {
    TablePairs(realized);
    forall r | r in records ensures (r.session, r.symbol) in ReturnTable(realized) {
      assert (r.session, r.symbol) in RecordPairs(records);
    }
  }

  function DistanceTable(a: seq<Record>, b: seq<Record>, sessions: seq<int>): seq<real> {
    seq(|sessions|, i requires 0 <= i < |sessions| =>
      HalfDistance(WeightMap(SessionGroup(a, sessions[i])), WeightMap(SessionGroup(b, sessions[i]))))
  }

  method CheckComparable(incumbent: Evaluated, challenger: Evaluated, protocol: Protocol, realized: seq<Realized>)
    returns (e: Option<CompareError>)
    ensures e.None? <==> Comparable(incumbent, challenger, protocol, realized)
  {
    if incumbent.role != Incumbent {
      return Some(IncumbentFirst);
    }
    if challenger.role != Challenger {
      return Some(ChallengerSecond);
    }
    if incumbent.dataset != protocol.dataset || challenger.dataset != protocol.dataset {
      return Some(DatasetOwnerDiffers);
    }
    var keys := RecordPairs(incumbent.records);
    if keys != RecordPairs(challenger.records) || keys == {} {
      return Some(PopulationDiffers);
    }
    var targetKeys := RealizedPairs(realized);
    CardinalityDetectsDuplicates(targetKeys);
    if |targetKeys| != |Elements(targetKeys)| || Elements(targetKeys) != keys {
      return Some(TargetPopulationDrifted);
    }
    if exists i | 0 <= i < |realized| ::
        realized[i].dataset != protocol.dataset || realized[i].target != protocol.target
    {
      return Some(TargetLineageDrifted);
    }
    return None;
  }

  method SelectionTurnover(a: seq<Record>, b: seq<Record>) returns (t: Option<real>)
    ensures t == Turnover(a, b)
  {
    var sessions := SharedSessions(a, b);
    var distances := DistanceTable(a, b, sessions);
    TableIsSeries(distances, sessions, a, b);
    return Mean(distances);
  }

  lemma TableIsSeries(distances: seq<real>, sessions: seq<int>, a: seq<Record>, b: seq<Record>)
    requires distances == DistanceTable(a, b, sessions)
    ensures distances == Series(sessions, SessionDistance(a, b))
  {
    forall i | 0 <= i < |sessions| ensures distances[i] == SessionDistance(a, b)(sessions[i]) {
    }
  }

  lemma {:induction false} ComparableCovers(incumbent: Evaluated, challenger: Evaluated, protocol: Protocol,
                                            realized: seq<Realized>)
    requires Comparable(incumbent, challenger, protocol, realized)
    ensures Covers(ReturnTable(realized), incumbent.records) && incumbent.records != []
    ensures Covers(ReturnTable(realized), challenger.records) && challenger.records != []
  {
    TableCovers(incumbent.records, realized);
    TableCovers(challenger.records, realized);
    NoPairsWhenEmpty(incumbent.records);
    NoPairsWhenEmpty(challenger.records);
  }

  lemma NoPairsWhenEmpty(records: seq<Record>)
    ensures records == [] ==> RecordPairs(records) == {}
  {
  }

  ghost function ComparisonOf(incumbent: Evaluated, challenger: Evaluated, protocol: Protocol, realized: seq<Realized>,
                              root: real -> real): Comparison
    requires IsRoot(root) && Comparable(incumbent, challenger, protocol, realized)
  {
    ComparableCovers(incumbent, challenger, protocol, realized);
    Comparison(SideOf(incumbent.records, ReturnTable(realized), protocol.cost, root),
               SideOf(challenger.records, ReturnTable(realized), protocol.cost, root),
               Turnover(incumbent.records, challenger.records),
               Stability(challenger.records, ReturnTable(realized), root))
  }

  method CompareCandidatePolicies(incumbent: Evaluated, challenger: Evaluated, protocol: Protocol,
                                  realized: seq<Realized>, root: real -> real)
    returns (r: Result<Comparison, CompareError>)
    requires IsRoot(root)
    ensures r.Ok? <==> Comparable(incumbent, challenger, protocol, realized)
    ensures r.Ok? ==> r.value == ComparisonOf(incumbent, challenger, protocol, realized, root)
  {
    var failure := CheckComparable(incumbent, challenger, protocol, realized);
    match failure {
      case Some(e) => return Err(e);
      case None =>
        ComparableCovers(incumbent, challenger, protocol, realized);
        var returns_ := ReturnTable(realized);
        var left := SideReport(incumbent.records, returns_, protocol.cost, root);
        var right := SideReport(challenger.records, returns_, protocol.cost, root);
        var turnover := SelectionTurnover(incumbent.records, challenger.records);
        return Ok(Comparison(left, right, turnover, Stability(challenger.records, returns_, root)));
    }
  }

  // ---- two evaluations of one population always compare ----

  lemma MatchingPairs(records: seq<Record>, ordered: seq<Input>)
    requires |records| == |ordered|
    requires forall i | 0 <= i < |records| :: RecordKey(records[i]) == InputKey(ordered[i])
    ensures RecordPairs(records) == Elements(Pairs(ordered))
  {
    forall p ensures p in RecordPairs(records) <==> p in Elements(Pairs(ordered)) {
      if p in RecordPairs(records) {
        var r :| r in records && (r.session, r.symbol) == p;
        var i :| 0 <= i < |records| && records[i] == r;
        assert Pairs(ordered)[i] == p;
      }
      if p in Elements(Pairs(ordered)) {
        var i :| 0 <= i < |ordered| && Pairs(ordered)[i] == p;
        assert records[i] in records && RecordKey(records[i]) == InputKey(ordered[i]);
      }
    }
  }

  lemma PairsOfSame(xs: seq<Input>, ys: seq<Input>)
    requires forall x :: x in xs <==> x in ys
    ensures Elements(Pairs(xs)) == Elements(Pairs(ys))
  {
    PairsWithin(xs, ys);
    PairsWithin(ys, xs);
  }

  lemma PairsWithin(xs: seq<Input>, ys: seq<Input>)
    requires forall x | x in xs :: x in ys
    ensures Elements(Pairs(xs)) <= Elements(Pairs(ys))
  {
    forall p | p in Elements(Pairs(xs)) ensures p in Elements(Pairs(ys)) {
      var i :| 0 <= i < |xs| && Pairs(xs)[i] == p;
      assert xs[i] in ys;
      var j :| 0 <= j < |ys| && ys[j] == xs[i];
      assert Pairs(ys)[j] == p;
    }
  }

  lemma EvaluationPairs(policy: Policy, inputs: seq<Input>)
    requires policy.topK > 0 && Distinct(Pairs(inputs))
    ensures RecordPairs(Evaluation(policy, inputs)) == Elements(Pairs(inputs))
  {
    EvaluationKeys(policy, inputs);
    MatchingPairs(Evaluation(policy, inputs), Ordered(inputs));
    SameMembers(inputs, Ordered(inputs));
    PairsOfSame(inputs, Ordered(inputs));
  }

  /** Incumbent and challenger evaluations of the same inputs, with one realized return each, are comparable. */
  lemma EvaluationsOfOnePopulationCompare(incumbent: Policy, challenger: Policy, inputs: seq<Input>,
                                          protocol: Protocol, realized: seq<Realized>)
    requires ValidPolicy(incumbent) && ValidPolicy(challenger)
    requires incumbent.role == Incumbent && challenger.role == Challenger
    requires incumbent.dataset == challenger.dataset == protocol.dataset
    requires Distinct(Pairs(inputs)) && inputs != []
    requires Distinct(RealizedPairs(realized)) && Elements(RealizedPairs(realized)) == Elements(Pairs(inputs))
    requires forall i | 0 <= i < |realized| ::
      realized[i].dataset == protocol.dataset && realized[i].target == protocol.target
    ensures Comparable(Evaluated(Incumbent, incumbent.dataset, Evaluation(incumbent, inputs)),
                       Evaluated(Challenger, challenger.dataset, Evaluation(challenger, inputs)), protocol, realized)
  {
    EvaluationPairs(incumbent, inputs);
    EvaluationPairs(challenger, inputs);
    assert Pairs(inputs)[0] in Elements(Pairs(inputs));
  }
}
