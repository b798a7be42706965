/** A whole evaluation: sorting, uniqueness, grouping by session, and one record per input in key order. */
module PolicyEvaluation {
  import opened Wrappers
  import opened Ordering
  import opened Grouping
  import opened PolicyContracts
  import opened CandidatePolicy

  const SESSION_OF: Input -> int := (i: Input) => i.session

  const INPUT_KEY: Input -> Key := (i: Input) => InputKey(i)

  const RECORD_KEY: Record -> Key := (r: Record) => RecordKey(r)

  function Ordered(inputs: seq<Input>): seq<Input> {
    Sort(inputs, INPUT_KEY)
  }

  ghost predicate AdmissibleInputs(policy: Policy, inputs: seq<Input>) {
    && (forall i | 0 <= i < |inputs| :: inputs[i].dataset == policy.dataset)
    && Distinct(Pairs(inputs))
  }

  /** The record one input must get: it depends on its own session alone. */
  ghost function RecordFor(policy: Policy, inputs: seq<Input>, item: Input): Record
    requires policy.topK > 0 && item in inputs && Distinct(Pairs(inputs))
  {
    SessionLookup(inputs, item);
    FinalRecord(policy, CrossOf(Of(Ordered(inputs), SESSION_OF, item.session)), item.symbol)
  }

  ghost function Evaluation(policy: Policy, inputs: seq<Input>): seq<Record>
    requires policy.topK > 0 && Distinct(Pairs(inputs))
  {
    SameMembers(inputs, Ordered(inputs));
    assert forall i | 0 <= i < |inputs| :: Ordered(inputs)[i] in Ordered(inputs);
    seq(|inputs|, i requires 0 <= i < |inputs| => RecordFor(policy, inputs, Ordered(inputs)[i]))
  }

  lemma PairsTellApart(xs: seq<Input>)
    requires Distinct(Pairs(xs))
    ensures KeysDiffer(xs, INPUT_KEY)
    ensures Distinct(xs)
  {
    forall x, y | x in xs && y in xs && INPUT_KEY(x) == INPUT_KEY(y) ensures x == y {
      var i :| 0 <= i < |xs| && xs[i] == x;
      var j :| 0 <= j < |xs| && xs[j] == y;
      assert Pairs(xs)[i] == Pairs(xs)[j];
    }
    forall i, j | 0 <= i < j < |xs| ensures xs[i] != xs[j] {
      assert Pairs(xs)[i] != Pairs(xs)[j];
    }
  }

  /** Permutations keep the pairs distinct. */
  lemma PairsOfPermutation(xs: seq<Input>, ys: seq<Input>)
    requires multiset(xs) == multiset(ys) && Distinct(Pairs(xs))
    ensures Distinct(Pairs(ys))
  {
    PairsTellApart(xs);
    PermutationDistinct(xs, ys);
    KeysDifferPermutation(xs, ys, INPUT_KEY);
    forall i, j | 0 <= i < j < |ys| ensures Pairs(ys)[i] != Pairs(ys)[j] {
      assert ys[i] in ys && ys[j] in ys && ys[i] != ys[j];
      assert INPUT_KEY(ys[i]) != INPUT_KEY(ys[j]);
    }
  }

  lemma {:induction false} GroupSymbolsDistinct(xs: seq<Input>, session: int)
    requires Distinct(Pairs(xs))
    ensures Distinct(Symbols(Of(xs, SESSION_OF, session)))
  {
    if xs != [] {
      var init, last := xs[..|xs| - 1], xs[|xs| - 1];
      assert Distinct(Pairs(init)) by {
        assert forall i | 0 <= i < |init| :: Pairs(init)[i] == Pairs(xs)[i];
      }
      GroupSymbolsDistinct(init, session);
      var group := Of(init, SESSION_OF, session);
      if last.session == session {
        assert Of(xs, SESSION_OF, session) == group + [last];
        assert Symbols(group + [last]) == Symbols(group) + [last.symbol];
        forall i | 0 <= i < |group| ensures group[i].symbol != last.symbol {
          assert group[i] in group;
          var j :| 0 <= j < |init| && init[j] == group[i];
          assert Pairs(xs)[j] != Pairs(xs)[|init|];
        }
      }
    }
  }

  lemma SessionLookup(inputs: seq<Input>, item: Input)
    requires item in inputs && Distinct(Pairs(inputs))
    ensures Distinct(Symbols(Of(Ordered(inputs), SESSION_OF, item.session)))
    ensures item.symbol in CrossOf(Of(Ordered(inputs), SESSION_OF, item.session))
  {
    SameMembers(inputs, Ordered(inputs));
    PairsOfPermutation(inputs, Ordered(inputs));
    GroupSymbolsDistinct(Ordered(inputs), item.session);
    var group := Of(Ordered(inputs), SESSION_OF, item.session);
    CrossLookup(group);
    assert item in group;
    var i :| 0 <= i < |group| && group[i] == item;
  }

  // ---- the evaluator ----

  method EvaluateSession(policy: Policy, items: seq<Input>) returns (r: Result<seq<Record>, PolicyError>)
    requires ValidPolicy(policy)
    requires Distinct(Symbols(items)) && forall i | 0 <= i < |items| :: ValidInput(items[i])
    ensures r == Ok(SessionRecords(policy, items))
  {
    var provisional := ProvisionalPass(policy, items);
    match provisional {
      case Err(e) => return Err(e);
      case Ok(records) => r := FinalPass(policy, items, records);
    }
  }

  ghost predicate ExpectedUpTo(policy: Policy, inputs: seq<Input>, sessions: seq<int>, records: seq<Record>)
    requires policy.topK > 0 && Distinct(Pairs(inputs))
  {
    var done := Flatten(Ordered(inputs), SESSION_OF, sessions);
    && |records| == |done|
    && forall i | 0 <= i < |done| :: done[i] in inputs && records[i] == RecordFor(policy, inputs, done[i])
  }

  lemma SessionStep(policy: Policy, inputs: seq<Input>, sessions: seq<int>, n: nat, records: seq<Record>)
    requires policy.topK > 0 && Distinct(Pairs(inputs)) && n < |sessions|
    requires ExpectedUpTo(policy, inputs, sessions[..n], records)
    ensures Distinct(Symbols(Of(Ordered(inputs), SESSION_OF, sessions[n])))
    ensures ExpectedUpTo(policy, inputs, sessions[..n + 1],
                         records + SessionRecords(policy, Of(Ordered(inputs), SESSION_OF, sessions[n])))
  {
    var ordered := Ordered(inputs);
    SameMembers(inputs, ordered);
    PairsOfPermutation(inputs, ordered);
    GroupSymbolsDistinct(ordered, sessions[n]);
    var group := Of(ordered, SESSION_OF, sessions[n]);
    assert sessions[..n + 1][..n] == sessions[..n];
    forall i | 0 <= i < |group|
      ensures group[i] in inputs && SessionRecords(policy, group)[i] == RecordFor(policy, inputs, group[i])
    {
      assert group[i] in group;
    }
  }

  lemma {:induction false} GroupDistinct(inputs: seq<Input>, session: int)
    requires Distinct(Pairs(inputs))
    ensures Distinct(Symbols(Of(Ordered(inputs), SESSION_OF, session)))
  {
    PairsOfPermutation(inputs, Ordered(inputs));
    GroupSymbolsDistinct(Ordered(inputs), session);
  }

  /** The records of the listed sessions, in turn. */
  ghost function SessionsInTurn(policy: Policy, inputs: seq<Input>, sessions: seq<int>): seq<Record>
    requires policy.topK > 0 && Distinct(Pairs(inputs))
  {
    if sessions == [] then [] else
      GroupDistinct(inputs, sessions[|sessions| - 1]);
      SessionsInTurn(policy, inputs, sessions[..|sessions| - 1])
      + SessionRecords(policy, Of(Ordered(inputs), SESSION_OF, sessions[|sessions| - 1]))
  }

  lemma {:induction false} InTurnIsExpected(policy: Policy, inputs: seq<Input>, sessions: seq<int>)
    requires policy.topK > 0 && Distinct(Pairs(inputs))
    ensures ExpectedUpTo(policy, inputs, sessions, SessionsInTurn(policy, inputs, sessions))
  {
    if sessions != [] {
      var n := |sessions| - 1;
      InTurnIsExpected(policy, inputs, sessions[..n]);
      SessionStep(policy, inputs, sessions, n, SessionsInTurn(policy, inputs, sessions[..n]));
      assert sessions[..n + 1] == sessions;
    }
  }

  lemma {:induction false} InTurnStep(policy: Policy, inputs: seq<Input>, sessions: seq<int>, n: nat)
    requires policy.topK > 0 && Distinct(Pairs(inputs)) && n < |sessions|
    ensures Distinct(Symbols(Of(Ordered(inputs), SESSION_OF, sessions[n])))
    ensures SessionsInTurn(policy, inputs, sessions[..n + 1]) ==
            SessionsInTurn(policy, inputs, sessions[..n])
            + SessionRecords(policy, Of(Ordered(inputs), SESSION_OF, sessions[n]))
  {
    GroupDistinct(inputs, sessions[n]);
    var longer := sessions[..n + 1];
    assert longer[..|longer| - 1] == sessions[..n] && longer[|longer| - 1] == sessions[n];
  }

  lemma SessionsRestoreOrder(inputs: seq<Input>)
    requires Distinct(Pairs(inputs))
    ensures Flatten(Ordered(inputs), SESSION_OF, SortedSeq(GroupsOf(Ordered(inputs), SESSION_OF))) == Ordered(inputs)
  {
    PairsOfPermutation(inputs, Ordered(inputs));
    PairsTellApart(Ordered(inputs));
    GroupsRestoreOrder(Ordered(inputs), SESSION_OF, INPUT_KEY);
  }

  lemma {:induction false} ExpectedInOrder(policy: Policy, inputs: seq<Input>, sessions: seq<int>, records: seq<Record>)
    requires policy.topK > 0 && Distinct(Pairs(inputs))
    requires Flatten(Ordered(inputs), SESSION_OF, sessions) == Ordered(inputs)
    requires ExpectedUpTo(policy, inputs, sessions, records)
    ensures records == Evaluation(policy, inputs)
  {
    SameMembers(inputs, Ordered(inputs));
    assert |records| == |Evaluation(policy, inputs)|;
  }

  lemma {:induction false} AllSessionsGiveEvaluation(policy: Policy, inputs: seq<Input>)
    requires policy.topK > 0 && Distinct(Pairs(inputs))
    ensures SessionsInTurn(policy, inputs, SortedSeq(GroupsOf(Ordered(inputs), SESSION_OF)))
         == Evaluation(policy, inputs)
  {
    var sessions := SortedSeq(GroupsOf(Ordered(inputs), SESSION_OF));
    SessionsRestoreOrder(inputs);
    InTurnIsExpected(policy, inputs, sessions);
    ExpectedInOrder(policy, inputs, sessions, SessionsInTurn(policy, inputs, sessions));
  }

  lemma RecordKeepsKey(policy: Policy, inputs: seq<Input>, item: Input)
    requires policy.topK > 0 && item in inputs && Distinct(Pairs(inputs))
    ensures RecordKey(RecordFor(policy, inputs, item)) == InputKey(item)
  {
    SessionLookup(inputs, item);
    var group := Of(Ordered(inputs), SESSION_OF, item.session);
    CrossLookup(group);
    assert CrossOf(group)[item.symbol] in group;
  }

  lemma KeysOfRecords(policy: Policy, inputs: seq<Input>)
    requires policy.topK > 0 && Distinct(Pairs(inputs))
    ensures |Evaluation(policy, inputs)| == |inputs| == |Ordered(inputs)|
    ensures forall i | 0 <= i < |inputs| :: RecordKey(Evaluation(policy, inputs)[i]) == InputKey(Ordered(inputs)[i])
  {
    SameMembers(inputs, Ordered(inputs));
    forall i | 0 <= i < |inputs| ensures RecordKey(Evaluation(policy, inputs)[i]) == InputKey(Ordered(inputs)[i]) {
      RecordKeepsKey(policy, inputs, Ordered(inputs)[i]);
    }
  }

  /** Records with the keys of sorted inputs whose pairs differ are sorted, and their keys differ. */
  lemma KeysCarryOrder(ordered: seq<Input>, records: seq<Record>)
    requires Distinct(Pairs(ordered)) && Sorted(ordered, INPUT_KEY) && |records| == |ordered|
    requires forall i | 0 <= i < |records| :: RecordKey(records[i]) == InputKey(ordered[i])
    ensures Sorted(records, RECORD_KEY) && KeysDiffer(records, RECORD_KEY)
  {
    forall i, j | 0 <= i < j < |records| ensures AtMost(RECORD_KEY(records[i]), RECORD_KEY(records[j])) {
      assert AtMost(INPUT_KEY(ordered[i]), INPUT_KEY(ordered[j]));
    }
    forall x, y | x in records && y in records && RECORD_KEY(x) == RECORD_KEY(y) ensures x == y {
      var i :| 0 <= i < |records| && records[i] == x;
      var j :| 0 <= j < |records| && records[j] == y;
      assert Pairs(ordered)[i] == Pairs(ordered)[j];
    }
  }

  /** One record per input, and the records come out sorted and unique. */
  lemma EvaluationKeys(policy: Policy, inputs: seq<Input>)
    requires policy.topK > 0 && Distinct(Pairs(inputs))
    ensures |Evaluation(policy, inputs)| == |inputs| == |Ordered(inputs)|
    ensures forall i | 0 <= i < |inputs| :: RecordKey(Evaluation(policy, inputs)[i]) == InputKey(Ordered(inputs)[i])
    ensures Sorted(Evaluation(policy, inputs), RECORD_KEY)
    ensures KeysDiffer(Evaluation(policy, inputs), RECORD_KEY)
  {
    KeysOfRecords(policy, inputs);
    PairsOfPermutation(inputs, Ordered(inputs));
    KeysCarryOrder(Ordered(inputs), Evaluation(policy, inputs));
  }

  lemma DatasetsAsChecked(policy: Policy, inputs: seq<Input>)
    ensures (exists i | 0 <= i < |Ordered(inputs)| :: Ordered(inputs)[i].dataset != policy.dataset) <==>
            !(forall i | 0 <= i < |inputs| :: inputs[i].dataset == policy.dataset)
  {
    var ordered := Ordered(inputs);
    SameMembers(inputs, ordered);
    forall i | 0 <= i < |inputs| ensures inputs[i] in ordered && ordered[i] in inputs {
      assert ordered[i] in ordered;
    }
  }

  lemma PairsAsChecked(inputs: seq<Input>)
    ensures |Elements(Pairs(Ordered(inputs)))| == |Pairs(Ordered(inputs))| <==> Distinct(Pairs(inputs))
  {
    var ordered := Ordered(inputs);
    CardinalityDetectsDuplicates(Pairs(ordered));
    if Distinct(Pairs(ordered)) {
      PairsOfPermutation(ordered, inputs);
    }
    if Distinct(Pairs(inputs)) {
      PairsOfPermutation(inputs, ordered);
    }
  }

  method EvaluateCandidatePolicy(policy: Policy, inputs: seq<Input>) returns (r: Result<seq<Record>, PolicyError>)
    requires ValidPolicy(policy) && forall i | 0 <= i < |inputs| :: ValidInput(inputs[i])
    ensures r.Ok? <==> AdmissibleInputs(policy, inputs)
    ensures r.Ok? ==> r.value == Evaluation(policy, inputs)
    ensures r.Err? ==> r.error == OutsideDataset || r.error == DuplicateInputs
  {
    var ordered := Ordered(inputs);
    DatasetsAsChecked(policy, inputs);
    PairsAsChecked(inputs);
    if exists i | 0 <= i < |ordered| :: ordered[i].dataset != policy.dataset {
      return Err(OutsideDataset);
    }
    if |Elements(Pairs(ordered))| != |Pairs(ordered)| {
      return Err(DuplicateInputs);
    }
    r := EvaluateSessions(policy, inputs, ordered);
  }

  lemma {:induction false} GroupsAreValid(inputs: seq<Input>, session: int)
    requires forall i | 0 <= i < |inputs| :: ValidInput(inputs[i])
    ensures forall x | x in Of(Ordered(inputs), SESSION_OF, session) :: ValidInput(x)
  {
    SameMembers(inputs, Ordered(inputs));
    forall x | x in Of(Ordered(inputs), SESSION_OF, session) ensures ValidInput(x) {
      assert x in inputs;
    }
  }

  lemma {:induction false} Finished(policy: Policy, inputs: seq<Input>, records: seq<Record>)
    requires policy.topK > 0 && Distinct(Pairs(inputs))
    requires records == SessionsInTurn(policy, inputs, SortedSeq(GroupsOf(Ordered(inputs), SESSION_OF)))
    ensures Sort(records, RECORD_KEY) == Evaluation(policy, inputs)
  {
    AllSessionsGiveEvaluation(policy, inputs);
    EvaluationKeys(policy, inputs);
    SortOfSorted(records, RECORD_KEY);
  }

  /** One more session of the loop: its records follow those of the sessions before it. */
  method EvaluateNext(policy: Policy, ghost inputs: seq<Input>, ghost sessions: seq<int>, ghost n: nat,
                      items: seq<Input>)
    returns (r: Result<seq<Record>, PolicyError>)
    requires ValidPolicy(policy) && Distinct(Pairs(inputs)) && n < |sessions|
    requires forall i | 0 <= i < |inputs| :: ValidInput(inputs[i])
    requires items == Of(Ordered(inputs), SESSION_OF, sessions[n])
    ensures r.Ok?
    ensures SessionsInTurn(policy, inputs, sessions[..n + 1]) == SessionsInTurn(policy, inputs, sessions[..n]) + r.value
  {
    InTurnStep(policy, inputs, sessions, n);
    GroupsAreValid(inputs, sessions[n]);
    r := EvaluateSession(policy, items);
  }

  method EvaluateEach(policy: Policy, ghost inputs: seq<Input>, groups: map<int, seq<Input>>, sessions: seq<int>)
    returns (r: Result<seq<Record>, PolicyError>)
    requires ValidPolicy(policy) && Distinct(Pairs(inputs))
    requires forall i | 0 <= i < |inputs| :: ValidInput(inputs[i])
    requires forall i | 0 <= i < |sessions| ::
      sessions[i] in groups && groups[sessions[i]] == Of(Ordered(inputs), SESSION_OF, sessions[i])
    ensures r == Ok(SessionsInTurn(policy, inputs, sessions))
  {
    var records: seq<Record> := [];
    for n := 0 to |sessions|
      invariant records == SessionsInTurn(policy, inputs, sessions[..n])
    {
      var session := EvaluateNext(policy, inputs, sessions, n, groups[sessions[n]]);
      match session {
        case Err(e) => return Err(e);
        case Ok(done) => records := records + done;
      }
    }
    assert sessions[..|sessions|] == sessions;
    return Ok(records);
  }

  method EvaluateSessions(policy: Policy, ghost inputs: seq<Input>, ordered: seq<Input>)
    returns (r: Result<seq<Record>, PolicyError>)
    requires ValidPolicy(policy) && Distinct(Pairs(inputs))
    requires forall i | 0 <= i < |inputs| :: ValidInput(inputs[i])
    requires ordered == Ordered(inputs)
    ensures r == Ok(Evaluation(policy, inputs))
  {
    var groups := GroupBy(ordered, SESSION_OF);
    var sessions := SortedSeq(groups.Keys);
    forall i | 0 <= i < |sessions| ensures sessions[i] in groups {
      assert sessions[i] in sessions;
    }
    var evaluated := EvaluateEach(policy, inputs, groups, sessions);
    match evaluated {
      case Err(e) => return Err(e);
      case Ok(records) =>
        Finished(policy, inputs, records);
        return Ok(Sort(records, RECORD_KEY));
    }
  }
}
