/** Non-interference and conserved exposure, stated on the inputs and the records of a whole evaluation. */
module EvaluationTheorems {
  import opened FiniteSums
  import opened Ordering
  import opened Grouping
  import opened BoundarySelection
  import opened PolicyContracts
  import opened CandidatePolicy
  import opened PolicyEvaluation
  import opened PolicyTheorems
  import opened PolicyComparison
  import opened ComparisonReport

  // ---- non-interference ----

  /** The population of one session, as the evaluator sees it. */
  ghost function SessionCross(inputs: seq<Input>, session: int): map<int, Input> {
    CrossOf(Of(Ordered(inputs), SESSION_OF, session))
  }

  lemma SessionCrossHolds(inputs: seq<Input>, session: int)
    requires Distinct(Pairs(inputs))
    ensures forall x | x in inputs && x.session == session ::
      x.symbol in SessionCross(inputs, session) && SessionCross(inputs, session)[x.symbol] == x
    ensures forall s | s in SessionCross(inputs, session) ::
      var x := SessionCross(inputs, session)[s]; x in inputs && x.session == session && x.symbol == s
  {
    var group := Of(Ordered(inputs), SESSION_OF, session);
    SameMembers(inputs, Ordered(inputs));
    GroupDistinct(inputs, session);
    CrossLookup(group);
    forall x | x in inputs && x.session == session
      ensures x.symbol in CrossOf(group) && CrossOf(group)[x.symbol] == x
    {
      assert x in group;
      var i :| 0 <= i < |group| && group[i] == x;
    }
  }

  function Without(inputs: seq<Input>, i: nat): (rest: seq<Input>)
    requires i < |inputs|
    ensures forall x | x in rest :: x in inputs
  {
    inputs[..i] + inputs[i + 1..]
  }

  lemma WithoutKeepsPairs(inputs: seq<Input>, i: nat)
    requires i < |inputs| && Distinct(Pairs(inputs))
    ensures Distinct(Pairs(Without(inputs, i)))
    ensures forall x :: x in Without(inputs, i) <==> x in inputs && x != inputs[i]
    ensures forall x | x in Without(inputs, i) :: (x.session, x.symbol) != (inputs[i].session, inputs[i].symbol)
  {
    var rest := Without(inputs, i);
    forall j | 0 <= j < |rest| ensures rest[j] == inputs[if j < i then j else j + 1] {
    }
    forall j, k | 0 <= j < k < |rest| ensures Pairs(rest)[j] != Pairs(rest)[k] {
      assert Pairs(inputs)[if j < i then j else j + 1] != Pairs(inputs)[if k < i then k else k + 1];
    }
    forall x | x in rest ensures (x.session, x.symbol) != (inputs[i].session, inputs[i].symbol) {
      var j :| 0 <= j < |rest| && rest[j] == x;
      assert Pairs(inputs)[if j < i then j else j + 1] != Pairs(inputs)[i];
    }
    forall x | x in inputs && x != inputs[i] ensures x in rest {
      var j :| 0 <= j < |inputs| && inputs[j] == x;
      assert rest[if j < i then j else j - 1] == x;
    }
  }

  lemma CrossWithout(inputs: seq<Input>, i: nat, session: int)
    requires i < |inputs| && Distinct(Pairs(inputs))
    ensures Distinct(Pairs(Without(inputs, i)))
    ensures SessionCross(Without(inputs, i), session) ==
            if session == inputs[i].session then SessionCross(inputs, session) - {inputs[i].symbol}
            else SessionCross(inputs, session)
  {
    WithoutKeepsPairs(inputs, i);
    SessionCrossHolds(inputs, session);
    SessionCrossHolds(Without(inputs, i), session);
    var less, all := SessionCross(Without(inputs, i), session), SessionCross(inputs, session);
    var expected := if session == inputs[i].session then all - {inputs[i].symbol} else all;
    forall s ensures s in less <==> s in expected {
      if s in less {
        assert less[s] in Without(inputs, i);
      }
      if s in expected {
        assert all[s] in inputs && all[s] != inputs[i];
      }
    }
    forall s | s in less && s in expected ensures less[s] == expected[s] {
      assert less[s] in inputs;
    }
    SameMap(less, expected);
  }

  /** Dropping a hard-ineligible input changes the record of no other input. */
  lemma IneligibleInputIsInvisible(policy: Policy, inputs: seq<Input>, i: nat, item: Input)
    requires policy.topK > 0 && i < |inputs| && Distinct(Pairs(inputs)) && item in Without(inputs, i)
    requires forall j | 0 <= j < |inputs| :: ValidInput(inputs[j])
    requires HardReasons(policy, inputs[i]) != {}
    ensures item in inputs && Distinct(Pairs(Without(inputs, i)))
    ensures RecordFor(policy, Without(inputs, i), item) == RecordFor(policy, inputs, item)
  {
    var session := item.session;
    WithoutKeepsPairs(inputs, i);
    CrossWithout(inputs, i, session);
    if session == inputs[i].session {
      SessionIsValid(inputs, session);
      SessionCrossHolds(inputs, session);
      assert inputs[i] in inputs;
      IneligibleIsInvisible(policy, SessionCross(inputs, session), inputs[i].symbol, item.symbol);
    }
  }

  /** So is replacing it by any other hard-ineligible input, of whatever symbol, session and values. */
  lemma IneligibleInputIsInert(policy: Policy, inputs: seq<Input>, i: nat, other: Input, item: Input)
    requires policy.topK > 0 && i < |inputs|
    requires Distinct(Pairs(inputs)) && Distinct(Pairs(inputs[i := other]))
    requires ValidInput(other) && forall j | 0 <= j < |inputs| :: ValidInput(inputs[j])
    requires HardReasons(policy, inputs[i]) != {} && HardReasons(policy, other) != {}
    requires item in Without(inputs, i)
    ensures item in inputs && item in inputs[i := other]
    ensures RecordFor(policy, inputs[i := other], item) == RecordFor(policy, inputs, item)
  {
    var changed := inputs[i := other];
    assert Without(changed, i) == Without(inputs, i);
    IneligibleInputIsInvisible(policy, inputs, i, item);
    IneligibleInputIsInvisible(policy, changed, i, item);
  }

  // ---- conserved exposure ----

  /** Record by record, the records of the items. */
  ghost predicate Records(policy: Policy, inputs: seq<Input>, items: seq<Input>, records: seq<Record>)
    requires policy.topK > 0 && Distinct(Pairs(inputs))
  {
    |records| == |items|
    && forall k | 0 <= k < |items| :: items[k] in inputs && records[k] == RecordFor(policy, inputs, items[k])
  }

  lemma RecordAt(policy: Policy, inputs: seq<Input>, n: nat)
    requires policy.topK > 0 && Distinct(Pairs(inputs)) && n < |inputs|
    ensures |Ordered(inputs)| == |inputs| == |Evaluation(policy, inputs)|
    ensures var x, r := Ordered(inputs)[n], Evaluation(policy, inputs)[n];
      x in inputs && r == RecordFor(policy, inputs, x) && r.session == x.session
  {
    EvaluationKeys(policy, inputs);
    SameMembers(inputs, Ordered(inputs));
    assert Ordered(inputs)[n] in Ordered(inputs);
    assert RecordKey(Evaluation(policy, inputs)[n]) == InputKey(Ordered(inputs)[n]);
  }

  lemma RecordsAppended(policy: Policy, inputs: seq<Input>, items: seq<Input>, records: seq<Record>, x: Input,
                        r: Record)
    requires policy.topK > 0 && Distinct(Pairs(inputs)) && Records(policy, inputs, items, records)
    requires x in inputs && r == RecordFor(policy, inputs, x)
    ensures Records(policy, inputs, items + [x], records + [r])
  {
  }

  lemma RecordsWithoutLast(policy: Policy, inputs: seq<Input>, items: seq<Input>, records: seq<Record>)
    requires policy.topK > 0 && Distinct(Pairs(inputs)) && Records(policy, inputs, items, records) && items != []
    ensures Records(policy, inputs, items[..|items| - 1], records[..|records| - 1])
    ensures items[|items| - 1] in inputs && records[|records| - 1] == RecordFor(policy, inputs, items[|items| - 1])
  {
  }

  lemma {:induction false} RecordsOfSession(policy: Policy, inputs: seq<Input>, items: seq<Input>,
                                            records: seq<Record>, session: int)
    requires policy.topK > 0 && Distinct(Pairs(inputs)) && Records(policy, inputs, items, records)
    requires forall k | 0 <= k < |items| :: records[k].session == items[k].session
    ensures Records(policy, inputs, Of(items, SESSION_OF, session), Of(records, RECORD_SESSION, session))
  {
    if items != [] {
      var n := |items| - 1;
      RecordsWithoutLast(policy, inputs, items, records);
      RecordsOfSession(policy, inputs, items[..n], records[..n], session);
      if items[n].session == session {
        RecordsAppended(policy, inputs, Of(items[..n], SESSION_OF, session), Of(records[..n], RECORD_SESSION, session),
                        items[n], records[n]);
      }
    }
  }

  /** The records of one session are those of the session's inputs, in symbol order. */
  lemma {:induction false} SessionOfEvaluation(policy: Policy, inputs: seq<Input>, session: int)
    requires policy.topK > 0 && Distinct(Pairs(inputs))
    ensures Distinct(Symbols(Of(Ordered(inputs), SESSION_OF, session)))
    ensures Of(Evaluation(policy, inputs), RECORD_SESSION, session)
         == SessionRecords(policy, Of(Ordered(inputs), SESSION_OF, session))
  {
    EvaluationKeys(policy, inputs);
    forall n | 0 <= n < |inputs|
      ensures var x, r := Ordered(inputs)[n], Evaluation(policy, inputs)[n];
        x in inputs && r == RecordFor(policy, inputs, x) && r.session == x.session
    {
      RecordAt(policy, inputs, n);
    }
    RecordsOfSession(policy, inputs, Ordered(inputs), Evaluation(policy, inputs), session);
    GroupDistinct(inputs, session);
    var items := Of(Ordered(inputs), SESSION_OF, session);
    forall k | 0 <= k < |items| ensures items[k].session == session {
      assert items[k] in items;
    }
  }

  function SymbolsOf(rs: seq<Record>): set<int> {
    set i | 0 <= i < |rs| :: rs[i].symbol
  }

  /** The weights of records with different symbols, as a sum over the symbols. */
  lemma {:induction false} WeightsBySymbol(rs: seq<Record>, f: int -> real)
    requires Distinct(RecordSymbols(rs)) && forall i | 0 <= i < |rs| :: rs[i].weight == f(rs[i].symbol)
    ensures WeightSum(rs) == Sum(SymbolsOf(rs), f)
  {
    if rs == [] {
      assert SymbolsOf(rs) == {};
    } else {
      var rest := rs[1..];
      assert forall i | 0 <= i < |rest| :: RecordSymbols(rest)[i] == RecordSymbols(rs)[i + 1];
      WeightsBySymbol(rest, f);
      SymbolsOfRest(rs);
      SumTake(SymbolsOf(rs), f, rs[0].symbol);
    }
  }

  lemma SymbolsOfRest(rs: seq<Record>)
    requires rs != [] && Distinct(RecordSymbols(rs))
    ensures rs[0].symbol in SymbolsOf(rs) && SymbolsOf(rs[1..]) == SymbolsOf(rs) - {rs[0].symbol}
  {
    var rest := rs[1..];
    forall s ensures s in SymbolsOf(rest) <==> s in SymbolsOf(rs) - {rs[0].symbol} {
      if s in SymbolsOf(rest) {
        var i :| 0 <= i < |rest| && rest[i].symbol == s;
        assert rs[i + 1].symbol == s && RecordSymbols(rs)[0] != RecordSymbols(rs)[i + 1];
      }
      if s in SymbolsOf(rs) && s != rs[0].symbol {
        var i :| 0 <= i < |rs| && rs[i].symbol == s;
        assert rest[i - 1].symbol == s;
      }
    }
    SameSet(SymbolsOf(rest), SymbolsOf(rs) - {rs[0].symbol});
  }

  function ScoredSymbols(rs: seq<Record>): set<int> {
    set i | 0 <= i < |rs| && rs[i].finalScore.Some? :: rs[i].symbol
  }

  lemma {:induction false} ScoredBySymbol(rs: seq<Record>)
    requires Distinct(RecordSymbols(rs))
    ensures |Estimable(rs)| == |ScoredSymbols(rs)|
  {
    if rs == [] {
      assert ScoredSymbols(rs) == {};
    } else {
      var rest := rs[1..];
      assert forall i | 0 <= i < |rest| :: RecordSymbols(rest)[i] == RecordSymbols(rs)[i + 1];
      ScoredBySymbol(rest);
      ScoredOfRest(rs);
    }
  }

  lemma ScoredOfRest(rs: seq<Record>)
    requires rs != [] && Distinct(RecordSymbols(rs))
    ensures ScoredSymbols(rs) == ScoredSymbols(rs[1..]) + if rs[0].finalScore.Some? then {rs[0].symbol} else {}
    ensures rs[0].symbol !in ScoredSymbols(rs[1..])
  {
    var rest := rs[1..];
    var more := ScoredSymbols(rest) + if rs[0].finalScore.Some? then {rs[0].symbol} else {};
    forall s ensures s in ScoredSymbols(rs) <==> s in more {
      if s in ScoredSymbols(rest) {
        var i :| 0 <= i < |rest| && rest[i].finalScore.Some? && rest[i].symbol == s;
        assert rs[i + 1] == rest[i];
      }
      if s in ScoredSymbols(rs) {
        var i :| 0 <= i < |rs| && rs[i].finalScore.Some? && rs[i].symbol == s;
        assert i > 0 ==> rest[i - 1] == rs[i];
      }
    }
    SameSet(ScoredSymbols(rs), more);
    forall i | 0 <= i < |rest| ensures rest[i].symbol != rs[0].symbol {
      assert RecordSymbols(rs)[0] != RecordSymbols(rs)[i + 1];
    }
  }

  lemma {:induction false} SymbolsFollow(rs: seq<Record>, items: seq<Input>)
    requires |rs| == |items| && forall i | 0 <= i < |rs| :: rs[i].symbol == items[i].symbol
    requires Distinct(Symbols(items))
    ensures RecordSymbols(rs) == Symbols(items) && SymbolsOf(rs) == CrossOf(items).Keys
  {
    CrossLookup(items);
    forall s ensures s in SymbolsOf(rs) <==> s in CrossOf(items).Keys {
      if s in CrossOf(items) {
        var i :| 0 <= i < |items| && Symbols(items)[i] == s;
        assert rs[i].symbol == s;
      }
    }
    SameSet(SymbolsOf(rs), CrossOf(items).Keys);
  }

  lemma {:induction false} ScoredFollow(rs: seq<Record>, scored: set<int>)
    requires forall i | 0 <= i < |rs| :: rs[i].finalScore.Some? <==> rs[i].symbol in scored
    requires scored <= SymbolsOf(rs)
    ensures ScoredSymbols(rs) == scored
  {
    forall s ensures s in ScoredSymbols(rs) <==> s in scored {
      if s in scored {
        assert s in SymbolsOf(rs);
      }
    }
    SameSet(ScoredSymbols(rs), scored);
  }

  lemma {:induction false} SessionRecordAt(policy: Policy, items: seq<Input>, i: nat)
    requires policy.topK > 0 && Distinct(Symbols(items)) && i < |items|
    ensures var record, cross := SessionRecords(policy, items)[i], CrossOf(items);
      && record.symbol == items[i].symbol && record.weight == ExposureOf(policy, cross)(record.symbol)
      && (record.finalScore.Some? <==> record.symbol in Scores(policy, cross))
  {
    CrossLookup(items);
  }

  lemma {:induction false} SessionTotals(policy: Policy, items: seq<Input>)
    requires policy.topK > 0 && Distinct(Symbols(items))
    ensures var records, cross := SessionRecords(policy, items), CrossOf(items);
      && Distinct(RecordSymbols(records)) && SymbolsOf(records) == cross.Keys
      && ScoredSymbols(records) == Scores(policy, cross).Keys
      && forall i | 0 <= i < |records| :: records[i].weight == ExposureOf(policy, cross)(records[i].symbol)
  {
    var records, cross := SessionRecords(policy, items), CrossOf(items);
    forall i | 0 <= i < |records|
      ensures records[i].symbol == items[i].symbol && records[i].weight == ExposureOf(policy, cross)(records[i].symbol)
      ensures records[i].finalScore.Some? <==> records[i].symbol in Scores(policy, cross)
    {
      SessionRecordAt(policy, items, i);
    }
    SymbolsFollow(records, items);
    ScoredFollow(records, Scores(policy, cross).Keys);
  }

  /** In every session of a challenger's evaluation, the weights of the records sum to min(top K, scored records). */
  lemma {:induction false} EvaluationExposureConserved(policy: Policy, inputs: seq<Input>, session: int)
    requires policy.topK > 0 && policy.role == Challenger && Distinct(Pairs(inputs))
    ensures var records := Of(Evaluation(policy, inputs), RECORD_SESSION, session);
      WeightSum(records) == Min(policy.topK, |Estimable(records)|) as real
  {
    var items := Of(Ordered(inputs), SESSION_OF, session);
    SessionOfEvaluation(policy, inputs, session);
    SessionTotals(policy, items);
    var records, cross := SessionRecords(policy, items), CrossOf(items);
    WeightsBySymbol(records, ExposureOf(policy, cross));
    ScoredBySymbol(records);
    ChallengerExposureConserved(policy, cross);
  }

  lemma {:induction false} RecordScore(policy: Policy, items: seq<Input>, i: nat)
    requires policy.topK > 0 && Distinct(Symbols(items)) && i < |items|
    ensures var r, cross := SessionRecords(policy, items)[i], CrossOf(items);
      r.finalScore.Some? ==> r.symbol in Scores(policy, cross) && Scores(policy, cross)[r.symbol] == r.finalScore.value
  {
    CrossLookup(items);
  }

  /** And they are shared out fairly: equal scores weigh alike, and nobody weighs anything before every better score of
      the session has a full slot. */
  lemma {:induction false} EvaluationExposureFair(policy: Policy, inputs: seq<Input>, session: int, i: nat, j: nat)
    requires policy.topK > 0 && policy.role == Challenger && Distinct(Pairs(inputs))
    requires var records := Of(Evaluation(policy, inputs), RECORD_SESSION, session);
      i < |records| && j < |records| && records[i].finalScore.Some? && records[j].finalScore.Some?
    ensures var records := Of(Evaluation(policy, inputs), RECORD_SESSION, session);
      var r, q := records[i], records[j];
      && 0.0 <= r.weight <= 1.0
      && (r.finalScore == q.finalScore ==> r.weight == q.weight)
      && (r.finalScore.value > q.finalScore.value && q.weight > 0.0 ==> r.weight == 1.0)
  {
    var items := Of(Ordered(inputs), SESSION_OF, session);
    SessionOfEvaluation(policy, inputs, session);
    SessionTotals(policy, items);
    RecordScore(policy, items, i);
    RecordScore(policy, items, j);
    var scores := Scores(policy, CrossOf(items));
    ExposureByScore(policy, CrossOf(items));
    BoundaryWeightsAreFair(scores, policy.topK, true);
  }
}
