/** Comparison of two evaluations: rank IC, stability, selected returns, turnover and drawdown. */
module PolicyComparison {
  import opened Wrappers
  import opened Ordering
  import opened Grouping
  import opened PolicyContracts
  import opened Correlation
  import Drawdown

  type Returns = map<(int, int), real>

  const RECORD_SESSION: Record -> int := (r: Record) => r.session

  const SYMBOL_KEY: Record -> Key := (r: Record) => Key(0.0, 0, r.symbol)

  ghost predicate Covers(returns_: Returns, records: seq<Record>) {
    forall r | r in records :: (r.session, r.symbol) in returns_
  }

  function SessionList(records: seq<Record>): seq<int> {
    SortedSeq(GroupsOf(records, RECORD_SESSION))
  }

  /** One session's records, by symbol. */
  function SessionGroup(records: seq<Record>, session: int): seq<Record> {
    Sort(Of(records, RECORD_SESSION, session), SYMBOL_KEY)
  }

  lemma GroupCovered(records: seq<Record>, session: int, returns_: Returns)
    requires Covers(returns_, records)
    ensures Covers(returns_, SessionGroup(records, session))
    ensures forall r | r in SessionGroup(records, session) :: r in records && r.session == session
  {
    SameMembers(Of(records, RECORD_SESSION, session), SessionGroup(records, session));
  }

  method RecordGroups(records: seq<Record>) returns (groups: map<int, seq<Record>>)
    ensures groups.Keys == GroupsOf(records, RECORD_SESSION)
    ensures forall s | s in groups :: groups[s] == SessionGroup(records, s)
  {
    var lists := GroupBy(records, RECORD_SESSION);
    groups := map s | s in lists :: Sort(lists[s], SYMBOL_KEY);
  }

  // ---- rank IC ----

  function Estimable(group: seq<Record>): (r: seq<Record>)
    ensures forall x | x in r :: x in group && x.finalScore.Some?
  {
    if group == [] then [] else
      if group[0].finalScore.Some? then [group[0]] + Estimable(group[1..]) else Estimable(group[1..])
  }

  function ScoreSeries(rs: seq<Record>): seq<real>
    requires forall x | x in rs :: x.finalScore.Some?
  {
    seq(|rs|, i requires 0 <= i < |rs| => assert rs[i] in rs; rs[i].finalScore.value)
  }

  function ReturnSeries(rs: seq<Record>, returns_: Returns): seq<real>
    requires Covers(returns_, rs)
  {
    seq(|rs|, i requires 0 <= i < |rs| => assert rs[i] in rs; returns_[(rs[i].session, rs[i].symbol)])
  }

  function DailyIc(group: seq<Record>, returns_: Returns, root: real -> real): Option<real>
    requires Covers(returns_, group) && IsRoot(root)
  {
    var estimable := Estimable(group);
    Pearson(ScoreSeries(estimable), ReturnSeries(estimable, returns_), root)
  }

  /** Each session's correlation between final scores and realized returns. */
  function SessionIc(records: seq<Record>, returns_: Returns, root: real -> real): int -> Option<real>
    requires Covers(returns_, records) && IsRoot(root)
  {
    session =>
      GroupCovered(records, session, returns_);
      DailyIc(SessionGroup(records, session), returns_, root)
  }

  /** What f reads in each session, in order. */
  function Series<T>(sessions: seq<int>, f: int -> T): (r: seq<T>)
    ensures |r| == |sessions| && forall i | 0 <= i < |r| :: r[i] == f(sessions[i])
  {
    seq(|sessions|, i requires 0 <= i < |sessions| => f(sessions[i]))
  }

  lemma SeriesSplit(a: seq<int>, b: seq<int>, f: int -> Option<real>)
    ensures Defined(Series(a + b, f)) == Defined(Series(a, f)) + Defined(Series(b, f))
  {
    DefinedConcat(Series(a, f), Series(b, f));
    assert Series(a + b, f) == Series(a, f) + Series(b, f);
  }

  lemma SeriesCongruent(sessions: seq<int>, f: int -> Option<real>, g: int -> Option<real>)
    requires forall i | 0 <= i < |sessions| :: f(sessions[i]) == g(sessions[i])
    ensures Series(sessions, f) == Series(sessions, g)
  {
  }

  /** The mean of the sessions' defined correlations. */
  function RankIc(records: seq<Record>, returns_: Returns, root: real -> real): Option<real>
    requires Covers(returns_, records) && IsRoot(root)
  {
    Mean(Defined(Series(SessionList(records), SessionIc(records, returns_, root))))
  }

  method DailyIcs(groups: map<int, seq<Record>>, sessions: seq<int>, returns_: Returns, root: real -> real,
                  ghost f: int -> Option<real>)
    returns (daily: seq<real>)
    requires IsRoot(root)
    requires forall i | 0 <= i < |sessions| :: sessions[i] in groups && Covers(returns_, groups[sessions[i]])
    requires forall i | 0 <= i < |sessions| :: f(sessions[i]) == DailyIc(groups[sessions[i]], returns_, root)
    ensures daily == Defined(Series(sessions, f))
  {
    daily := [];
    for n := 0 to |sessions|
      invariant daily == Defined(Series(sessions, f)[..n])
    {
      var correlation := DailyIc(groups[sessions[n]], returns_, root);
      DefinedStep(Series(sessions, f), n);
      if correlation.Some? {
        daily := daily + [correlation.value];
      }
    }
    assert Series(sessions, f)[..|sessions|] == Series(sessions, f);
  }

  method RankIcOf(records: seq<Record>, returns_: Returns, root: real -> real) returns (ic: Option<real>)
    requires Covers(returns_, records) && IsRoot(root)
    ensures ic == RankIc(records, returns_, root)
  {
    var groups := RecordGroups(records);
    var sessions := SortedSeq(groups.Keys);
    forall i | 0 <= i < |sessions|
      ensures sessions[i] in groups && groups[sessions[i]] == SessionGroup(records, sessions[i])
      ensures Covers(returns_, groups[sessions[i]])
    {
      assert sessions[i] in sessions;
      GroupCovered(records, sessions[i], returns_);
    }
    var daily := DailyIcs(groups, sessions, returns_, root, SessionIc(records, returns_, root));
    return Mean(daily);
  }

  // ---- stability ----

  datatype Verdict = NotEstimable | Stable | Unstable

  function Keep(records: seq<Record>, sessions: set<int>): (r: seq<Record>)
    ensures forall x :: x in r <==> x in records && x.session in sessions
  {
    if records == [] then [] else
      assert records == records[..|records| - 1] + [records[|records| - 1]];
      Keep(records[..|records| - 1], sessions) +
      if records[|records| - 1].session in sessions then [records[|records| - 1]] else []
  }

  function Judge(first: Option<real>, second: Option<real>): Verdict {
    if first.None? || second.None? then NotEstimable
    else if first.value == 0.0 || second.value == 0.0 || ((first.value > 0.0) <==> (second.value > 0.0)) then Stable
    else Unstable
  }

  function FirstHalf(records: seq<Record>): seq<Record> {
    Keep(records, Elements(Early(records)))
  }

  function SecondHalf(records: seq<Record>): seq<Record> {
    Keep(records, Elements(Late(records)))
  }

  function Stability(records: seq<Record>, returns_: Returns, root: real -> real): Verdict
    requires Covers(returns_, records) && IsRoot(root)
  {
    if |SessionList(records)| < 2 then NotEstimable else
      Judge(RankIc(FirstHalf(records), returns_, root), RankIc(SecondHalf(records), returns_, root))
  }

  lemma {:induction false} KeepGroup(records: seq<Record>, sessions: set<int>, s: int)
    requires s in sessions
    ensures Of(Keep(records, sessions), RECORD_SESSION, s) == Of(records, RECORD_SESSION, s)
  {
    if records != [] {
      var init, last := records[..|records| - 1], records[|records| - 1];
      KeepGroup(init, sessions, s);
      if last.session in sessions {
        assert Keep(records, sessions)[..|Keep(records, sessions)| - 1] == Keep(init, sessions);
      } else {
        assert Keep(records, sessions) == Keep(init, sessions);
      }
    }
  }

  lemma GroupsMembership(records: seq<Record>, s: int)
    ensures s in GroupsOf(records, RECORD_SESSION) <==> exists r :: r in records && r.session == s
  {
    if s in GroupsOf(records, RECORD_SESSION) {
      var i :| 0 <= i < |records| && RECORD_SESSION(records[i]) == s;
      assert records[i] in records;
    }
    if r :| r in records && r.session == s {
      var i :| 0 <= i < |records| && records[i] == r;
      assert RECORD_SESSION(records[i]) == s;
    }
  }

  lemma {:induction false} KeepSessions(records: seq<Record>, part: seq<int>)
    requires Increasing(part) && forall s | s in part :: s in GroupsOf(records, RECORD_SESSION)
    ensures SessionList(Keep(records, Elements(part))) == part
  {
    var kept := Keep(records, Elements(part));
    forall s ensures s in GroupsOf(kept, RECORD_SESSION) <==> s in part {
      GroupsMembership(records, s);
      GroupsMembership(kept, s);
    }
    SortedSetUnique(SessionList(kept), part, GroupsOf(kept, RECORD_SESSION));
  }

  lemma {:induction false} KeepSessionIc(records: seq<Record>, part: seq<int>, returns_: Returns, root: real -> real,
                                         s: int)
    requires Covers(returns_, records) && IsRoot(root) && s in part
    ensures Covers(returns_, Keep(records, Elements(part)))
    ensures SessionIc(Keep(records, Elements(part)), returns_, root)(s) == SessionIc(records, returns_, root)(s)
  {
    KeepGroup(records, Elements(part), s);
  }

  lemma {:induction false} KeepIcs(records: seq<Record>, part: seq<int>, returns_: Returns, root: real -> real)
    requires Covers(returns_, records) && IsRoot(root)
    requires Increasing(part) && forall s | s in part :: s in GroupsOf(records, RECORD_SESSION)
    ensures Covers(returns_, Keep(records, Elements(part)))
    ensures RankIc(Keep(records, Elements(part)), returns_, root) == Mean(Days(records, part, returns_, root))
  {
    var kept := Keep(records, Elements(part));
    KeepSessions(records, part);
    var f, g := SessionIc(kept, returns_, root), SessionIc(records, returns_, root);
    forall i | 0 <= i < |part| ensures f(part[i]) == g(part[i]) {
      KeepSessionIc(records, part, returns_, root, part[i]);
    }
    SeriesCongruent(part, f, g);
  }

  lemma {:induction false} TotalConcat(a: seq<real>, b: seq<real>)
    ensures Total(a + b) == Total(a) + Total(b)
  {
    if a == [] {
      assert a + b == b;
    } else {
      TotalConcat(a[1..], b);
      assert (a + b)[1..] == a[1..] + b;
    }
  }

  /** The defined daily correlations of the first half, the second half and the whole sample. */
  ghost function Days(records: seq<Record>, sessions: seq<int>, returns_: Returns, root: real -> real): seq<real>
    requires Covers(returns_, records) && IsRoot(root)
  {
    Defined(Series(sessions, SessionIc(records, returns_, root)))
  }

  lemma DaysSplit(records: seq<Record>, a: seq<int>, b: seq<int>, returns_: Returns, root: real -> real)
    requires Covers(returns_, records) && IsRoot(root)
    ensures Days(records, a + b, returns_, root) == Days(records, a, returns_, root) + Days(records, b, returns_, root)
  {
    SeriesSplit(a, b, SessionIc(records, returns_, root));
  }

  function Early(records: seq<Record>): seq<int> {
    SessionList(records)[..|SessionList(records)| / 2]
  }

  function Late(records: seq<Record>): seq<int> {
    SessionList(records)[|SessionList(records)| / 2..]
  }

  lemma HalvesArePart(records: seq<Record>)
    ensures SessionList(records) == Early(records) + Late(records)
    ensures Increasing(Early(records)) && Increasing(Late(records))
    ensures forall s | s in Early(records) || s in Late(records) :: s in GroupsOf(records, RECORD_SESSION)
  {
    forall s | s in Early(records) || s in Late(records) ensures s in GroupsOf(records, RECORD_SESSION) {
      assert s in SessionList(records);
    }
  }

  lemma HalvesOfSample(records: seq<Record>, returns_: Returns, root: real -> real)
    requires Covers(returns_, records) && IsRoot(root)
    ensures Covers(returns_, FirstHalf(records)) && Covers(returns_, SecondHalf(records))
    ensures RankIc(FirstHalf(records), returns_, root) == Mean(Days(records, Early(records), returns_, root))
    ensures RankIc(SecondHalf(records), returns_, root) == Mean(Days(records, Late(records), returns_, root))
  {
    HalvesArePart(records);
    KeepIcs(records, Early(records), returns_, root);
    KeepIcs(records, Late(records), returns_, root);
  }

  lemma {:induction false} AverageTotal(xs: seq<real>)
    requires xs != []
    ensures Average(xs) * |xs| as real == Total(xs)
  {
  }

  lemma WeightedMean(a: seq<real>, b: seq<real>)
    requires a != [] && b != []
    ensures Average(a + b) * (|a| as real + |b| as real) == Average(a) * |a| as real + Average(b) * |b| as real
  {
    TotalConcat(a, b);
    AverageTotal(a);
    AverageTotal(b);
    AverageTotal(a + b);
    assert |a + b| as real == |a| as real + |b| as real;
  }

  lemma Between(x: real, y: real, m: real, n: real, z: real)
    requires m > 0.0 && n > 0.0 && z * (m + n) == x * m + y * n
    ensures Drawdown.Lesser(x, y) <= z <= Drawdown.Max(x, y)
    ensures x > 0.0 && y >= 0.0 ==> z > 0.0
  {
    assert (z - x) * (m + n) == (y - x) * n;
    assert (z - y) * (m + n) == (x - y) * m;
  }

  /** The pieces of a stability verdict: both halves and the whole, as weighted by estimable days. */
  ghost predicate WeighsHalves(first: real, second: real, whole: real, m: nat, n: nat) {
    && m > 0 && n > 0
    && whole * (m as real + n as real) == first * m as real + second * n as real
  }

  /** When both halves are estimable, so is the whole, and it is their mean weighted by estimable days. */
  lemma WholeWeighsHalves(records: seq<Record>, returns_: Returns, root: real -> real)
    returns (m: nat, n: nat)
    requires Covers(returns_, records) && IsRoot(root)
    requires Covers(returns_, FirstHalf(records)) && Covers(returns_, SecondHalf(records))
    requires RankIc(FirstHalf(records), returns_, root).Some? && RankIc(SecondHalf(records), returns_, root).Some?
    ensures RankIc(records, returns_, root).Some?
    ensures m == |Days(records, Early(records), returns_, root)| && n == |Days(records, Late(records), returns_, root)|
    ensures WeighsHalves(RankIc(FirstHalf(records), returns_, root).value,
                         RankIc(SecondHalf(records), returns_, root).value,
                         RankIc(records, returns_, root).value, m, n)
  {
    HalvesOfSample(records, returns_, root);
    HalvesArePart(records);
    DaysSplit(records, Early(records), Late(records), returns_, root);
    MeansWeigh(Days(records, Early(records), returns_, root), Days(records, Late(records), returns_, root));
    m, n := |Days(records, Early(records), returns_, root)|, |Days(records, Late(records), returns_, root)|;
  }

  lemma MeansWeigh(a: seq<real>, b: seq<real>)
    requires Mean(a).Some? && Mean(b).Some?
    ensures Mean(a + b).Some?
    ensures WeighsHalves(Mean(a).value, Mean(b).value, Mean(a + b).value, |a|, |b|)
  {
    WeightedMean(a, b);
  }

  /** Opposite signs, both non-zero. */
  predicate Opposes(x: real, y: real) {
    (x > 0.0 && y < 0.0) || (x < 0.0 && y > 0.0)
  }

  lemma WeightedSigns(first: real, second: real, whole: real, m: nat, n: nat)
    requires WeighsHalves(first, second, whole, m, n)
    ensures Drawdown.Lesser(first, second) <= whole <= Drawdown.Max(first, second)
    ensures Judge(Some(first), Some(second)) == Stable ==> !Opposes(whole, first) && !Opposes(whole, second)
    ensures Judge(Some(first), Some(second)) == Unstable && whole != 0.0 ==>
      Opposes(whole, first) || Opposes(whole, second)
  {
    Between(first, second, m as real, n as real, whole);
  }

  /** A STABLE verdict is sound, and for a non-zero whole-sample IC it is exact. */
  lemma StableIsSound(records: seq<Record>, returns_: Returns, root: real -> real)
    requires Covers(returns_, records) && IsRoot(root)
    requires Covers(returns_, FirstHalf(records)) && Covers(returns_, SecondHalf(records))
    requires Stability(records, returns_, root) != NotEstimable
    ensures RankIc(FirstHalf(records), returns_, root).Some? && RankIc(SecondHalf(records), returns_, root).Some?
    ensures RankIc(records, returns_, root).Some?
    ensures var first, second, whole := RankIc(FirstHalf(records), returns_, root).value,
                                        RankIc(SecondHalf(records), returns_, root).value,
                                        RankIc(records, returns_, root).value;
      && Drawdown.Lesser(first, second) <= whole <= Drawdown.Max(first, second)
      && (Stability(records, returns_, root) == Stable ==> !Opposes(whole, first) && !Opposes(whole, second))
      && (whole != 0.0 && !Opposes(whole, first) && !Opposes(whole, second) ==>
            Stability(records, returns_, root) == Stable)
  {
    var m, n := WholeWeighsHalves(records, returns_, root);
    WeightedSigns(RankIc(FirstHalf(records), returns_, root).value, RankIc(SecondHalf(records), returns_, root).value,
                  RankIc(records, returns_, root).value, m, n);
  }
}
