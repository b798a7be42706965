/** What every policy evaluation guarantees: totality, independence, non-interference and conserved exposure. */
module PolicyTheorems {
  import opened FiniteSums
  import opened Ordering
  import opened Grouping
  import opened BoundarySelection
  import opened PolicyContracts
  import opened CandidatePolicy
  import opened PolicyEvaluation

  // ---- totality ----

  /** A selected record is one with weight; only scored candidates are ranked or weighted. */
  ghost predicate Coherent(policy: Policy, r: Record) {
    && ValidRecord(r)
    && (r.status == Selected <==> r.weight > 0.0)
    && (r.rank.Some? <==> r.finalScore.Some?)
    && (r.finalScore.Some? ==> r.eligible && r.factorAvailable)
    && (r.weight > 0.0 ==> r.finalScore.Some?)
    && (policy.role == Challenger ==> (r.finalScore.Some? <==> r.eligible && r.factorAvailable))
    && (TopKBoundaryFractionalExposure in r.reasons && TopKBoundaryFractionalExposure !in r.hardReasons
        ==> 0.0 < r.weight < 1.0)
  }

  lemma FinalIsCoherent(policy: Policy, cross: map<int, Input>, s: int)
    requires ValidPolicy(policy) && ValidCross(cross) && s in cross
    ensures Coherent(policy, FinalRecord(policy, cross, s))
  {
    FinalIsValid(policy, cross, s);
    var r := Provisional(policy, cross, s);
    ProvisionalIsValid(policy, cross[s], r.contributions);
    ProvisionalCoherence(policy, cross[s],
      if policy.role == Incumbent then cross[s].incumbentContributions
      else Contributions(policy, policy.factors, cross, s));
  }

  lemma ProvisionalCoherence(policy: Policy, item: Input, contributions: map<int, real>)
    requires ValidInput(item)
    ensures var r := ProvisionalRecord(policy, item, contributions);
      && (r.finalScore.Some? ==> r.eligible && r.factorAvailable)
      && (policy.role == Challenger ==> (r.finalScore.Some? <==> r.eligible && r.factorAvailable))
      && (policy.role == Challenger ==> r.status != Selected)
      && (policy.role == Incumbent ==> (r.weight > 0.0 ==> r.finalScore.Some?))
      && (r.status == Selected ==> r.weight == 1.0)
      && (r.weight > 0.0 ==> r.weight == 1.0 && r.status == Selected)
      && (TopKBoundaryFractionalExposure in r.reasons ==> TopKBoundaryFractionalExposure in r.hardReasons)
  {
  }

  lemma {:induction false} SessionIsValid(inputs: seq<Input>, session: int)
    requires Distinct(Pairs(inputs)) && forall i | 0 <= i < |inputs| :: ValidInput(inputs[i])
    ensures ValidCross(CrossOf(Of(Ordered(inputs), SESSION_OF, session)))
  {
    var group := Of(Ordered(inputs), SESSION_OF, session);
    GroupDistinct(inputs, session);
    GroupsAreValid(inputs, session);
    CrossLookup(group);
    forall s | s in CrossOf(group) ensures ValidInput(CrossOf(group)[s]) {
      assert CrossOf(group)[s] in group;
    }
  }

  lemma RecordIsCoherent(policy: Policy, inputs: seq<Input>, item: Input)
    requires ValidPolicy(policy) && Distinct(Pairs(inputs)) && item in inputs
    requires forall i | 0 <= i < |inputs| :: ValidInput(inputs[i])
    ensures Coherent(policy, RecordFor(policy, inputs, item))
  {
    SessionLookup(inputs, item);
    SessionIsValid(inputs, item.session);
    FinalIsCoherent(policy, CrossOf(Of(Ordered(inputs), SESSION_OF, item.session)), item.symbol);
  }

  /** Every evaluation of valid inputs consists of valid, coherent records. */
  lemma EvaluationIsCoherent(policy: Policy, inputs: seq<Input>)
    requires ValidPolicy(policy) && Distinct(Pairs(inputs))
    requires forall i | 0 <= i < |inputs| :: ValidInput(inputs[i])
    ensures forall r | r in Evaluation(policy, inputs) :: Coherent(policy, r)
  {
    SameMembers(inputs, Ordered(inputs));
    forall r | r in Evaluation(policy, inputs) ensures Coherent(policy, r) {
      var i :| 0 <= i < |inputs| && Evaluation(policy, inputs)[i] == r;
      assert Ordered(inputs)[i] in Ordered(inputs);
      RecordIsCoherent(policy, inputs, Ordered(inputs)[i]);
    }
  }

  // ---- independence of order and of other sessions ----

  /** Any arrangement of the same inputs evaluates alike. */
  lemma InputOrderIsIrrelevant(policy: Policy, inputs: seq<Input>, shuffled: seq<Input>)
    requires policy.topK > 0 && Distinct(Pairs(inputs))
    requires multiset(inputs) == multiset(shuffled)
    ensures Distinct(Pairs(shuffled))
    ensures Evaluation(policy, shuffled) == Evaluation(policy, inputs)
  {
    PairsOfPermutation(inputs, shuffled);
    PairsTellApart(inputs);
    SortUnique(inputs, shuffled, INPUT_KEY);
    assert |multiset(inputs)| == |inputs| && |multiset(shuffled)| == |shuffled|;
  }

  /** The part of a sorted list in one session is the sorted session. */
  lemma {:induction false} OrderedSession(inputs: seq<Input>, session: int)
    requires Distinct(Pairs(inputs))
    ensures Of(Ordered(inputs), SESSION_OF, session) == Ordered(Of(inputs, SESSION_OF, session))
  {
    var left, right := Of(Ordered(inputs), SESSION_OF, session), Of(inputs, SESSION_OF, session);
    forall x ensures multiset(left)[x] == multiset(right)[x] {
      OfCount(Ordered(inputs), SESSION_OF, session, x);
      OfCount(inputs, SESSION_OF, session, x);
    }
    OfSorted(Ordered(inputs), SESSION_OF, INPUT_KEY, session);
    PairsTellApart(inputs);
    assert KeysDiffer(left, INPUT_KEY) by {
      SameMembers(inputs, Ordered(inputs));
      forall x, y | x in left && y in left && INPUT_KEY(x) == INPUT_KEY(y) ensures x == y {
        assert x in inputs && y in inputs;
      }
    }
    assert multiset(left) == multiset(right) == multiset(Ordered(right));
    SortedUnique(left, Ordered(right), INPUT_KEY);
  }

  /** A record is decided by the inputs of its own session, whatever else is evaluated with them. */
  lemma {:induction false} SessionsAreIndependent(policy: Policy, a: seq<Input>, b: seq<Input>, item: Input)
    requires policy.topK > 0 && Distinct(Pairs(a)) && Distinct(Pairs(b))
    requires item in a
    requires multiset(Of(a, SESSION_OF, item.session)) == multiset(Of(b, SESSION_OF, item.session))
    ensures item in b && RecordFor(policy, a, item) == RecordFor(policy, b, item)
  {
    var session := item.session;
    SameMembers(Of(a, SESSION_OF, session), Of(b, SESSION_OF, session));
    assert item in Of(a, SESSION_OF, session);
    OrderedSession(a, session);
    OrderedSession(b, session);
    PairsTellApart(a);
    assert KeysDiffer(Of(a, SESSION_OF, session), INPUT_KEY) by {
      forall x, y | x in Of(a, SESSION_OF, session) && y in Of(a, SESSION_OF, session) && INPUT_KEY(x) == INPUT_KEY(y)
        ensures x == y
      {
        assert x in a && y in a;
      }
    }
    SortUnique(Of(a, SESSION_OF, session), Of(b, SESSION_OF, session), INPUT_KEY);
  }

  // ---- non-interference ----

  lemma {:induction false} ContributionsWithout(policy: Policy, factors: seq<Factor>, cross: map<int, Input>, s: int,
                                                t: int)
    requires s in cross && HardReasons(policy, cross[s]) != {}
    ensures Contributions(policy, factors, cross - {s}, t) == Contributions(policy, factors, cross, t)
  {
    if factors != [] {
      ContributionsWithout(policy, factors[..|factors| - 1], cross, s, t);
      var id := factors[|factors| - 1].id;
      SameMap(FactorSection(policy, cross - {s}, id), FactorSection(policy, cross, id));
    }
  }

  lemma ProvisionalWithout(policy: Policy, cross: map<int, Input>, s: int, t: int)
    requires s in cross && t in cross && t != s && HardReasons(policy, cross[s]) != {}
    ensures Provisional(policy, cross - {s}, t) == Provisional(policy, cross, t)
  {
    ContributionsWithout(policy, policy.factors, cross, s, t);
  }

  lemma IneligibleIsUnscored(policy: Policy, cross: map<int, Input>, s: int)
    requires ValidCross(cross) && s in cross && HardReasons(policy, cross[s]) != {}
    ensures s !in Scores(policy, cross)
  {
  }

  lemma ScoresWithout(policy: Policy, cross: map<int, Input>, s: int)
    requires ValidCross(cross) && s in cross && HardReasons(policy, cross[s]) != {}
    ensures Scores(policy, cross - {s}) == Scores(policy, cross)
  {
    IneligibleIsUnscored(policy, cross, s);
    var less, all := Scores(policy, cross - {s}), Scores(policy, cross);
    forall t ensures t in less <==> t in all
             ensures t in less && t in all ==> less[t] == all[t] {
      if t in cross && t != s {
        ProvisionalWithout(policy, cross, s, t);
      }
    }
    SameMap(less, all);
  }

  /** Taking a hard-ineligible candidate out of the session changes no other record. */
  lemma IneligibleIsInvisible(policy: Policy, cross: map<int, Input>, s: int, t: int)
    requires policy.topK > 0 && ValidCross(cross)
    requires s in cross && t in cross && t != s && HardReasons(policy, cross[s]) != {}
    ensures FinalRecord(policy, cross - {s}, t) == FinalRecord(policy, cross, t)
  {
    ProvisionalWithout(policy, cross, s, t);
    ScoresWithout(policy, cross, s);
  }

  /** So a hard-ineligible candidate's values, whatever they are, influence no other record. */
  lemma IneligibleValuesAreInert(policy: Policy, cross: map<int, Input>, s: int, other: Input, t: int)
    requires policy.topK > 0 && ValidCross(cross) && ValidInput(other) && other.symbol == s
    requires s in cross && t in cross && t != s
    requires HardReasons(policy, cross[s]) != {} && HardReasons(policy, other) != {}
    ensures FinalRecord(policy, cross[s := other], t) == FinalRecord(policy, cross, t)
  {
    var changed := cross[s := other];
    assert changed - {s} == cross - {s};
    IneligibleIsInvisible(policy, cross, s, t);
    IneligibleIsInvisible(policy, changed, s, t);
  }

  // ---- conserved exposure ----

  ghost function ExposureOf(policy: Policy, cross: map<int, Input>): int -> real
    requires policy.topK > 0
  {
    s => if s in cross then FinalWeight(policy, cross, s) else 0.0
  }

  /** A challenger hands out exactly min(top K, scored candidates) slots per session. */
  lemma ChallengerExposureConserved(policy: Policy, cross: map<int, Input>)
    requires policy.topK > 0 && policy.role == Challenger
    ensures Sum(cross.Keys, ExposureOf(policy, cross)) == Min(policy.topK, |Scores(policy, cross)|) as real
  {
    SlotsFilled(Scores(policy, cross), policy.topK, true);
    ExposureByScore(policy, cross);
    SumOverPart(cross.Keys, Scores(policy, cross).Keys, ExposureOf(policy, cross),
                WeightOf(Scores(policy, cross), policy.topK, true));
  }

  lemma ExposureByScore(policy: Policy, cross: map<int, Input>)
    requires policy.topK > 0 && policy.role == Challenger
    ensures forall s | s in Scores(policy, cross) ::
      ExposureOf(policy, cross)(s) == WeightOf(Scores(policy, cross), policy.topK, true)(s)
    ensures forall s | s in cross && s !in Scores(policy, cross) :: ExposureOf(policy, cross)(s) == 0.0
  {
  }

  lemma {:induction false} SumOverPart(all: set<int>, part: set<int>, f: int -> real, g: int -> real)
    requires part <= all
    requires forall k | k in part :: f(k) == g(k)
    requires forall k | k in all && k !in part :: f(k) == 0.0
    ensures Sum(all, f) == Sum(part, g)
  {
    SumCongruent(part, f, g);
    SumExtend(all, part, f);
  }

  /** And it hands them out fairly over the scored candidates: this fixes every weight. */
  lemma ChallengerExposureFair(policy: Policy, cross: map<int, Input>)
    requires policy.topK > 0 && policy.role == Challenger
    ensures FairAllocation(Scores(policy, cross), WeightOf(Scores(policy, cross), policy.topK, true), policy.topK, true)
    ensures forall s | s in Scores(policy, cross) ::
      FinalWeight(policy, cross, s) == WeightOf(Scores(policy, cross), policy.topK, true)(s)
  {
    BoundaryWeightsAreFair(Scores(policy, cross), policy.topK, true);
  }
}
