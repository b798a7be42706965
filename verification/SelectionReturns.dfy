/** Selection weights per session: the turnover between two evaluations and the returns of the selected. */
module SelectionReturns {
  import opened Wrappers
  import opened FiniteSums
  import opened Ordering
  import opened Grouping
  import opened CrossSectionalRanking
  import opened PolicyContracts
  import opened Correlation
  import opened PolicyComparison

  function Abs(x: real): real {
    if x < 0.0 then -x else x
  }

  // ---- distance between two sets of weights ----

  /** The positive weights of one session, by symbol. */
  function WeightMap(group: seq<Record>): map<int, real> {
    if group == [] then map[] else
      var init, last := WeightMap(group[..|group| - 1]), group[|group| - 1];
      if last.weight > 0.0 then init[last.symbol := last.weight] else init
  }

  lemma {:induction false} WeightMapPositive(group: seq<Record>)
    ensures forall k | k in WeightMap(group) :: WeightMap(group)[k] > 0.0
  {
    if group != [] {
      WeightMapPositive(group[..|group| - 1]);
    }
  }

  function Gap(a: map<int, real>, b: map<int, real>): int -> real {
    k => Abs(At(a, k) - At(b, k))
  }

  function HalfDistance(a: map<int, real>, b: map<int, real>): real {
    Sum(a.Keys + b.Keys, Gap(a, b)) / 2.0
  }

  lemma {:induction false} GapOverMore(a: map<int, real>, b: map<int, real>, all: set<int>)
    requires a.Keys <= all && b.Keys <= all
    ensures Sum(all, Gap(a, b)) == 2.0 * HalfDistance(a, b)
  {
    SumExtend(all, a.Keys + b.Keys, Gap(a, b));
  }

  lemma DistanceSymmetric(a: map<int, real>, b: map<int, real>)
    ensures HalfDistance(a, b) == HalfDistance(b, a)
  {
    assert a.Keys + b.Keys == b.Keys + a.Keys;
    SumCongruent(a.Keys + b.Keys, Gap(a, b), Gap(b, a));
  }

  lemma DistanceTriangle(a: map<int, real>, b: map<int, real>, c: map<int, real>)
    ensures HalfDistance(a, c) <= HalfDistance(a, b) + HalfDistance(b, c)
  {
    var all := a.Keys + b.Keys + c.Keys;
    GapOverMore(a, b, all);
    GapOverMore(b, c, all);
    GapOverMore(a, c, all);
    GapTriangle(a, b, c);
    SumBelowSum(all, Gap(a, c), Gap(a, b), Gap(b, c));
  }

  lemma GapTriangle(a: map<int, real>, b: map<int, real>, c: map<int, real>)
    ensures forall k :: Gap(a, c)(k) <= Gap(a, b)(k) + Gap(b, c)(k)
  {
  }

  /** Distance zero means the same weight for everyone. */
  lemma DistanceZeroIff(a: map<int, real>, b: map<int, real>)
    ensures HalfDistance(a, b) >= 0.0
    ensures HalfDistance(a, b) == 0.0 <==> forall k :: At(a, k) == At(b, k)
  {
    SumNonNegative(a.Keys + b.Keys, Gap(a, b));
    if HalfDistance(a, b) == 0.0 {
      forall k ensures At(a, k) == At(b, k) {
        if k in a.Keys + b.Keys {
          assert Gap(a, b)(k) == 0.0;
        }
      }
    } else {
      var k :| k in a.Keys + b.Keys && Gap(a, b)(k) != 0.0;
      assert At(a, k) != At(b, k);
    }
  }

  function WeightAt(m: map<int, real>): int -> real {
    k => At(m, k)
  }

  function Held(m: map<int, real>): real {
    Sum(m.Keys, WeightAt(m))
  }

  lemma GapBounds(a: map<int, real>, b: map<int, real>)
    requires forall k | k in a :: a[k] >= 0.0
    requires forall k | k in b :: b[k] >= 0.0
    ensures forall k :: Gap(a, b)(k) <= WeightAt(a)(k) + WeightAt(b)(k)
    ensures forall k :: WeightAt(a)(k) <= Gap(a, b)(k) + WeightAt(b)(k)
    ensures forall k :: WeightAt(b)(k) <= Gap(a, b)(k) + WeightAt(a)(k)
  {
  }

  /** The distance lies between half the difference and half the sum of the two total weights. */
  lemma DistanceBounds(a: map<int, real>, b: map<int, real>)
    requires forall k | k in a :: a[k] >= 0.0
    requires forall k | k in b :: b[k] >= 0.0
    ensures Abs(Held(a) - Held(b)) / 2.0 <= HalfDistance(a, b) <= (Held(a) + Held(b)) / 2.0
  {
    var all := a.Keys + b.Keys;
    SumExtend(all, a.Keys, WeightAt(a));
    SumExtend(all, b.Keys, WeightAt(b));
    GapBounds(a, b);
    SumBelowSum(all, Gap(a, b), WeightAt(a), WeightAt(b));
    SumBelowSum(all, WeightAt(a), Gap(a, b), WeightAt(b));
    SumBelowSum(all, WeightAt(b), Gap(a, b), WeightAt(a));
  }

  // ---- turnover over the sessions ----

  ghost function SessionDistance(a: seq<Record>, b: seq<Record>): int -> real {
    s => HalfDistance(WeightMap(SessionGroup(a, s)), WeightMap(SessionGroup(b, s)))
  }

  function SharedSessions(a: seq<Record>, b: seq<Record>): seq<int> {
    SortedSeq(GroupsOf(a, RECORD_SESSION) * GroupsOf(b, RECORD_SESSION))
  }

  ghost function Turnover(a: seq<Record>, b: seq<Record>): Option<real> {
    Mean(Series(SharedSessions(a, b), SessionDistance(a, b)))
  }

  lemma {:induction false} TotalOrder(xs: seq<real>, ys: seq<real>, zs: seq<real>)
    requires |xs| == |ys| == |zs|
    requires forall i | 0 <= i < |xs| :: xs[i] <= ys[i] + zs[i]
    ensures Total(xs) <= Total(ys) + Total(zs)
  {
    if xs != [] {
      forall i | 0 <= i < |xs[1..]| ensures xs[1..][i] <= ys[1..][i] + zs[1..][i] {
        assert xs[i + 1] <= ys[i + 1] + zs[i + 1];
      }
      TotalOrder(xs[1..], ys[1..], zs[1..]);
    }
  }

  lemma {:induction false} TotalZeroIff(xs: seq<real>)
    requires forall i | 0 <= i < |xs| :: xs[i] >= 0.0
    ensures Total(xs) >= 0.0
    ensures Total(xs) == 0.0 <==> forall i | 0 <= i < |xs| :: xs[i] == 0.0
  {
    if xs != [] {
      assert forall i | 0 <= i < |xs[1..]| :: xs[1..][i] == xs[i + 1];
      TotalZeroIff(xs[1..]);
      assert (forall i | 0 <= i < |xs| :: xs[i] == 0.0) <==>
             xs[0] == 0.0 && forall i | 0 <= i < |xs[1..]| :: xs[1..][i] == 0.0 by {
        assert xs == [xs[0]] + xs[1..];
      }
    }
  }

  /** Three evaluations over the same sessions, at least one. */
  ghost predicate SameSessions(a: seq<Record>, b: seq<Record>) {
    GroupsOf(a, RECORD_SESSION) == GroupsOf(b, RECORD_SESSION) != {}
  }

  lemma SharedSessionsAll(a: seq<Record>, b: seq<Record>)
    requires SameSessions(a, b)
    ensures SharedSessions(a, b) == SessionList(a) != []
  {
    assert GroupsOf(a, RECORD_SESSION) * GroupsOf(b, RECORD_SESSION) == GroupsOf(a, RECORD_SESSION);
    EmptySortedSet(SessionList(a), GroupsOf(a, RECORD_SESSION));
  }

  lemma TurnoverSymmetric(a: seq<Record>, b: seq<Record>)
    ensures Turnover(a, b) == Turnover(b, a)
  {
    var x, y := GroupsOf(a, RECORD_SESSION), GroupsOf(b, RECORD_SESSION);
    assert x * y == y * x;
    var sessions := SharedSessions(a, b);
    forall i | 0 <= i < |sessions| ensures SessionDistance(a, b)(sessions[i]) == SessionDistance(b, a)(sessions[i]) {
      DistanceSymmetric(WeightMap(SessionGroup(a, sessions[i])), WeightMap(SessionGroup(b, sessions[i])));
    }
    assert Series(sessions, SessionDistance(a, b)) == Series(sessions, SessionDistance(b, a));
  }

  lemma QuotientSum(x: real, y: real, z: real, n: real)
    requires n > 0.0 && x <= y + z
    ensures x / n <= y / n + z / n
  {
    assert y / n + z / n - x / n == (y + z - x) / n;
    QuotientNonNegative(y + z - x, n);
  }

  lemma QuotientNonNegative(x: real, n: real)
    requires n > 0.0 && x >= 0.0
    ensures x / n >= 0.0
  {
  }

  lemma {:induction false} AverageOrder(xs: seq<real>, ys: seq<real>, zs: seq<real>)
    requires |xs| == |ys| == |zs| > 0 && Total(xs) <= Total(ys) + Total(zs)
    ensures Average(xs) <= Average(ys) + Average(zs)
  {
    QuotientSum(Total(xs), Total(ys), Total(zs), |xs| as real);
  }

  lemma TurnoverTriangle(a: seq<Record>, b: seq<Record>, c: seq<Record>)
    requires SameSessions(a, b) && SameSessions(b, c)
    ensures Turnover(a, b).Some? && Turnover(b, c).Some? && Turnover(a, c).Some?
    ensures Turnover(a, c).value <= Turnover(a, b).value + Turnover(b, c).value
  {
    SharedSessionsAll(a, b);
    SharedSessionsAll(b, c);
    SharedSessionsAll(a, c);
    SharedSessionsAll(b, a);
    var sessions := SessionList(a);
    assert SessionList(b) == sessions;
    DaysTriangle(a, b, c, sessions);
    AverageOrder(Series(sessions, SessionDistance(a, c)), Series(sessions, SessionDistance(a, b)),
                 Series(sessions, SessionDistance(b, c)));
  }

  lemma DaysTriangle(a: seq<Record>, b: seq<Record>, c: seq<Record>, sessions: seq<int>)
    ensures Total(Series(sessions, SessionDistance(a, c)))
            <= Total(Series(sessions, SessionDistance(a, b))) + Total(Series(sessions, SessionDistance(b, c)))
  {
    forall i | 0 <= i < |sessions|
      ensures SessionDistance(a, c)(sessions[i]) <= SessionDistance(a, b)(sessions[i])
            + SessionDistance(b, c)(sessions[i])
    {
      DistanceTriangle(WeightMap(SessionGroup(a, sessions[i])), WeightMap(SessionGroup(b, sessions[i])),
                       WeightMap(SessionGroup(c, sessions[i])));
    }
    TotalOrder(Series(sessions, SessionDistance(a, c)), Series(sessions, SessionDistance(a, b)),
               Series(sessions, SessionDistance(b, c)));
  }

  ghost predicate SameSelection(a: seq<Record>, b: seq<Record>, session: int) {
    WeightMap(SessionGroup(a, session)) == WeightMap(SessionGroup(b, session))
  }

  lemma PositiveMapsAgree(a: map<int, real>, b: map<int, real>)
    requires forall k | k in a :: a[k] > 0.0
    requires forall k | k in b :: b[k] > 0.0
    ensures (forall k :: At(a, k) == At(b, k)) <==> a == b
  {
    if forall k :: At(a, k) == At(b, k) {
      forall k ensures k in a <==> k in b
               ensures k in a && k in b ==> a[k] == b[k] {
        assert At(a, k) == At(b, k);
      }
      SameMap(a, b);
    }
  }

  lemma SessionDistanceZeroIff(a: seq<Record>, b: seq<Record>, s: int)
    ensures SessionDistance(a, b)(s) >= 0.0
    ensures SessionDistance(a, b)(s) == 0.0 <==> SameSelection(a, b, s)
  {
    var x, y := WeightMap(SessionGroup(a, s)), WeightMap(SessionGroup(b, s));
    DistanceZeroIff(x, y);
    WeightMapPositive(SessionGroup(a, s));
    WeightMapPositive(SessionGroup(b, s));
    PositiveMapsAgree(x, y);
  }

  lemma DaysZeroIff(a: seq<Record>, b: seq<Record>, sessions: seq<int>)
    ensures Total(Series(sessions, SessionDistance(a, b))) >= 0.0
    ensures Total(Series(sessions, SessionDistance(a, b))) == 0.0 <==>
            forall i | 0 <= i < |sessions| :: SameSelection(a, b, sessions[i])
  {
    var days := Series(sessions, SessionDistance(a, b));
    forall i | 0 <= i < |days| ensures days[i] >= 0.0 && (days[i] == 0.0 <==> SameSelection(a, b, sessions[i])) {
      SessionDistanceZeroIff(a, b, sessions[i]);
    }
    TotalZeroIff(days);
  }

  /** Turnover vanishes exactly when both select the same weights in every session. */
  lemma TurnoverZeroIff(a: seq<Record>, b: seq<Record>)
    requires SameSessions(a, b)
    ensures Turnover(a, b).Some? && Turnover(a, b).value >= 0.0
    ensures Turnover(a, b).value == 0.0 <==> forall s | s in SessionList(a) :: SameSelection(a, b, s)
  {
    SharedSessionsAll(a, b);
    var sessions := SessionList(a);
    DaysZeroIff(a, b, sessions);
    AverageSign(Total(Series(sessions, SessionDistance(a, b))), |sessions| as real);
    EachListed(a, b, sessions);
  }

  lemma EachListed(a: seq<Record>, b: seq<Record>, sessions: seq<int>)
    ensures (forall s | s in sessions :: SameSelection(a, b, s)) <==>
            (forall i | 0 <= i < |sessions| :: SameSelection(a, b, sessions[i]))
  {
    if forall s | s in sessions :: SameSelection(a, b, s) {
      forall i | 0 <= i < |sessions| ensures SameSelection(a, b, sessions[i]) {
        assert sessions[i] in sessions;
      }
    }
  }

  lemma AverageSign(t: real, n: real)
    requires t >= 0.0 && n > 0.0
    ensures t / n >= 0.0 && (t / n == 0.0 <==> t == 0.0)
  {
    assert t / n * n == t;
  }
}
