/** What the midrank percentiles mean: bounds, strict order, direction symmetry and a fixed mean of one half. */
module PercentileLaws {
  import opened FiniteSums
  import opened CrossSectionalRanking

  /** Below, tied and above split the population. */
  lemma PopulationSplit(m: map<int, real>, v: real)
    ensures |Better(m, v, false)| + |Tied(m, v)| + |Better(m, v, true)| == |m|
  {
    var low, tied, high := Better(m, v, false), Tied(m, v), Better(m, v, true);
    forall k ensures k in m <==> k in low + tied + high {
      if k in m && k !in low && k !in tied {
        assert IsBetter(m[k], v, true);
      }
    }
    assert low + tied + high == m.Keys;
    forall k ensures !(k in low && k in tied) && !(k in low + tied && k in high) {
    }
    DisjointCardinality(low, tied);
    DisjointCardinality(low + tied, high);
  }

  lemma TiedNonEmpty(m: map<int, real>, k: int)
    requires k in m
    ensures |Tied(m, m[k])| >= 1
  {
    SubsetCardinality({k}, Tied(m, m[k]));
  }

  lemma HalfSplit(lead: int, n: int)
    requires n > 1
    ensures (lead + (n - 1)) as real / (2 * (n - 1)) as real == 0.5 + lead as real / (2 * (n - 1)) as real
    ensures 1.0 - (lead + (n - 1)) as real / (2 * (n - 1)) as real == 0.5 + (-lead) as real / (2 * (n - 1)) as real
  {
    var d := (2 * (n - 1)) as real;
    assert (lead + (n - 1)) as real / d == lead as real / d + (n - 1) as real / d;
    assert (-lead) as real / d == -(lead as real / d);
    HalfOfDouble(n);
  }

  /** The percentile as a balance: one half, moved by how many more are worse than better. */
  lemma PercentileBalance(m: map<int, real>, k: int, higher: bool)
    requires k in m && |m| > 1
    ensures Percentile(m, k, higher) ==
            0.5 + (|Better(m, m[k], !higher)| - |Better(m, m[k], higher)|) as real / (2 * (|m| - 1)) as real
  {
    PopulationSplit(m, m[k]);
    var lead := |Better(m, m[k], false)| - |Better(m, m[k], true)|;
    HalfSplit(lead, |m|);
    assert 2 * |Better(m, m[k], false)| + |Tied(m, m[k])| - 1 == lead + (|m| - 1);
  }

  lemma DivideMonotone(a: int, b: int, d: real)
    requires d > 0.0
    ensures a < b ==> a as real / d < b as real / d
    ensures a <= b ==> a as real / d <= b as real / d
  {
    assert b as real / d - a as real / d == (b - a) as real / d;
  }

  lemma BalanceBounds(lead: int, n: int)
    requires n > 1 && -(n - 1) <= lead <= n - 1
    ensures 0.0 <= 0.5 + lead as real / (2 * (n - 1)) as real <= 1.0
  {
    var d := (2 * (n - 1)) as real;
    DivideMonotone(lead, n - 1, d);
    DivideMonotone(-(n - 1), lead, d);
    HalfOfDouble(n);
    assert (-(n - 1)) as real / d == -((n - 1) as real / d);
  }

  lemma PercentileBounds(m: map<int, real>, k: int, higher: bool)
    requires k in m
    ensures 0.0 <= Percentile(m, k, higher) <= 1.0
  {
    if |m| > 1 {
      PercentileBalance(m, k, higher);
      PopulationSplit(m, m[k]);
      TiedNonEmpty(m, k);
      BalanceBounds(|Better(m, m[k], !higher)| - |Better(m, m[k], higher)|, |m|);
    } else {
      SubsetCardinality({k}, m.Keys);
    }
  }

  /** The percentile orders the population exactly as its values do: equal for ties, strictly better for better. */
  lemma PercentileOrder(m: map<int, real>, a: int, b: int, higher: bool)
    requires a in m && b in m
    ensures Percentile(m, a, higher) > Percentile(m, b, higher) <==> IsBetter(m[a], m[b], higher)
    ensures Percentile(m, a, higher) == Percentile(m, b, higher) <==> m[a] == m[b]
  {
    if m[a] != m[b] {
      PercentileStrict(m, a, b, higher);
      PercentileStrict(m, b, a, higher);
    }
  }

  lemma BetterNested(m: map<int, real>, v: real, w: real, higher: bool)
    requires IsBetter(v, w, higher)
    ensures |Better(m, v, higher)| <= |Better(m, w, higher)|
    ensures |Better(m, v, higher)| == |Better(m, w, higher)| ==> Better(m, v, higher) == Better(m, w, higher)
  {
    forall k | k in Better(m, v, higher) ensures k in Better(m, w, higher) {
    }
    SubsetCardinality(Better(m, v, higher), Better(m, w, higher));
  }

  lemma PercentileStrict(m: map<int, real>, a: int, b: int, higher: bool)
    requires a in m && b in m
    ensures IsBetter(m[a], m[b], higher) ==> Percentile(m, a, higher) > Percentile(m, b, higher)
  {
    if IsBetter(m[a], m[b], higher) {
      assert a != b;
      SubsetCardinality({a, b}, m.Keys);
      PercentileBalance(m, a, higher);
      PercentileBalance(m, b, higher);
      assert b in Better(m, m[a], !higher) && b !in Better(m, m[b], !higher);
      BetterNested(m, m[b], m[a], !higher);
      BetterNested(m, m[a], m[b], higher);
      DivideMonotone(|Better(m, m[b], !higher)| - |Better(m, m[b], higher)|,
                     |Better(m, m[a], !higher)| - |Better(m, m[a], higher)|, (2 * (|m| - 1)) as real);
    }
  }

  function Negated(m: map<int, real>): map<int, real> {
    map k | k in m :: -m[k]
  }

  lemma NegatedBetter(m: map<int, real>, k: int, higher: bool)
    requires k in m
    ensures Better(Negated(m), Negated(m)[k], higher) == Better(m, m[k], !higher)
  {
    var n := Negated(m);
    forall j ensures j in Better(n, n[k], higher) <==> j in Better(m, m[k], !higher) {
      assert j in n <==> j in m;
    }
  }

  /** Reversing the direction is the same as negating every value. */
  lemma DirectionSymmetry(m: map<int, real>, higher: bool)
    ensures Percentiles(m, !higher) == Percentiles(Negated(m), higher)
    ensures forall k | k in m :: Percentile(m, k, higher) + Percentile(m, k, !higher) == 1.0
  {
    var n := Negated(m);
    assert n.Keys == m.Keys && |n| == |n.Keys| && |m| == |m.Keys|;
    forall k | k in m
      ensures Percentile(m, k, !higher) == Percentile(n, k, higher)
      ensures Percentile(m, k, higher) + Percentile(m, k, !higher) == 1.0
    {
      NegatedBetter(m, k, higher);
      NegatedBetter(m, k, !higher);
      SubsetCardinality({k}, m.Keys);
      if |m| > 1 {
        PercentileBalance(m, k, higher);
        PercentileBalance(m, k, !higher);
        PercentileBalance(n, k, higher);
        var d := (2 * (|m| - 1)) as real;
        var lead := |Better(m, m[k], !higher)| - |Better(m, m[k], higher)|;
        assert (-lead) as real / d == -(lead as real / d);
      }
    }
  }

  // ---- conservation: percentiles always average to one half ----

  ghost function Beats(m: map<int, real>, j: int, k: int, higher: bool): real {
    if IsBetter(At(m, j), At(m, k), higher) then 1.0 else 0.0
  }

  /** How many entities are better than k, as a sum over the population. */
  ghost function BetterCount(m: map<int, real>, higher: bool): int -> real {
    k => Sum(m.Keys, j => Beats(m, j, k, higher))
  }

  lemma BetterCountIsCardinality(m: map<int, real>, k: int, higher: bool)
    requires k in m
    ensures BetterCount(m, higher)(k) == |Better(m, m[k], higher)| as real
  {
    var p := j => IsBetter(At(m, j), At(m, k), higher);
    SumIndicator(m.Keys, p);
    SumCongruent(m.Keys, j => if p(j) then 1.0 else 0.0, j => Beats(m, j, k, higher));
    assert Better(m, m[k], higher) == set j | j in m.Keys && p(j);
  }

  /** Every entity that is better than another is an entity another is worse than. */
  lemma BetterEqualsWorse(m: map<int, real>, higher: bool)
    ensures Sum(m.Keys, BetterCount(m, higher)) == Sum(m.Keys, BetterCount(m, !higher))
  {
    var f := (k: int, j: int) => Beats(m, j, k, higher);
    SumSwap(m.Keys, m.Keys, f);
    forall k | k in m.Keys ensures Sum(m.Keys, j => f(k, j)) == BetterCount(m, higher)(k) {
      SumCongruent(m.Keys, j => f(k, j), j => Beats(m, j, k, higher));
    }
    forall j | j in m.Keys ensures Sum(m.Keys, k => f(k, j)) == BetterCount(m, !higher)(j) {
      SumCongruent(m.Keys, k => f(k, j), k => Beats(m, k, j, !higher));
    }
    SumCongruent(m.Keys, k => Sum(m.Keys, j => f(k, j)), BetterCount(m, higher));
    SumCongruent(m.Keys, j => Sum(m.Keys, k => f(k, j)), BetterCount(m, !higher));
  }

  lemma PercentileAsBalance(m: map<int, real>, k: int, higher: bool)
    requires k in m && |m| > 1
    ensures Percentile(m, k, higher) ==
            Balanced(1.0 / (2 * (|m| - 1)) as real, BetterCount(m, !higher), BetterCount(m, higher))(k)
  {
    PercentileBalance(m, k, higher);
    BetterCountIsCardinality(m, k, higher);
    BetterCountIsCardinality(m, k, !higher);
    DivideDifference(|Better(m, m[k], !higher)|, |Better(m, m[k], higher)|, (2 * (|m| - 1)) as real);
  }

  /** However the values tie, and in either direction, the percentiles sum to half the population. */
  lemma PercentilesAverageOneHalf(m: map<int, real>, higher: bool)
    ensures Sum(m.Keys, k => At(Percentiles(m, higher), k)) == |m| as real / 2.0
  {
    var p := k => At(Percentiles(m, higher), k);
    assert |m| == |m.Keys|;
    if |m| <= 1 {
      SumCongruent(m.Keys, p, k => 0.5);
      SumConstant(m.Keys, 0.5);
    } else {
      forall k | k in m.Keys
        ensures p(k) == Balanced(1.0 / (2 * (|m| - 1)) as real, BetterCount(m, !higher), BetterCount(m, higher))(k)
      {
        PercentileAsBalance(m, k, higher);
      }
      BetterEqualsWorse(m, higher);
      AverageFromBalance(m.Keys, p, 1.0 / (2 * (|m| - 1)) as real, BetterCount(m, !higher), BetterCount(m, higher));
    }
  }

  lemma {:induction false} AverageFromBalance(s: set<int>, p: int -> real, c: real, f: int -> real, g: int -> real)
    requires forall k | k in s :: p(k) == Balanced(c, f, g)(k)
    requires Sum(s, f) == Sum(s, g)
    ensures Sum(s, p) == |s| as real / 2.0
  {
    SumCongruent(s, p, Balanced(c, f, g));
    BalancedSum(s, c, f, g);
  }

  lemma DivideDifference(a: int, b: int, d: real)
    requires d > 0.0
    ensures (a - b) as real / d == 1.0 / d * (a as real - b as real)
  {
  }

  ghost function Balanced(c: real, f: int -> real, g: int -> real): int -> real {
    k => 0.5 + c * (f(k) - g(k))
  }

  lemma {:induction false} BalancedSum(s: set<int>, c: real, f: int -> real, g: int -> real)
    ensures Sum(s, Balanced(c, f, g)) == 0.5 * |s| as real + c * (Sum(s, f) - Sum(s, g))
    decreases |s|
  {
    if s != {} {
      var k := MinOf(s);
      BalancedSum(s - {k}, c, f, g);
      Distribute(c, f(k) - g(k), Sum(s - {k}, f) - Sum(s - {k}, g));
    }
  }

  lemma Distribute(c: real, x: real, y: real)
    ensures c * (x + y) == c * x + c * y
  {
  }

  // ---- only order matters ----

  /** Two cross sections order the same population alike. */
  ghost predicate SameOrder(a: map<int, real>, b: map<int, real>) {
    a.Keys == b.Keys && forall j, k | j in a && k in a :: a[j] < a[k] <==> b[j] < b[k]
  }

  lemma SameOrderSets(a: map<int, real>, b: map<int, real>, k: int, higher: bool)
    requires SameOrder(a, b) && k in a
    ensures Better(a, a[k], higher) == Better(b, b[k], higher)
    ensures Tied(a, a[k]) == Tied(b, b[k])
  {
    forall j
      ensures j in Better(a, a[k], higher) <==> j in Better(b, b[k], higher)
      ensures j in Tied(a, a[k]) <==> j in Tied(b, b[k])
    {
      assert j in a <==> j in b;
    }
    SameSet(Better(a, a[k], higher), Better(b, b[k], higher));
    SameSet(Tied(a, a[k]), Tied(b, b[k]));
  }

  lemma SameOrderRank(a: map<int, real>, b: map<int, real>, k: int, higher: bool)
    requires SameOrder(a, b) && k in a
    ensures RankOf(a, k, higher) == RankOf(b, k, higher)
    ensures Percentile(a, k, higher) == Percentile(b, k, higher)
  {
    assert |a| == |a.Keys| && |b| == |b.Keys|;
    SameOrderSets(a, b, k, higher);
    SameOrderSets(a, b, k, false);
  }

  /** Ranks and percentiles depend on nothing but the order. */
  lemma OnlyOrderMatters(a: map<int, real>, b: map<int, real>, higher: bool)
    requires SameOrder(a, b)
    ensures Ranks(a, higher) == Ranks(b, higher)
    ensures Percentiles(a, higher) == Percentiles(b, higher)
  {
    forall k | k in a && k in b
      ensures RankOf(a, k, higher) == RankOf(b, k, higher)
      ensures Percentile(a, k, higher) == Percentile(b, k, higher)
    {
      SameOrderRank(a, b, k, higher);
    }
    SameMap(Ranks(a, higher), Ranks(b, higher));
    SameMap(Percentiles(a, higher), Percentiles(b, higher));
  }
}
