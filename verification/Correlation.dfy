/** Pearson correlation of two series and its rank version, over exact numbers. */
module Correlation {
  import opened Wrappers
  import opened FiniteSums
  import opened CrossSectionalRanking
  import opened PercentileLaws

  function Total(xs: seq<real>): real {
    if xs == [] then 0.0 else xs[0] + Total(xs[1..])
  }

  function Mean(xs: seq<real>): Option<real> {
    if xs == [] then None else Some(Total(xs) / |xs| as real)
  }

  function Average(xs: seq<real>): real
    requires xs != []
  {
    Total(xs) / |xs| as real
  }

  /** The defined values of a series, in order. */
  function Defined(xs: seq<Option<real>>): seq<real> {
    if xs == [] then [] else
      Defined(xs[..|xs| - 1]) + if xs[|xs| - 1].Some? then [xs[|xs| - 1].value] else []
  }

  lemma {:induction false} DefinedConcat(a: seq<Option<real>>, b: seq<Option<real>>)
    ensures Defined(a + b) == Defined(a) + Defined(b)
    decreases |b|
  {
    if b == [] {
      assert a + b == a;
    } else {
      DefinedConcat(a, b[..|b| - 1]);
      assert (a + b)[..|a + b| - 1] == a + b[..|b| - 1];
    }
  }

  lemma DefinedStep(xs: seq<Option<real>>, n: nat)
    requires n < |xs|
    ensures Defined(xs[..n + 1]) == if xs[n].Some? then Defined(xs[..n]) + [xs[n].value] else Defined(xs[..n])
  {
    assert xs[..n + 1][..n] == xs[..n];
  }

  function Deviations(xs: seq<real>, m: real): (d: seq<real>)
    ensures |d| == |xs| && forall i | 0 <= i < |xs| :: d[i] == xs[i] - m
  {
    seq(|xs|, i requires 0 <= i < |xs| => xs[i] - m)
  }

  function Dot(a: seq<real>, b: seq<real>): real
    requires |a| == |b|
  {
    if a == [] then 0.0 else a[0] * b[0] + Dot(a[1..], b[1..])
  }

  // ---- Cauchy-Schwarz ----

  lemma {:induction false} SquareSum(a: seq<real>)
    ensures Dot(a, a) >= 0.0
    ensures Dot(a, a) == 0.0 <==> forall i | 0 <= i < |a| :: a[i] == 0.0
  {
    if a != [] {
      var head, rest := a[0] * a[0], Dot(a[1..], a[1..]);
      SquareSum(a[1..]);
      Square(a[0], head);
      assert Dot(a, a) == head + rest;
      if a[0] == 0.0 {
        AllZero(a);
      }
    }
  }

  lemma AllZero(a: seq<real>)
    requires a != [] && a[0] == 0.0
    ensures (forall i | 0 <= i < |a| :: a[i] == 0.0) <==> (forall i | 0 <= i < |a[1..]| :: a[1..][i] == 0.0)
  {
    assert a == [a[0]] + a[1..];
  }

  /** The product is named, so that a square keeps its sign once simplified. */
  lemma ProductPositive(a: real, b: real, p: real)
    requires a > 0.0 && b > 0.0 && p == a * b
    ensures p > 0.0
  {
  }

  lemma Square(x: real, y: real)
    requires y == x * x
    ensures y >= 0.0
    ensures y == 0.0 <==> x == 0.0
  {
    if x > 0.0 {
      ProductPositive(x, x, y);
    } else if x < 0.0 {
      ProductPositive(-x, -x, y);
    }
  }

  /** s is non-negative with at least the square of t, so it is at least t. */
  lemma RootOrder(s: real, t: real)
    requires s >= 0.0 && s * s >= t * t
    ensures s >= t
  {
    assert (t - s) * (t + s) == t * t - s * s;
    if t - s > 0.0 && t + s > 0.0 {
      ProductPositive(t - s, t + s, (t - s) * (t + s));
    }
  }

  lemma MixedTerm(aa: real, bb: real, c: real, x: real, y: real)
    requires aa >= 0.0 && bb >= 0.0 && c * c <= aa * bb
    ensures 2.0 * (c * (x * y)) <= aa * (y * y) + bb * (x * x)
  {
    var p, q := aa * (y * y), bb * (x * x);
    Square(x, x * x);
    Square(y, y * y);
    assert p >= 0.0 && q >= 0.0;
    var t := 2.0 * (c * (x * y));
    var w := (x * y) * (x * y);
    Square(x * y, w);
    assert t * t == 4.0 * ((c * c) * w);
    assert p * q == (aa * bb) * w;
    assert (c * c) * w <= (aa * bb) * w;
    assert (p + q) * (p + q) - 4.0 * (p * q) == (p - q) * (p - q);
    Square(p - q, (p - q) * (p - q));
    RootOrder(p + q, t);
  }

  lemma {:induction false} CauchySchwarz(a: seq<real>, b: seq<real>)
    requires |a| == |b|
    ensures Dot(a, b) * Dot(a, b) <= Dot(a, a) * Dot(b, b)
  {
    if a != [] {
      CauchySchwarz(a[1..], b[1..]);
      SquareSum(a[1..]);
      SquareSum(b[1..]);
      CauchyStep(Dot(a[1..], a[1..]), Dot(b[1..], b[1..]), Dot(a[1..], b[1..]), a[0], b[0]);
    }
  }

  lemma CauchyStep(aa: real, bb: real, c: real, x: real, y: real)
    requires aa >= 0.0 && bb >= 0.0 && c * c <= aa * bb
    ensures (x * y + c) * (x * y + c) <= (x * x + aa) * (y * y + bb)
  {
    MixedTerm(aa, bb, c, x, y);
    var u := x * y;
    assert (u + c) * (u + c) == u * u + 2.0 * (c * u) + c * c;
    assert (x * x + aa) * (y * y + bb) == (x * x) * (y * y) + aa * (y * y) + bb * (x * x) + aa * bb;
    assert u * u == (x * x) * (y * y);
  }

  // ---- the correlation ----

  /** The square root supplied by the platform, exact here. */
  ghost predicate IsRoot(root: real -> real) {
    forall v | v > 0.0 :: root(v) > 0.0 && root(v) * root(v) == v
  }

  ghost predicate Constant(xs: seq<real>) {
    forall i, j | 0 <= i < |xs| && 0 <= j < |xs| :: xs[i] == xs[j]
  }

  function Covariance(xs: seq<real>, ys: seq<real>): real
    requires |xs| == |ys| > 0
  {
    Dot(Deviations(xs, Average(xs)), Deviations(ys, Average(ys)))
  }

  function OverRoot(c: real, vx: real, vy: real, root: real -> real): real
    requires IsRoot(root) && vx * vy > 0.0
  {
    c / root(vx * vy)
  }

  /** Covariance over the root of the product of the variances; undefined when a variance vanishes. */
  function Ratio(xs: seq<real>, ys: seq<real>, root: real -> real): Option<real>
    requires |xs| == |ys| > 0 && IsRoot(root)
  {
    var vx, vy := Covariance(xs, xs), Covariance(ys, ys);
    if vx == 0.0 || vy == 0.0 then None else
      VariancesPositive(xs, ys);
      Some(OverRoot(Covariance(xs, ys), vx, vy, root))
  }

  function Pearson(xs: seq<real>, ys: seq<real>, root: real -> real): Option<real>
    requires IsRoot(root)
  {
    if |xs| < 3 || |xs| != |ys| then None else Ratio(xs, ys, root)
  }

  lemma VariancesPositive(xs: seq<real>, ys: seq<real>)
    requires |xs| == |ys| > 0
    requires Covariance(xs, xs) != 0.0 && Covariance(ys, ys) != 0.0
    ensures Covariance(xs, xs) * Covariance(ys, ys) > 0.0
  {
    SquareSum(Deviations(xs, Average(xs)));
    SquareSum(Deviations(ys, Average(ys)));
    ProductPositive(Covariance(xs, xs), Covariance(ys, ys), Covariance(xs, xs) * Covariance(ys, ys));
  }

  lemma {:induction false} TotalOfConstant(xs: seq<real>, c: real)
    requires forall i | 0 <= i < |xs| :: xs[i] == c
    ensures Total(xs) == c * |xs| as real
  {
    if xs != [] {
      TotalOfConstant(xs[1..], c);
    }
  }

  lemma AverageOfConstant(t: real, c: real, n: real)
    requires n > 0.0 && t == c * n
    ensures t / n == c
  {
  }

  lemma VarianceZeroIff(xs: seq<real>)
    requires xs != []
    ensures Covariance(xs, xs) >= 0.0
    ensures Covariance(xs, xs) == 0.0 <==> Constant(xs)
  {
    var m := Average(xs);
    SquareSum(Deviations(xs, m));
    if Constant(xs) {
      TotalOfConstant(xs, xs[0]);
      AverageOfConstant(Total(xs), xs[0], |xs| as real);
    }
    if Covariance(xs, xs) == 0.0 {
      forall i | 0 <= i < |xs| ensures xs[i] == m {
        assert Deviations(xs, m)[i] == 0.0;
      }
    }
  }

  /** For admissible lengths the correlation is undefined exactly when one side is constant. */
  lemma PearsonUndefinedIff(xs: seq<real>, ys: seq<real>, root: real -> real)
    requires IsRoot(root)
    ensures Pearson(xs, ys, root).None? <==> |xs| < 3 || |xs| != |ys| || Constant(xs) || Constant(ys)
  {
    if |xs| == |ys| && |xs| >= 3 {
      VarianceZeroIff(xs);
      VarianceZeroIff(ys);
    }
  }

  lemma QuotientWithinOne(c: real, r: real)
    requires r > 0.0 && c * c <= r * r
    ensures -1.0 <= c / r <= 1.0
  {
    RootOrder(r, c);
    assert (-c) * (-c) == c * c;
    RootOrder(r, -c);
    var q := c / r;
    assert q * r == c;
    assert (1.0 - q) * r == r - c && (1.0 + q) * r == r + c;
  }

  /** Cauchy-Schwarz with its three products named. */
  lemma {:induction false} DotBounded(a: seq<real>, b: seq<real>, c: real, vx: real, vy: real)
    requires |a| == |b| && c == Dot(a, b) && vx == Dot(a, a) && vy == Dot(b, b)
    ensures c * c <= vx * vy
  {
    CauchySchwarz(a, b);
  }

  lemma CovarianceBounded(xs: seq<real>, ys: seq<real>, c: real, vx: real, vy: real)
    requires |xs| == |ys| > 0
    requires c == Covariance(xs, ys) && vx == Covariance(xs, xs) && vy == Covariance(ys, ys)
    ensures c * c <= vx * vy
  {
    DotBounded(Deviations(xs, Average(xs)), Deviations(ys, Average(ys)), c, vx, vy);
  }

  lemma RootOfProduct(c: real, vx: real, vy: real, root: real -> real)
    requires IsRoot(root) && vx * vy > 0.0 && c * c <= vx * vy
    ensures -1.0 <= OverRoot(c, vx, vy, root) <= 1.0
  {
    QuotientWithinOne(c, root(vx * vy));
  }

  lemma RatioBounded(xs: seq<real>, ys: seq<real>, root: real -> real)
    requires |xs| == |ys| > 0 && IsRoot(root)
    ensures Ratio(xs, ys, root).Some? ==> -1.0 <= Ratio(xs, ys, root).value <= 1.0
  {
    if Ratio(xs, ys, root).Some? {
      VariancesPositive(xs, ys);
      CovarianceBounded(xs, ys, Covariance(xs, ys), Covariance(xs, xs), Covariance(ys, ys));
      RootOfProduct(Covariance(xs, ys), Covariance(xs, xs), Covariance(ys, ys), root);
    }
  }

  lemma PearsonBounded(xs: seq<real>, ys: seq<real>, root: real -> real)
    requires IsRoot(root)
    ensures Pearson(xs, ys, root).Some? ==> -1.0 <= Pearson(xs, ys, root).value <= 1.0
  {
    if |xs| == |ys| && |xs| >= 3 {
      RatioBounded(xs, ys, root);
    }
  }

  // ---- the rank correlation ----

  function Indexed(xs: seq<real>): (m: map<int, real>)
    ensures forall i :: i in m <==> 0 <= i < |xs|
    ensures |m| == |xs|
  {
    var m := map i | 0 <= i < |xs| :: xs[i];
    RangeSize(|xs|, m.Keys);
    m
  }

  lemma {:induction false} RangeSize(n: nat, s: set<int>)
    requires forall i :: i in s <==> 0 <= i < n
    ensures |s| == n
  {
    if n == 0 {
      if s != {} {
        var k := Pick(s);
      }
    } else {
      RangeSize(n - 1, s - {n - 1});
    }
  }

  /** Midrank percentile of every position of a series. */
  ghost function RankSeries(xs: seq<real>): (r: seq<real>)
    ensures |r| == |xs|
  {
    seq(|xs|, i requires 0 <= i < |xs| => Percentile(Indexed(xs), i, true))
  }

  ghost function RankCorrelation(xs: seq<real>, ys: seq<real>, root: real -> real): Option<real>
    requires |xs| == |ys| && IsRoot(root)
  {
    if |xs| < 2 then None else Ratio(RankSeries(xs), RankSeries(ys), root)
  }

  method Spearman(xs: seq<real>, ys: seq<real>, root: real -> real) returns (r: Option<real>)
    requires |xs| == |ys| && IsRoot(root)
    ensures r == RankCorrelation(xs, ys, root)
  {
    if |xs| < 2 {
      return None;
    }
    var xp := RankPercentiles(Indexed(xs), true);
    var yp := RankPercentiles(Indexed(ys), true);
    var xRanks := seq(|xs|, i requires 0 <= i < |xs| => xp[i]);
    var yRanks := seq(|ys|, i requires 0 <= i < |ys| => yp[i]);
    assert xRanks == RankSeries(xs) && yRanks == RankSeries(ys);
    return Ratio(xRanks, yRanks, root);
  }

  lemma RanksConstantIff(xs: seq<real>)
    ensures Constant(RankSeries(xs)) <==> Constant(xs)
  {
    forall i, j | 0 <= i < |xs| && 0 <= j < |xs|
      ensures RankSeries(xs)[i] == RankSeries(xs)[j] <==> xs[i] == xs[j]
    {
      PercentileOrder(Indexed(xs), i, j, true);
    }
  }

  /** The rank correlation is undefined exactly for fewer than two pairs or a constant side, and is bounded. */
  lemma SpearmanDefinedAndBounded(xs: seq<real>, ys: seq<real>, root: real -> real)
    requires |xs| == |ys| && IsRoot(root)
    ensures RankCorrelation(xs, ys, root).None? <==> |xs| < 2 || Constant(xs) || Constant(ys)
    ensures RankCorrelation(xs, ys, root).Some? ==> -1.0 <= RankCorrelation(xs, ys, root).value <= 1.0
  {
    if |xs| >= 2 {
      var rx, ry := RankSeries(xs), RankSeries(ys);
      VarianceZeroIff(rx);
      VarianceZeroIff(ry);
      RanksConstantIff(xs);
      RanksConstantIff(ys);
      RatioBounded(rx, ry, root);
    }
  }

  /** One series orders every pair of positions as the other does. */
  ghost predicate SameSeriesOrder(xs: seq<real>, zs: seq<real>) {
    |xs| == |zs| && forall i, j | 0 <= i < |xs| && 0 <= j < |xs| :: xs[i] < xs[j] <==> zs[i] < zs[j]
  }

  /** The rank correlation sees only the order of either side. */
  lemma SpearmanSeesOnlyOrder(xs: seq<real>, ys: seq<real>, zs: seq<real>, root: real -> real)
    requires |xs| == |ys| && SameSeriesOrder(xs, zs) && IsRoot(root)
    ensures RankCorrelation(zs, ys, root) == RankCorrelation(xs, ys, root)
    ensures RankCorrelation(ys, zs, root) == RankCorrelation(ys, xs, root)
  {
    OrderGivesRanks(xs, zs);
  }

  lemma OrderGivesRanks(xs: seq<real>, zs: seq<real>)
    requires SameSeriesOrder(xs, zs)
    ensures RankSeries(xs) == RankSeries(zs)
  {
    var a, b := Indexed(xs), Indexed(zs);
    forall j, k | j in a && k in a ensures a[j] < a[k] <==> b[j] < b[k] {
    }
    SameSet(a.Keys, b.Keys);
    OnlyOrderMatters(a, b, true);
    forall i | 0 <= i < |xs| ensures RankSeries(xs)[i] == RankSeries(zs)[i] {
      assert Percentiles(a, true)[i] == Percentiles(b, true)[i];
    }
  }
}
