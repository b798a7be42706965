/** Maximum drawdown of a series of daily returns, computed in one pass, against its all-pairs meaning. */
module Drawdown {
  import opened Wrappers

  function Max(a: real, b: real): real {
    if a >= b then a else b
  }

  function Lesser(a: real, b: real): real {
    if a <= b then a else b
  }

  /** Wealth after compounding every return, starting from one. */
  function Wealth(rs: seq<real>): real {
    if rs == [] then 1.0 else Wealth(rs[..|rs| - 1]) * (1.0 + rs[|rs| - 1])
  }

  function Peak(rs: seq<real>): (p: real)
    ensures p >= 1.0
  {
    if rs == [] then 1.0 else Max(Peak(rs[..|rs| - 1]), Wealth(rs))
  }

  function Worst(rs: seq<real>): (d: real)
    ensures d <= 0.0
  {
    if rs == [] then 0.0 else Lesser(Worst(rs[..|rs| - 1]), Wealth(rs) / Peak(rs) - 1.0)
  }

  function Deepest(returns_: seq<real>): Option<real> {
    if returns_ == [] then None else Some(Worst(returns_))
  }

  method DrawdownOf(returns_: seq<real>) returns (d: Option<real>)
    ensures d == Deepest(returns_)
  {
    if returns_ == [] {
      return None;
    }
    var wealth, peak := 1.0, 1.0;
    var drawdown := 0.0;
    for i := 0 to |returns_|
      invariant wealth == Wealth(returns_[..i]) && peak == Peak(returns_[..i]) && drawdown == Worst(returns_[..i])
    {
      assert returns_[..i + 1][..i] == returns_[..i];
      wealth := wealth * (1.0 + returns_[i]);
      peak := Max(peak, wealth);
      drawdown := Lesser(drawdown, wealth / peak - 1.0);
    }
    assert returns_[..|returns_|] == returns_;
    return Some(drawdown);
  }

  // ---- the all-pairs meaning ----

  ghost predicate Solvent(rs: seq<real>) {
    forall i | 0 <= i < |rs| :: rs[i] > -1.0
  }

  /** Loss from the wealth after i returns to the wealth after j of them. */
  ghost function Fall(rs: seq<real>, i: nat, j: nat): real
    requires i <= j <= |rs| && Wealth(rs[..i]) != 0.0
  {
    Wealth(rs[..j]) / Wealth(rs[..i]) - 1.0
  }

  lemma {:induction false} SolventWealth(rs: seq<real>)
    requires Solvent(rs)
    ensures Wealth(rs) > 0.0
  {
    if rs != [] {
      SolventWealth(rs[..|rs| - 1]);
      Positive(Wealth(rs[..|rs| - 1]), 1.0 + rs[|rs| - 1]);
    }
  }

  lemma Positive(a: real, b: real)
    requires a > 0.0
    ensures a * b > 0.0 <==> b > 0.0
  {
    if b <= 0.0 {
      assert a * b <= 0.0;
    }
  }

  /** The peak is attained, and no earlier wealth exceeds it. */
  lemma {:induction false} PeakIsMaximum(rs: seq<real>) returns (top: nat)
    ensures top <= |rs| && Peak(rs) == Wealth(rs[..top])
    ensures forall i | 0 <= i <= |rs| :: Wealth(rs[..i]) <= Peak(rs)
  {
    if rs == [] {
      top := 0;
    } else {
      var init := rs[..|rs| - 1];
      top := PeakIsMaximum(init);
      assert init[..top] == rs[..top];
      forall i | 0 <= i <= |rs| ensures Wealth(rs[..i]) <= Peak(rs) {
        if i < |rs| {
          assert rs[..i] == init[..i];
        } else {
          assert rs[..i] == rs;
        }
      }
      if Peak(rs) == Wealth(rs) {
        assert rs[..|rs|] == rs;
        top := |rs|;
      }
    }
  }

  lemma QuotientOrder(w: real, a: real, b: real)
    requires w > 0.0 && 0.0 < a <= b
    ensures w / b <= w / a
  {
    assert w / a - w / b == w * (b - a) / (a * b);
    assert a * b > 0.0 && w * (b - a) >= 0.0;
  }

  lemma {:induction false} LastFall(rs: seq<real>, i: nat)
    requires Solvent(rs) && i <= |rs|
    ensures Wealth(rs[..i]) > 0.0
    ensures Wealth(rs) / Peak(rs) <= Wealth(rs) / Wealth(rs[..i])
  {
    SolventWealth(rs);
    SolventWealth(rs[..i]);
    var top := PeakIsMaximum(rs);
    QuotientOrder(Wealth(rs), Wealth(rs[..i]), Peak(rs));
  }

  /** With every return above -1, no fall between two moments is deeper than the drawdown. */
  lemma {:induction false} NoFallIsDeeper(rs: seq<real>, i: nat, j: nat)
    requires Solvent(rs) && i <= j <= |rs|
    ensures Wealth(rs[..i]) > 0.0
    ensures Worst(rs) <= Fall(rs, i, j)
    decreases |rs|
  {
    SolventWealth(rs[..i]);
    if j == |rs| {
      assert rs[..j] == rs;
      LastFall(rs, i);
      if rs == [] {
        assert rs[..i] == rs;
      }
    } else {
      var init := rs[..|rs| - 1];
      assert init[..i] == rs[..i] && init[..j] == rs[..j];
      NoFallIsDeeper(init, i, j);
    }
  }

  /** And some fall is exactly that deep. */
  lemma {:induction false} SomeFallIsAsDeep(rs: seq<real>) returns (i: nat, j: nat)
    requires Solvent(rs)
    ensures i <= j <= |rs| && Wealth(rs[..i]) > 0.0
    ensures Worst(rs) == Fall(rs, i, j)
  {
    if rs == [] {
      i, j := 0, 0;
    } else {
      var init := rs[..|rs| - 1];
      if Worst(rs) == Worst(init) {
        i, j := SomeFallIsAsDeep(init);
        assert init[..i] == rs[..i] && init[..j] == rs[..j];
      } else {
        i := PeakIsMaximum(rs);
        j := |rs|;
        assert rs[..j] == rs;
        SolventWealth(rs[..i]);
      }
    }
  }

  ghost predicate NoDeeperFall(rs: seq<real>, d: real) {
    forall i, j | 0 <= i <= j <= |rs| :: Wealth(rs[..i]) > 0.0 && d <= Fall(rs, i, j)
  }

  ghost predicate IsFall(rs: seq<real>, d: real, i: nat, j: nat) {
    i <= j <= |rs| && Wealth(rs[..i]) > 0.0 && d == Fall(rs, i, j)
  }

  /** The deepest fall between any two moments. */
  ghost predicate IsDeepestFall(rs: seq<real>, d: real) {
    NoDeeperFall(rs, d) && exists i, j :: IsFall(rs, d, i, j)
  }

  lemma {:induction false} WorstIsDeepest(rs: seq<real>)
    requires Solvent(rs)
    ensures IsDeepestFall(rs, Worst(rs))
  {
    forall i, j | 0 <= i <= j <= |rs| ensures Wealth(rs[..i]) > 0.0 && Worst(rs) <= Fall(rs, i, j) {
      NoFallIsDeeper(rs, i, j);
    }
    var i, j := SomeFallIsAsDeep(rs);
    assert IsFall(rs, Worst(rs), i, j);
  }

  lemma DeepestIsUnique(rs: seq<real>, d: real, e: real)
    requires IsDeepestFall(rs, d) && IsDeepestFall(rs, e)
    ensures d <= e
  {
    var i, j :| IsFall(rs, e, i, j);
    assert d <= Fall(rs, i, j);
  }

  /** With every return above -1 the one-pass result is the deepest fall, and nothing else is. */
  lemma {:induction false} DrawdownIsDeepestFall(rs: seq<real>, d: real)
    requires Solvent(rs)
    ensures d == Worst(rs) <==> IsDeepestFall(rs, d)
  {
    WorstIsDeepest(rs);
    if IsDeepestFall(rs, d) {
      DeepestIsUnique(rs, d, Worst(rs));
      DeepestIsUnique(rs, Worst(rs), d);
    }
  }

  // ---- range, growth and composition ----

  lemma RatioAboveZero(w: real, p: real)
    requires p >= 1.0
    ensures w / p - 1.0 > -1.0 <==> w > 0.0
  {
    assert w == w / p * p;
    if w > 0.0 {
      assert w / p > 0.0;
    } else {
      assert w / p <= 0.0;
    }
  }

  lemma {:induction false} LastDecides(rs: seq<real>)
    requires rs != [] && Wealth(rs[..|rs| - 1]) > 0.0
    ensures Wealth(rs) > 0.0 <==> rs[|rs| - 1] > -1.0
  {
    var before, factor := Wealth(rs[..|rs| - 1]), 1.0 + rs[|rs| - 1];
    assert Wealth(rs) == before * factor;
    Positive(before, factor);
  }

  /** The drawdown stays above -1 exactly when every return does. */
  lemma {:induction false} AboveTotalLossIff(rs: seq<real>)
    ensures Worst(rs) > -1.0 <==> Solvent(rs)
    ensures Solvent(rs) ==> Wealth(rs) > 0.0
  {
    if rs != [] {
      var init, last := rs[..|rs| - 1], rs[|rs| - 1];
      AboveTotalLossIff(init);
      RatioAboveZero(Wealth(rs), Peak(rs));
      assert Solvent(rs) <==> Solvent(init) && last > -1.0 by {
        assert rs == init + [last];
      }
      if Solvent(init) {
        LastDecides(rs);
      } else {
        assert Worst(rs) <= Worst(init);
      }
    }
  }

  lemma {:induction false} NeverRisesOnAppend(rs: seq<real>, more: seq<real>)
    ensures Worst(rs + more) <= Worst(rs)
    decreases |more|
  {
    if more == [] {
      assert rs + more == rs;
    } else {
      var less := more[..|more| - 1];
      NeverRisesOnAppend(rs, less);
      assert (rs + more)[..|rs + more| - 1] == rs + less;
    }
  }

  lemma {:induction false} WealthCompounds(a: seq<real>, b: seq<real>)
    ensures Wealth(a + b) == Wealth(a) * Wealth(b)
    decreases |b|
  {
    if b == [] {
      assert a + b == a;
    } else {
      var init := b[..|b| - 1];
      WealthCompounds(a, init);
      assert (a + b)[..|a + b| - 1] == a + init;
      var f := 1.0 + b[|b| - 1];
      assert Wealth(a) * Wealth(init) * f == Wealth(a) * (Wealth(init) * f);
    }
  }

  lemma ProductAtLeast(a: real, b: real, x: real, y: real)
    requires 0.0 <= a <= x && 0.0 <= b <= y
    ensures a * b <= x * y
  {
    assert a * b <= x * b;
    assert x * b <= x * y;
  }

  /** What is kept at the worst moment. */
  ghost function Kept(rs: seq<real>): real {
    1.0 + Worst(rs)
  }

  /** Two stretches in a row keep at least the product of what each alone keeps at its worst. */
  lemma DrawdownComposes(a: seq<real>, b: seq<real>)
    requires Solvent(a) && Solvent(b)
    ensures Kept(a + b) >= Kept(a) * Kept(b)
  {
    var i, j := SomeFallIsAsDeep(a + b);
    EveryFallComposes(a, b, i, j);
  }

  lemma EveryFallComposes(a: seq<real>, b: seq<real>, i: nat, j: nat)
    requires Solvent(a) && Solvent(b) && i <= j <= |a + b|
    ensures Wealth((a + b)[..i]) > 0.0
    ensures Wealth((a + b)[..j]) / Wealth((a + b)[..i]) >= Kept(a) * Kept(b)
  {
    if j <= |a| {
      FallWithinFirst(a, b, i, j);
    } else if i >= |a| {
      TakeBeyond(a, b, i);
      TakeBeyond(a, b, j);
      FallWithinSecond(a, b, i - |a|, j - |a|);
    } else {
      TakeWithin(a, b, i);
      TakeBeyond(a, b, j);
      WealthCompounds(a, b[..j - |a|]);
      FallAcross(a, b, i, j - |a|, Wealth(a + b[..j - |a|]));
    }
  }

  lemma TakeBeyond(a: seq<real>, b: seq<real>, i: nat)
    requires |a| <= i <= |a + b|
    ensures (a + b)[..i] == a + b[..i - |a|]
  {
  }

  lemma TakeWithin(a: seq<real>, b: seq<real>, i: nat)
    requires i <= |a|
    ensures (a + b)[..i] == a[..i]
  {
  }

  lemma KeptBounds(a: seq<real>)
    requires Solvent(a)
    ensures 0.0 < Kept(a) <= 1.0
  {
    AboveTotalLossIff(a);
  }

  lemma KeptProduct(a: seq<real>, b: seq<real>)
    requires Solvent(a) && Solvent(b)
    ensures Kept(a) * Kept(b) <= Kept(a) && Kept(a) * Kept(b) <= Kept(b)
  {
    KeptBounds(a);
    KeptBounds(b);
    ProductAtLeast(Kept(a), Kept(b), Kept(a), 1.0);
    ProductAtLeast(Kept(a), Kept(b), 1.0, Kept(b));
  }

  lemma FallWithinFirst(a: seq<real>, b: seq<real>, i: nat, j: nat)
    requires Solvent(a) && Solvent(b) && i <= j <= |a|
    ensures Wealth((a + b)[..i]) > 0.0
    ensures Wealth((a + b)[..j]) / Wealth((a + b)[..i]) >= Kept(a) * Kept(b)
  {
    assert (a + b)[..i] == a[..i] && (a + b)[..j] == a[..j];
    NoFallIsDeeper(a, i, j);
    KeptProduct(a, b);
  }

  lemma {:induction false} ShiftedRatio(a: seq<real>, b: seq<real>, i: nat, j: nat)
    requires Solvent(a) && i <= j <= |b|
    requires Wealth(b[..i]) > 0.0
    ensures Wealth(a + b[..i]) > 0.0
    ensures Wealth(a + b[..j]) / Wealth(a + b[..i]) == Wealth(b[..j]) / Wealth(b[..i])
  {
    SolventWealth(a);
    WealthCompounds(a, b[..j]);
    WealthCompounds(a, b[..i]);
    QuotientOfProducts(Wealth(a + b[..j]), Wealth(a + b[..i]), Wealth(a), Wealth(b[..j]), Wealth(b[..i]));
  }

  lemma {:induction false} FallWithinSecond(a: seq<real>, b: seq<real>, i: nat, j: nat)
    requires Solvent(a) && Solvent(b) && i <= j <= |b|
    ensures Wealth(a + b[..i]) > 0.0
    ensures Wealth(a + b[..j]) / Wealth(a + b[..i]) >= Kept(a) * Kept(b)
  {
    NoFallIsDeeper(b, i, j);
    ShiftedRatio(a, b, i, j);
    KeptProduct(a, b);
  }

  lemma QuotientOfProducts(p: real, q: real, f: real, x: real, y: real)
    requires f > 0.0 && y > 0.0 && p == f * x && q == f * y
    ensures q > 0.0 && p / q == x / y
  {
    Positive(f, y);
    assert x / y * (f * y) == f * (x / y * y);
  }

  /** kx and ky are at most x over d and y. */
  ghost predicate BoundedBy(kx: real, ky: real, x: real, y: real, d: real) {
    d > 0.0 && 0.0 <= kx <= x / d && 0.0 <= ky <= y
  }

  /** p over d is at least kx times ky. */
  ghost predicate KeepsProduct(p: real, d: real, kx: real, ky: real) {
    d > 0.0 && p / d >= kx * ky
  }

  lemma {:induction false} KeptAcross(a: seq<real>, b: seq<real>, i: nat, j: nat)
    requires Solvent(a) && Solvent(b) && i <= |a| && j <= |b|
    ensures BoundedBy(Kept(a), Kept(b), Wealth(a), Wealth(b[..j]), Wealth(a[..i]))
  {
    KeptBounds(a);
    KeptBounds(b);
    KeptToTheEnd(a, i);
    KeptFromTheStart(b, j);
  }

  lemma {:induction false} FallAcross(a: seq<real>, b: seq<real>, i: nat, j: nat, p: real)
    requires Solvent(a) && Solvent(b) && i <= |a| && j <= |b|
    requires p == Wealth(a) * Wealth(b[..j])
    ensures KeepsProduct(p, Wealth(a[..i]), Kept(a), Kept(b))
  {
    KeptAcross(a, b, i, j);
    SplitQuotient(p, Wealth(a), Wealth(b[..j]), Wealth(a[..i]), Kept(a), Kept(b));
  }

  lemma {:induction false} KeptToTheEnd(a: seq<real>, i: nat)
    requires Solvent(a) && i <= |a|
    ensures Wealth(a[..i]) > 0.0
    ensures Kept(a) <= Wealth(a) / Wealth(a[..i])
  {
    NoFallIsDeeper(a, i, |a|);
    assert a[..|a|] == a;
  }

  lemma KeptFromTheStart(b: seq<real>, j: nat)
    requires Solvent(b) && j <= |b|
    ensures Kept(b) <= Wealth(b[..j])
  {
    NoFallIsDeeper(b, 0, j);
    assert b[..0] == [];
  }

  lemma SplitQuotient(p: real, x: real, y: real, d: real, kx: real, ky: real)
    requires p == x * y && BoundedBy(kx, ky, x, y, d)
    ensures KeepsProduct(p, d, kx, ky)
  {
    ProductAtLeast(kx, ky, x / d, y);
    assert x * y / d == x / d * y;
  }
}
