/** Finite sets and maps of integer keys, and sums of reals over them that do not depend on any order. */
module FiniteSums {

  lemma Pick<T>(s: set<T>) returns (k: T)
    requires s != {}
    ensures k in s
  {
    k :| k in s;
  }

  lemma {:induction false} MinExists(s: set<int>)
    requires s != {}
    ensures exists m :: m in s && forall x | x in s :: m <= x
    decreases |s|
  {
    var k := Pick(s);
    var rest := s - {k};
    if rest == {} {
      assert s == {k};
    } else {
      MinExists(rest);
      var m: int :| m in rest && forall x | x in rest :: m <= x;
      var least := if k < m then k else m;
      forall x | x in s ensures least <= x {
        assert x == k || x in rest;
      }
    }
  }

  function MinOf(s: set<int>): (m: int)
    requires s != {}
    ensures m in s && forall x | x in s :: m <= x
  {
    MinExists(s);
    var m :| m in s && forall x | x in s :: m <= x;
    m
  }

  function Sum(s: set<int>, f: int -> real): real
    decreases |s|
  {
    if s == {} then 0.0 else
      var k := MinOf(s);
      f(k) + Sum(s - {k}, f)
  }

  /** Any element, not only the least, may be taken out of the sum. */
  lemma {:induction false} SumTake(s: set<int>, f: int -> real, k: int)
    requires k in s
    ensures Sum(s, f) == f(k) + Sum(s - {k}, f)
    decreases |s|
  {
    var m := MinOf(s);
    if k != m {
      SumTake(s - {m}, f, k);
      assert s - {m} - {k} == s - {k} - {m};
      assert m in s - {k} && MinOf(s - {k}) in s;
    }
  }

  lemma {:induction false} SumCongruent(s: set<int>, f: int -> real, g: int -> real)
    requires forall k | k in s :: f(k) == g(k)
    ensures Sum(s, f) == Sum(s, g)
    decreases |s|
  {
    if s != {} {
      SumCongruent(s - {MinOf(s)}, f, g);
    }
  }

  lemma {:induction false} SumSplit(a: set<int>, b: set<int>, f: int -> real)
    requires a !! b
    ensures Sum(a + b, f) == Sum(a, f) + Sum(b, f)
    decreases |a|
  {
    if a == {} {
      assert a + b == b;
    } else {
      var k := MinOf(a);
      SumSplit(a - {k}, b, f);
      SumTake(a + b, f, k);
      assert a + b - {k} == (a - {k}) + b;
    }
  }

  lemma {:induction false} SumPlus(s: set<int>, f: int -> real, g: int -> real)
    ensures Sum(s, k => f(k) + g(k)) == Sum(s, f) + Sum(s, g)
    decreases |s|
  {
    if s != {} {
      SumPlus(s - {MinOf(s)}, f, g);
    }
  }

  lemma {:induction false} SumConstant(s: set<int>, c: real)
    ensures Sum(s, k => c) == c * |s| as real
    decreases |s|
  {
    if s != {} {
      SumConstant(s - {MinOf(s)}, c);
    }
  }

  lemma {:induction false} SumMonotone(s: set<int>, f: int -> real, g: int -> real)
    requires forall k | k in s :: f(k) <= g(k)
    ensures Sum(s, f) <= Sum(s, g)
    decreases |s|
  {
    if s != {} {
      SumMonotone(s - {MinOf(s)}, f, g);
    }
  }

  lemma {:induction false} SumNonNegative(s: set<int>, f: int -> real)
    requires forall k | k in s :: f(k) >= 0.0
    ensures Sum(s, f) >= 0.0
    ensures Sum(s, f) == 0.0 <==> forall k | k in s :: f(k) == 0.0
    decreases |s|
  {
    if s != {} {
      SumNonNegative(s - {MinOf(s)}, f);
    }
  }

  /** Counting is summing the indicator. */
  lemma {:induction false} SumIndicator(s: set<int>, p: int -> bool)
    ensures Sum(s, k => if p(k) then 1.0 else 0.0) == |set k | k in s && p(k)| as real
    decreases |s|
  {
    var ones := set k | k in s && p(k);
    if s == {} {
      assert ones == {};
    } else {
      var m := MinOf(s);
      SumIndicator(s - {m}, p);
      var rest := set k | k in s - {m} && p(k);
      assert ones == if p(m) then rest + {m} else rest;
    }
  }

  /** Summing a table by rows or by columns gives the same total. */
  lemma {:induction false} SumSwap(a: set<int>, b: set<int>, f: (int, int) -> real)
    ensures Sum(a, i => Sum(b, j => f(i, j))) == Sum(b, j => Sum(a, i => f(i, j)))
    decreases |a|
  {
    var columns := j => Sum(a, i => f(i, j));
    if a == {} {
      SumConstant(b, 0.0);
      SumCongruent(b, columns, j => 0.0);
    } else {
      SumSwap(a - {MinOf(a)}, b, f);
      FirstRow(a, b, f);
    }
  }

  lemma FirstRow(a: set<int>, b: set<int>, f: (int, int) -> real)
    requires a != {}
    ensures Sum(b, j => Sum(a, i => f(i, j))) ==
            Sum(b, j => f(MinOf(a), j)) + Sum(b, j => Sum(a - {MinOf(a)}, i => f(i, j)))
  {
    var m := MinOf(a);
    var row := j => f(m, j);
    var rest := j => Sum(a - {m}, i => f(i, j));
    SumPlus(b, row, rest);
    SumCongruent(b, j => Sum(a, i => f(i, j)), j => row(j) + rest(j));
  }

  lemma SubsetCardinality<T>(a: set<T>, b: set<T>)
    requires a <= b
    ensures |a| <= |b|
    ensures |a| == |b| ==> a == b
  {
    assert b == a + (b - a);
    assert |b| == |a| + |b - a|;
  }

  lemma SameSet<T>(a: set<T>, b: set<T>)
    requires forall x :: x in a <==> x in b
    ensures a == b
  {
  }

  lemma SameMap<K, V>(a: map<K, V>, b: map<K, V>)
    requires forall k :: k in a <==> k in b
    requires forall k | k in a && k in b :: a[k] == b[k]
    ensures a == b
  {
  }

  lemma DisjointCardinality<T>(a: set<T>, b: set<T>)
    requires forall x :: !(x in a && x in b)
    ensures a !! b && |a + b| == |a| + |b|
  {
    assert a !! b;
  }

  lemma {:induction false} SumBelowSum(s: set<int>, f: int -> real, g: int -> real, h: int -> real)
    requires forall k | k in s :: f(k) <= g(k) + h(k)
    ensures Sum(s, f) <= Sum(s, g) + Sum(s, h)
    decreases |s|
  {
    if s != {} {
      SumBelowSum(s - {MinOf(s)}, f, g, h);
    }
  }

  lemma {:induction false} SumOfZeros(s: set<int>, f: int -> real)
    requires forall k | k in s :: f(k) == 0.0
    ensures Sum(s, f) == 0.0
    decreases |s|
  {
    if s != {} {
      SumOfZeros(s - {MinOf(s)}, f);
    }
  }

  /** Keys at which the summand vanishes may be left out. */
  lemma {:induction false} SumExtend(all: set<int>, part: set<int>, f: int -> real)
    requires part <= all
    requires forall k | k in all && k !in part :: f(k) == 0.0
    ensures Sum(all, f) == Sum(part, f)
  {
    SumOfZeros(all - part, f);
    SumSplit(part, all - part, f);
    assert part + (all - part) == all;
  }
}
