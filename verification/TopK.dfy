/** Competition ranks along the sorted population, and the two readings of "the Top-K": the first K of the sorted
    list, and everyone whose rank is at most K. */
module TopK {
  import opened FiniteSums
  import opened Ordering
  import opened CrossSectionalRanking
  import opened BoundarySelection

  lemma BetterGrows(m: map<int, real>, a: int, b: int, higher: bool)
    requires a in m && b in m
    ensures IsBetter(m[a], m[b], higher) <==> RankOf(m, a, higher) < RankOf(m, b, higher)
    ensures m[a] == m[b] <==> RankOf(m, a, higher) == RankOf(m, b, higher)
  {
    if IsBetter(m[a], m[b], higher) {
      StrictlyFewerBetter(m, a, b, higher);
    } else if IsBetter(m[b], m[a], higher) {
      StrictlyFewerBetter(m, b, a, higher);
    }
  }

  lemma StrictlyFewerBetter(m: map<int, real>, a: int, b: int, higher: bool)
    requires a in m && b in m && IsBetter(m[a], m[b], higher)
    ensures |Better(m, m[a], higher)| < |Better(m, m[b], higher)|
  {
    var s, t := Better(m, m[a], higher), Better(m, m[b], higher);
    forall k | k in s ensures k in t {
    }
    assert a in t && a !in s;
    SubsetCardinality(s, t);
  }

  /** Sorted by (score, symbol), predictions are strictly increasing in (rank, symbol). */
  lemma RankSymbolIncreasing(r: seq<int>, m: map<int, real>, higher: bool, i: nat, j: nat)
    requires IsRanking(r, m, higher) && i < j < |r|
    ensures RankOf(m, r[i], higher) < RankOf(m, r[j], higher)
            || (RankOf(m, r[i], higher) == RankOf(m, r[j], higher) && r[i] < r[j])
  {
    assert InOrder(m, r[i], r[j], higher);
    BetterGrows(m, r[i], r[j], higher);
  }

  lemma RankAtMostPosition(r: seq<int>, m: map<int, real>, higher: bool, i: nat)
    requires IsRanking(r, m, higher) && i < |r|
    ensures 1 <= RankOf(m, r[i], higher) <= i + 1
  {
    CountsAtPosition(r, m, higher, i);
  }

  /** Everyone ranked within the first k places, boundary ties included. */
  ghost function WithinRank(m: map<int, real>, k: int, higher: bool): set<int> {
    set s | s in m && RankOf(m, s, higher) <= k
  }

  /** The Top-K prefix lies inside the rank set, which never splits a tie and never falls short. */
  lemma PrefixWithinRank(r: seq<int>, m: map<int, real>, higher: bool, k: nat)
    requires IsRanking(r, m, higher)
    ensures Elements(r[..Min(k, |r|)]) <= WithinRank(m, k, higher)
    ensures |WithinRank(m, k, higher)| >= Min(k, |m|)
    ensures forall a, b | a in m && b in m && m[a] == m[b] ::
      a in WithinRank(m, k, higher) <==> b in WithinRank(m, k, higher)
  {
    var n := Min(k, |r|);
    var prefix := r[..n];
    forall s | s in Elements(prefix) ensures s in WithinRank(m, k, higher) {
      var i :| 0 <= i < n && prefix[i] == s;
      RankAtMostPosition(r, m, higher, i);
    }
    DistinctCardinality(prefix);
    SubsetCardinality(Elements(prefix), WithinRank(m, k, higher));
    forall a, b | a in m && b in m && m[a] == m[b]
      ensures a in WithinRank(m, k, higher) <==> b in WithinRank(m, k, higher)
    {
      BetterGrows(m, a, b, higher);
    }
  }

  /** No tie straddles the boundary between the k-th and the next place. */
  ghost predicate CleanBoundary(r: seq<int>, m: map<int, real>, k: nat)
    requires forall i | 0 <= i < |r| :: r[i] in m
  {
    0 < k < |r| ==> m[r[k - 1]] != m[r[k]]
  }

  /** The prefix and the rank set are the same set exactly when no tie straddles the boundary. */
  lemma PrefixIsRankSetIff(r: seq<int>, m: map<int, real>, higher: bool, k: nat)
    requires IsRanking(r, m, higher)
    ensures Elements(r[..Min(k, |r|)]) == WithinRank(m, k, higher) <==> CleanBoundary(r, m, k)
  {
    PrefixWithinRank(r, m, higher, k);
    var prefix := r[..Min(k, |r|)];
    if 0 < k < |r| && m[r[k - 1]] == m[r[k]] {
      TieLeaksIn(r, m, higher, k);
    } else {
      forall s | s in WithinRank(m, k, higher) ensures s in Elements(prefix) {
        assert s in r;
        var i :| 0 <= i < |r| && r[i] == s;
        LateRank(r, m, higher, k, i);
        assert r[..Min(k, |r|)][i] == s;
      }
    }
  }

  lemma TieLeaksIn(r: seq<int>, m: map<int, real>, higher: bool, k: nat)
    requires IsRanking(r, m, higher) && 0 < k < |r|
    requires m[r[k - 1]] == m[r[k]]
    ensures r[k] in WithinRank(m, k, higher) && r[k] !in Elements(r[..k])
  {
    RankAtMostPosition(r, m, higher, k - 1);
    BetterGrows(m, r[k - 1], r[k], higher);
  }

  lemma LateRank(r: seq<int>, m: map<int, real>, higher: bool, k: nat, i: nat)
    requires IsRanking(r, m, higher) && CleanBoundary(r, m, k) && i < |r|
    requires RankOf(m, r[i], higher) <= k
    ensures i < k
  {
    if k <= i {
      forall j | 0 <= j < k ensures r[j] in Better(m, m[r[i]], higher) {
        AcrossBoundary(r, m, higher, k, j, i);
      }
      forall s | s in Elements(r[..k]) ensures s in Better(m, m[r[i]], higher) {
        var j :| 0 <= j < k && r[..k][j] == s;
      }
      DistinctCardinality(r[..k]);
      SubsetCardinality(Elements(r[..k]), Better(m, m[r[i]], higher));
    }
  }

  lemma AcrossBoundary(r: seq<int>, m: map<int, real>, higher: bool, k: nat, j: nat, i: nat)
    requires IsRanking(r, m, higher) && CleanBoundary(r, m, k)
    requires j < k <= i < |r|
    ensures IsBetter(m[r[j]], m[r[i]], higher)
  {
    assert InOrder(m, r[k - 1], r[k], higher);
    if j < k - 1 {
      assert InOrder(m, r[j], r[k - 1], higher);
    }
    if k < i {
      assert InOrder(m, r[k], r[i], higher);
    }
  }
}
