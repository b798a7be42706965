/** The rank kernels shared by every ranker: competition ranks, midrank percentiles and fractional weights at the
    Top-K boundary. A cross section maps entity keys to exact numbers. */
module CrossSectionalRanking {
  import opened FiniteSums
  import opened Ordering

  function At(m: map<int, real>, k: int): real {
    if k in m then m[k] else 0.0
  }

  predicate IsBetter(a: real, b: real, higher: bool) {
    if higher then a > b else a < b
  }

  function Better(m: map<int, real>, v: real, higher: bool): set<int> {
    set k | k in m && IsBetter(m[k], v, higher)
  }

  function Tied(m: map<int, real>, v: real): set<int> {
    set k | k in m && m[k] == v
  }

  // ---- the sorted population ----

  function RankKey(m: map<int, real>, higher: bool): int -> Key {
    k => Key(if higher then -At(m, k) else At(m, k), 0, k)
  }

  /** Keys from best to worst; equal scores in key order. */
  function RankedKeys(m: map<int, real>, higher: bool): seq<int> {
    Sort(SortedSeq(m.Keys), RankKey(m, higher))
  }

  /** r lists the population of m from best to worst, equal scores in key order. */
  ghost predicate IsRanking(r: seq<int>, m: map<int, real>, higher: bool) {
    && |r| == |m|
    && Distinct(r)
    && (forall i | 0 <= i < |r| :: r[i] in m)
    && (forall k | k in m :: k in r)
    && (forall i, j | 0 <= i < j < |r| :: InOrder(m, r[i], r[j], higher))
  }

  ghost predicate InOrder(m: map<int, real>, a: int, b: int, higher: bool)
    requires a in m && b in m
  {
    IsBetter(m[a], m[b], higher) || (m[a] == m[b] && a < b)
  }

  lemma RankedKeysRank(m: map<int, real>, higher: bool)
    ensures IsRanking(RankedKeys(m, higher), m, higher)
  {
    var keys := SortedSeq(m.Keys);
    var key := RankKey(m, higher);
    var r := RankedKeys(m, higher);
    assert |m.Keys| == |m|;
    SameMembers(keys, r);
    PermutationDistinct(keys, r);
    forall i | 0 <= i < |r| ensures r[i] in m {
      assert r[i] in r;
    }
    KeyOrder(r, m, higher);
  }

  /** The ranked keys are exactly the population, each once. */
  lemma RankedKeysMembers(m: map<int, real>, higher: bool)
    ensures |RankedKeys(m, higher)| == |m| && Distinct(RankedKeys(m, higher))
    ensures forall i | 0 <= i < |RankedKeys(m, higher)| :: RankedKeys(m, higher)[i] in m
    ensures forall k :: k in RankedKeys(m, higher) <==> k in m
  {
    RankedKeysRank(m, higher);
    var r := RankedKeys(m, higher);
    forall k ensures k in r <==> k in m {
      if k in r {
        var i :| 0 <= i < |r| && r[i] == k;
      }
    }
  }

  lemma KeyOrder(r: seq<int>, m: map<int, real>, higher: bool)
    requires Sorted(r, RankKey(m, higher)) && Distinct(r)
    requires forall i | 0 <= i < |r| :: r[i] in m
    ensures forall i, j | 0 <= i < j < |r| :: InOrder(m, r[i], r[j], higher)
  {
    forall i, j | 0 <= i < j < |r| ensures InOrder(m, r[i], r[j], higher) {
      var key := RankKey(m, higher);
      assert AtMost(key(r[i]), key(r[j]));
    }
  }

  /** Positions before a tie group are exactly the better scores, the group exactly the equal ones. */
  lemma TieGroupPositions(r: seq<int>, m: map<int, real>, higher: bool, lo: nat, hi: nat, i: nat)
    requires IsRanking(r, m, higher)
    requires IsTieGroup(r, m, lo, hi)
    requires i < |r|
    ensures IsBetter(m[r[i]], m[r[lo]], higher) <==> i < lo
    ensures m[r[i]] == m[r[lo]] <==> lo <= i < hi
  {
    if i < lo {
      assert InOrder(m, r[lo - 1], r[lo], higher);
      if i < lo - 1 {
        assert InOrder(m, r[i], r[lo - 1], higher);
      }
    } else if hi <= i {
      assert InOrder(m, r[lo], r[hi], higher);
      if hi < i {
        assert InOrder(m, r[hi], r[i], higher);
      }
    }
  }

  ghost predicate IsTieGroup(r: seq<int>, m: map<int, real>, lo: nat, hi: nat)
    requires forall i | 0 <= i < |r| :: r[i] in m
  {
    && lo < hi <= |r|
    && (forall k | lo <= k < hi :: m[r[k]] == m[r[lo]])
    && (lo == 0 || m[r[lo - 1]] != m[r[lo]])
    && (hi == |r| || m[r[hi]] != m[r[lo]])
  }

  lemma SliceMembers(r: seq<int>, m: map<int, real>, higher: bool, lo: nat, hi: nat, part: set<int>)
    requires IsRanking(r, m, higher)
    requires lo <= hi <= |r|
    requires part <= m.Keys
    requires forall i | 0 <= i < |r| :: r[i] in part <==> lo <= i < hi
    ensures part == Elements(r[lo..hi]) && |part| == hi - lo
  {
    forall k ensures k in part <==> k in r[lo..hi] {
      if k in part {
        assert k in r;
        var i :| 0 <= i < |r| && r[i] == k;
        assert r[lo..hi][i - lo] == k;
      }
    }
    assert part == Elements(r[lo..hi]);
    DistinctCardinality(r[lo..hi]);
  }

  lemma TieGroup(r: seq<int>, m: map<int, real>, higher: bool, lo: nat, hi: nat)
    requires IsRanking(r, m, higher)
    requires IsTieGroup(r, m, lo, hi)
    ensures |Better(m, m[r[lo]], higher)| == lo
    ensures Tied(m, m[r[lo]]) == Elements(r[lo..hi]) && |Tied(m, m[r[lo]])| == hi - lo
  {
    forall i | 0 <= i < |r|
      ensures r[i] in Better(m, m[r[lo]], higher) <==> i < lo
      ensures r[i] in Tied(m, m[r[lo]]) <==> lo <= i < hi
    {
      TieGroupPositions(r, m, higher, lo, hi, i);
    }
    SliceMembers(r, m, higher, 0, lo, Better(m, m[r[lo]], higher));
    SliceMembers(r, m, higher, lo, hi, Tied(m, m[r[lo]]));
  }

  // ---- competition ranks ----

  /** A rank is one more than the number of strictly better entities. */
  ghost function RankOf(m: map<int, real>, k: int, higher: bool): int
    requires k in m
  {
    1 + |Better(m, m[k], higher)|
  }

  ghost function Ranks(m: map<int, real>, higher: bool): map<int, int> {
    map k | k in m :: RankOf(m, k, higher)
  }

  lemma {:induction false} BestValueExists(s: set<real>, higher: bool)
    requires s != {}
    ensures exists v :: v in s && forall w | w in s :: !IsBetter(w, v, higher)
    decreases |s|
  {
    var k := Pick(s);
    var rest := s - {k};
    if rest == {} {
      assert s == {k};
    } else {
      BestValueExists(rest, higher);
      var m: real :| m in rest && forall w | w in rest :: !IsBetter(w, m, higher);
      var best := if IsBetter(k, m, higher) then k else m;
      forall w | w in s ensures !IsBetter(w, best, higher) {
        assert w == k || w in rest;
      }
    }
  }

  /** rankByScore is right on every score already passed, and position counts their entities. */
  ghost predicate RankedScores(rankByScore: map<real, int>, position: int,
                               scores: map<int, real>, pending: set<real>, higher: bool)
  {
    && pending <= scores.Values
    && rankByScore.Keys == scores.Values - pending
    && (forall v, w | v in rankByScore && w in pending :: IsBetter(v, w, higher))
    && (forall v | v in rankByScore :: rankByScore[v] == 1 + |Better(scores, v, higher)|)
    && position == 1 + |Passed(scores, pending)|
  }

  ghost function Passed(scores: map<int, real>, pending: set<real>): set<int> {
    set k | k in scores && scores[k] !in pending
  }

  ghost predicate IsBestOf(score: real, pending: set<real>, higher: bool) {
    score in pending && forall w | w in pending :: !IsBetter(w, score, higher)
  }

  lemma PassedAreBetter(rankByScore: map<real, int>, position: int,
                        scores: map<int, real>, pending: set<real>, higher: bool, score: real)
    requires RankedScores(rankByScore, position, scores, pending, higher)
    requires IsBestOf(score, pending, higher)
    ensures Passed(scores, pending) == Better(scores, score, higher)
    ensures Passed(scores, pending - {score}) == Passed(scores, pending) + Tied(scores, score)
    ensures Passed(scores, pending) !! Tied(scores, score)
  {
    forall k | k in scores
      ensures k in Passed(scores, pending) <==> IsBetter(scores[k], score, higher)
    {
      assert scores[k] in scores.Values;
    }
  }

  lemma RankedStep(rankByScore: map<real, int>, position: int,
                   scores: map<int, real>, pending: set<real>, higher: bool, score: real)
    requires RankedScores(rankByScore, position, scores, pending, higher)
    requires IsBestOf(score, pending, higher)
    ensures RankedScores(rankByScore[score := position], position + |Tied(scores, score)|,
                         scores, pending - {score}, higher)
  {
    PassedAreBetter(rankByScore, position, scores, pending, higher, score);
    var after := rankByScore[score := position];
    forall v, w | v in after && w in pending - {score}
      ensures IsBetter(v, w, higher)
    {
      if v == score {
        assert w in pending;
      }
    }
  }

  lemma RankedNone(scores: map<int, real>, higher: bool)
    ensures RankedScores(map[], 1, scores, scores.Values, higher)
  {
    assert forall k | k in scores :: scores[k] in scores.Values;
    assert Passed(scores, scores.Values) == {};
  }

  lemma RankedEveryScore(rankByScore: map<real, int>, position: int, scores: map<int, real>, higher: bool)
    requires RankedScores(rankByScore, position, scores, {}, higher)
    ensures forall k | k in scores ::
      scores[k] in rankByScore && rankByScore[scores[k]] == 1 + |Better(scores, scores[k], higher)|
  {
    assert forall k | k in scores :: scores[k] in scores.Values;
  }

  method CompetitionRanks(scores: map<int, real>, higher: bool) returns (ranks: map<int, int>)
    ensures ranks == Ranks(scores, higher)
  {
    var rankByScore: map<real, int> := map[];
    var pending := scores.Values;
    var position := 1;
    RankedNone(scores, higher);
    while pending != {}
      invariant RankedScores(rankByScore, position, scores, pending, higher)
      decreases |pending|
    {
      BestValueExists(pending, higher);
      var score :| score in pending && forall w | w in pending :: !IsBetter(w, score, higher);
      RankedStep(rankByScore, position, scores, pending, higher, score);
      rankByScore := rankByScore[score := position];
      position := position + |Tied(scores, score)|;
      pending := pending - {score};
    }
    RankedEveryScore(rankByScore, position, scores, higher);
    ranks := map k | k in scores :: rankByScore[scores[k]];
  }

  // ---- midrank percentiles ----

  /** The average position of an entity's tie group, scaled to [0, 1]. */
  ghost function Percentile(m: map<int, real>, k: int, higher: bool): real
    requires k in m
  {
    if |m| == 1 then 0.5 else
      var n := |m|;
      assert |m.Keys| >= 1;
      var ascending := (2 * |Better(m, m[k], false)| + |Tied(m, m[k])| - 1) as real / (2 * (n - 1)) as real;
      if higher then ascending else 1.0 - ascending
  }

  ghost function Percentiles(m: map<int, real>, higher: bool): map<int, real> {
    map k | k in m :: Percentile(m, k, higher)
  }

  function GroupMidrank(lo: int, hi: int, n: int, higher: bool): real
    requires n > 1
  {
    var ascending := (lo + hi - 1) as real / (2 * (n - 1)) as real;
    if higher then ascending else 1.0 - ascending
  }

  /** Exactly the entities before position have their percentile. */
  ghost predicate RankedUpTo(percentiles: map<int, real>, values: map<int, real>, higher: bool,
                             ordered: seq<int>, position: int)
  {
    && 0 <= position <= |ordered|
    && (forall k :: k in percentiles <==> k in ordered[..position])
    && (forall k | k in percentiles :: k in values && percentiles[k] == Percentile(values, k, higher))
  }

  /** One tie group of the loop in rank order: all its members get the group's midrank. */
  lemma GroupPercentile(m: map<int, real>, higher: bool, r: seq<int>, lo: nat, hi: nat)
    requires |m| > 1 && IsRanking(r, m, false)
    requires IsTieGroup(r, m, lo, hi)
    ensures forall k | k in r[lo..hi] :: k in m && Percentile(m, k, higher) == GroupMidrank(lo, hi, |m|, higher)
  {
    TieGroup(r, m, false, lo, hi);
    forall k | k in r[lo..hi]
      ensures k in m && Percentile(m, k, higher) == GroupMidrank(lo, hi, |m|, higher)
    {
      assert k in Tied(m, m[r[lo]]);
    }
  }

  lemma PrefixExtended(r: seq<int>, lo: nat, hi: nat)
    requires lo <= hi <= |r|
    ensures forall k :: k in r[..hi] <==> k in r[..lo] || k in r[lo..hi]
  {
    assert r[..hi] == r[..lo] + r[lo..hi];
  }

  lemma PercentileStep(percentiles: map<int, real>, m: map<int, real>, higher: bool, r: seq<int>, lo: nat, hi: nat)
    requires |m| > 1 && IsRanking(r, m, false)
    requires IsTieGroup(r, m, lo, hi)
    requires RankedUpTo(percentiles, m, higher, r, lo)
    ensures RankedUpTo(percentiles + map k | k in r[lo..hi] :: GroupMidrank(lo, hi, |m|, higher), m, higher, r, hi)
  {
    GroupPercentile(m, higher, r, lo, hi);
    PrefixExtended(r, lo, hi);
  }

  lemma RankedAll(percentiles: map<int, real>, m: map<int, real>, higher: bool, r: seq<int>)
    requires IsRanking(r, m, false) && RankedUpTo(percentiles, m, higher, r, |r|)
    ensures percentiles == Percentiles(m, higher)
  {
    assert r[..|r|] == r;
    forall k ensures k in percentiles <==> k in m {
      if k in r {
        var i :| 0 <= i < |r| && r[i] == k;
      }
    }
  }

  /** The end of the tie group that starts at position. */
  method GroupEnd(values: map<int, real>, ordered: seq<int>, position: nat) returns (end: nat)
    requires forall i | 0 <= i < |ordered| :: ordered[i] in values
    requires position < |ordered|
    requires position == 0 || values[ordered[position - 1]] != values[ordered[position]]
    ensures IsTieGroup(ordered, values, position, end)
  {
    end := position + 1;
    while end < |ordered| && values[ordered[end]] == values[ordered[position]]
      invariant position < end <= |ordered|
      invariant forall k | position <= k < end :: values[ordered[k]] == values[ordered[position]]
    {
      end := end + 1;
    }
  }

  method RankPercentiles(values: map<int, real>, higher: bool) returns (percentiles: map<int, real>)
    ensures percentiles == Percentiles(values, higher)
  {
    var ordered := RankedKeys(values, false);
    RankedKeysRank(values, false);
    var n := |ordered|;
    percentiles := map[];
    if n == 0 {
      RankedAll(percentiles, values, higher, ordered);
      return;
    }
    if n == 1 || |values.Values| == 1 {
      ConstantPercentiles(values, higher);
      percentiles := map k | k in values :: 0.5;
      return;
    }
    var position := 0;
    while position < n
      invariant 0 < position < n ==> values[ordered[position - 1]] != values[ordered[position]]
      invariant RankedUpTo(percentiles, values, higher, ordered, position)
      decreases n - position
    {
      var end := GroupEnd(values, ordered, position);
      var midrank := GroupMidrank(position, end, n, higher);
      PercentileStep(percentiles, values, higher, ordered, position, end);
      percentiles := percentiles + map k | k in ordered[position..end] :: midrank;
      position := end;
    }
    RankedAll(percentiles, values, higher, ordered);
  }

  lemma HalfOfDouble(n: int)
    requires n > 1
    ensures (n - 1) as real / (2 * (n - 1)) as real == 0.5
  {
    var d := (n - 1) as real;
    assert (2 * (n - 1)) as real == 2.0 * d;
    assert d / (2.0 * d) == 0.5;
  }

  lemma ConstantValues(m: map<int, real>, k: int)
    requires k in m && |m.Values| == 1
    ensures Better(m, m[k], false) == {} && Tied(m, m[k]) == m.Keys
  {
    assert m[k] in m.Values;
    SubsetCardinality({m[k]}, m.Values);
    assert m.Values == {m[k]};
    assert forall j | j in m :: m[j] in m.Values;
  }

  /** The constant case and the single-entity case of the code agree with the midrank formula. */
  lemma ConstantPercentiles(m: map<int, real>, higher: bool)
    requires |m| == 1 || |m.Values| == 1
    ensures Percentiles(m, higher) == map k | k in m :: 0.5
  {
    forall k | k in m ensures Percentile(m, k, higher) == 0.5 {
      if |m| != 1 {
        ConstantValues(m, k);
        assert |m.Keys| == |m|;
        SubsetCardinality({k}, m.Keys);
        HalfOfDouble(|m|);
      }
    }
  }
}
