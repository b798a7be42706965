/** Fractional Top-K exposure. Entities above the boundary score weigh one, the tie group at the boundary shares the
    remaining slots equally, the rest weigh nothing. */
module BoundarySelection {
  import opened Wrappers
  import opened FiniteSums
  import opened Ordering
  import opened CrossSectionalRanking

  datatype Selection = Selection(
    weights: map<int, real>,
    boundaryScore: Option<real>,
    strictCount: nat,
    boundaryGroupSize: nat,
    boundaryWeight: real)

  datatype SelectionError = SlotsNotPositive | WeightOutsideUnit | ExposureNotPreserved | SelectionInvalid

  predicate WithinUnit(weights: map<int, real>) {
    forall k | k in weights :: 0.0 <= weights[k] <= 1.0
  }

  /** The checks of the selection's constructor; counts are never negative. */
  predicate ValidSelection(s: Selection) {
    && 0.0 <= s.boundaryWeight <= 1.0
    && WithinUnit(s.weights)
    && (s.boundaryScore.None? <==> s.weights == map[])
  }

  function Min(a: int, b: int): int {
    if a <= b then a else b
  }

  lemma NonEmptyMap(m: map<int, real>)
    requires m != map[]
    ensures |m| > 0
  {
    assert |m| == |m.Keys|;
    var k := Pick(m.Keys);
  }

  function BoundaryScore(scores: map<int, real>, slots: int, higher: bool): (b: real)
    requires slots > 0 && scores != map[]
  {
    RankedKeysRank(scores, higher);
    NonEmptyMap(scores);
    scores[RankedKeys(scores, higher)[Min(slots, |scores|) - 1]]
  }

  /** What is left of the slots after the better scores, divided over the tie group. */
  function Share(scores: map<int, real>, b: real, slots: int, higher: bool): real
    requires Tied(scores, b) != {}
  {
    (Min(slots, |scores|) - |Better(scores, b, higher)|) as real / |Tied(scores, b)| as real
  }

  function SplitWeight(scores: map<int, real>, b: real, share: real, higher: bool, k: int): real {
    if k !in scores then 0.0
    else if IsBetter(scores[k], b, higher) then 1.0
    else if scores[k] == b then share
    else 0.0
  }

  function Split(scores: map<int, real>, b: real, share: real, higher: bool): int -> real {
    k => SplitWeight(scores, b, share, higher, k)
  }

  function Taking(scores: map<int, real>, taken: int, higher: bool): int -> real
    requires 0 < taken && scores != map[]
  {
    BoundaryCounts(scores, taken, higher);
    var b := BoundaryScore(scores, taken, higher);
    Split(scores, b, Share(scores, b, taken, higher), higher)
  }

  /** The weight of every key: its part of the slots, zero outside the population. */
  function WeightOf(scores: map<int, real>, slots: int, higher: bool): int -> real
    requires slots > 0
  {
    if scores == map[] then k => 0.0 else
      NonEmptyMap(scores);
      Taking(scores, Min(slots, |scores|), higher)
  }

  function Weights(scores: map<int, real>, slots: int, higher: bool): map<int, real>
    requires slots > 0
  {
    var w := WeightOf(scores, slots, higher);
    map k | k in scores :: w(k)
  }

  /** b leaves slots after the better scores, and its tie group fills them. */
  ghost predicate IsBoundary(scores: map<int, real>, b: real, slots: int, higher: bool) {
    && Tied(scores, b) != {}
    && |Better(scores, b, higher)| < Min(slots, |scores|) <= |Better(scores, b, higher)| + |Tied(scores, b)|
  }

  lemma PositionIsBoundary(r: seq<int>, scores: map<int, real>, slots: int, higher: bool, i: nat)
    requires IsRanking(r, scores, higher) && i < |r| && i == Min(slots, |scores|) - 1
    ensures r[i] in scores && IsBoundary(scores, scores[r[i]], slots, higher)
  {
    CountsAtPosition(r, scores, higher, i);
  }

  lemma LastSlotIsBoundary(scores: map<int, real>, slots: int, higher: bool, i: int)
    requires slots > 0 && scores != map[] && i == Min(slots, |scores|) - 1
    ensures 0 <= i < |RankedKeys(scores, higher)| && RankedKeys(scores, higher)[i] in scores
    ensures IsBoundary(scores, scores[RankedKeys(scores, higher)[i]], slots, higher)
  {
    NonEmptyMap(scores);
    RankedKeysRank(scores, higher);
    PositionIsBoundary(RankedKeys(scores, higher), scores, slots, higher, i);
  }

  lemma BoundaryScoreAt(scores: map<int, real>, slots: int, higher: bool, i: int)
    requires slots > 0 && scores != map[] && i == Min(slots, |scores|) - 1
    requires 0 <= i < |RankedKeys(scores, higher)| && RankedKeys(scores, higher)[i] in scores
    ensures BoundaryScore(scores, slots, higher) == scores[RankedKeys(scores, higher)[i]]
  {
  }

  lemma IsBoundaryAt(scores: map<int, real>, slots: int, higher: bool, b: real)
    requires slots > 0 && scores != map[] && b == BoundaryScore(scores, slots, higher)
    requires IsBoundary(scores, b, slots, higher)
    ensures IsBoundary(scores, BoundaryScore(scores, slots, higher), slots, higher)
  {
  }

  lemma BoundaryCounts(scores: map<int, real>, slots: int, higher: bool)
    requires slots > 0 && scores != map[]
    ensures IsBoundary(scores, BoundaryScore(scores, slots, higher), slots, higher)
  {
    var i := Min(slots, |scores|) - 1;
    LastSlotIsBoundary(scores, slots, higher, i);
    BoundaryScoreAt(scores, slots, higher, i);
    IsBoundaryAt(scores, slots, higher, scores[RankedKeys(scores, higher)[i]]);
  }

  lemma BetterIsEarlier(r: seq<int>, scores: map<int, real>, higher: bool, i: nat, j: nat)
    requires IsRanking(r, scores, higher) && i < |r| && j < |r|
    ensures IsBetter(scores[r[i]], scores[r[j]], higher) ==> i < j
  {
    if j < i {
      assert InOrder(scores, r[j], r[i], higher);
    }
  }

  lemma CountsAtPosition(r: seq<int>, scores: map<int, real>, higher: bool, i: nat)
    requires IsRanking(r, scores, higher) && i < |r|
    ensures r[i] in Tied(scores, scores[r[i]])
    ensures |Better(scores, scores[r[i]], higher)| <= i
    ensures i < |Better(scores, scores[r[i]], higher)| + |Tied(scores, scores[r[i]])|
  {
    var b := scores[r[i]];
    var better, tied := Better(scores, b, higher), Tied(scores, b);
    forall k | k in better ensures k in Elements(r[..i]) {
      assert k in r;
      var j :| 0 <= j < |r| && r[j] == k;
      BetterIsEarlier(r, scores, higher, j, i);
      assert r[..i][j] == k;
    }
    DistinctCardinality(r[..i]);
    SubsetCardinality(better, Elements(r[..i]));
    forall k | k in Elements(r[..i + 1]) ensures k in better + tied {
      var j :| 0 <= j < i + 1 && r[..i + 1][j] == k;
      BetterIsEarlier(r, scores, higher, i, j);
    }
    DistinctCardinality(r[..i + 1]);
    SubsetCardinality(Elements(r[..i + 1]), better + tied);
    forall k ensures !(k in better && k in tied) {
    }
    DisjointCardinality(better, tied);
  }

  // ---- conservation ----

  lemma ShareBounds(share: int, size: int)
    requires 0 < share <= size
    ensures 0.0 < share as real / size as real <= 1.0
    ensures share as real / size as real * size as real == share as real
  {
    var a, d := share as real, size as real;
    assert a / d * d == a;
    assert (1.0 - a / d) * d == d - a;
  }

  ghost predicate InUnit(scores: map<int, real>, w: int -> real) {
    forall k | k in scores :: 0.0 <= w(k) <= 1.0
  }

  ghost predicate TiesShareAlike(scores: map<int, real>, w: int -> real) {
    forall j, k | j in scores && k in scores && scores[j] == scores[k] :: w(j) == w(k)
  }

  /** Nobody is given anything before everyone better has a full slot. */
  ghost predicate BetterFirst(scores: map<int, real>, w: int -> real, higher: bool) {
    forall j, k | j in scores && k in scores && IsBetter(scores[j], scores[k], higher) && w(k) > 0.0 :: w(j) == 1.0
  }

  ghost predicate FillsSlots(scores: map<int, real>, w: int -> real, slots: int) {
    Sum(scores.Keys, w) == Min(slots, |scores|) as real
  }

  ghost predicate FairAllocation(scores: map<int, real>, w: int -> real, slots: int, higher: bool) {
    && InUnit(scores, w)
    && TiesShareAlike(scores, w)
    && BetterFirst(scores, w, higher)
    && FillsSlots(scores, w, slots)
  }

  function Worse(scores: map<int, real>, b: real, higher: bool): set<int> {
    scores.Keys - Better(scores, b, higher) - Tied(scores, b)
  }

  ghost predicate ConstantOn(part: set<int>, w: int -> real, c: real) {
    forall k | k in part :: w(k) == c
  }

  lemma WholePopulation(scores: map<int, real>, b: real, higher: bool)
    ensures scores.Keys == Better(scores, b, higher) + Tied(scores, b) + Worse(scores, b, higher)
    ensures Better(scores, b, higher) !! Tied(scores, b)
    ensures (Better(scores, b, higher) + Tied(scores, b)) !! Worse(scores, b, higher)
  {
    var better, tied, rest := Better(scores, b, higher), Tied(scores, b), Worse(scores, b, higher);
    forall k ensures k in scores.Keys <==> k in better + tied + rest {
    }
    SameSet(scores.Keys, better + tied + rest);
    forall k ensures !(k in better && k in tied) && !(k in better + tied && k in rest) {
    }
    DisjointCardinality(better, tied);
    DisjointCardinality(better + tied, rest);
  }

  lemma SplitIsConstant(scores: map<int, real>, b: real, share: real, higher: bool)
    ensures ConstantOn(Better(scores, b, higher), Split(scores, b, share, higher), 1.0)
    ensures ConstantOn(Tied(scores, b), Split(scores, b, share, higher), share)
    ensures ConstantOn(Worse(scores, b, higher), Split(scores, b, share, higher), 0.0)
  {
    forall k | k in Worse(scores, b, higher) ensures Split(scores, b, share, higher)(k) == 0.0 {
      assert k !in Better(scores, b, higher) && k !in Tied(scores, b);
    }
  }

  lemma {:induction false} ConstantPart(part: set<int>, w: int -> real, c: real)
    requires ConstantOn(part, w, c)
    ensures Sum(part, w) == c * |part| as real
  {
    SumCongruent(part, w, k => c);
    SumConstant(part, c);
  }

  lemma {:induction false} OnesPart(part: set<int>, w: int -> real)
    requires ConstantOn(part, w, 1.0)
    ensures Sum(part, w) == |part| as real
  {
    ConstantPart(part, w, 1.0);
  }

  lemma {:induction false} ZerosPart(part: set<int>, w: int -> real)
    requires ConstantOn(part, w, 0.0)
    ensures Sum(part, w) == 0.0
  {
    ConstantPart(part, w, 0.0);
  }

  lemma {:induction false} ThreeParts(all: set<int>, s: set<int>, t: set<int>, u: set<int>, w: int -> real, share: real)
    requires all == s + t + u && s !! t && (s + t) !! u
    requires ConstantOn(s, w, 1.0) && ConstantOn(t, w, share) && ConstantOn(u, w, 0.0)
    ensures Sum(all, w) == |s| as real + share * |t| as real
  {
    SumSplit(s, t, w);
    SumSplit(s + t, u, w);
    OnesPart(s, w);
    ConstantPart(t, w, share);
    ZerosPart(u, w);
  }

  lemma SplitSum(scores: map<int, real>, b: real, share: real, higher: bool)
    ensures Sum(scores.Keys, Split(scores, b, share, higher))
            == |Better(scores, b, higher)| as real + share * |Tied(scores, b)| as real
  {
    WholePopulation(scores, b, higher);
    SplitIsConstant(scores, b, share, higher);
    ThreeParts(scores.Keys, Better(scores, b, higher), Tied(scores, b), Worse(scores, b, higher),
               Split(scores, b, share, higher), share);
  }

  lemma SplitFills(scores: map<int, real>, b: real, slots: int, higher: bool)
    requires IsBoundary(scores, b, slots, higher)
    ensures 0.0 < Share(scores, b, slots, higher) <= 1.0
    ensures FillsSlots(scores, Split(scores, b, Share(scores, b, slots, higher), higher), slots)
  {
    ShareBounds(Min(slots, |scores|) - |Better(scores, b, higher)|, |Tied(scores, b)|);
    SplitSum(scores, b, Share(scores, b, slots, higher), higher);
  }

  lemma SplitIsFair(scores: map<int, real>, b: real, share: real, higher: bool)
    requires 0.0 < share <= 1.0
    ensures InUnit(scores, Split(scores, b, share, higher))
    ensures TiesShareAlike(scores, Split(scores, b, share, higher))
    ensures BetterFirst(scores, Split(scores, b, share, higher), higher)
  {
  }

  lemma SlotsFilled(scores: map<int, real>, slots: int, higher: bool)
    requires slots > 0
    ensures FillsSlots(scores, WeightOf(scores, slots, higher), slots)
  {
    if scores != map[] {
      NonEmptyMap(scores);
      var taken := Min(slots, |scores|);
      BoundaryCounts(scores, taken, higher);
      SplitFills(scores, BoundaryScore(scores, taken, higher), taken, higher);
    } else {
      assert scores.Keys == {};
    }
  }

  lemma TakingIsFair(scores: map<int, real>, taken: int, higher: bool)
    requires taken > 0 && scores != map[]
    ensures InUnit(scores, Taking(scores, taken, higher))
    ensures TiesShareAlike(scores, Taking(scores, taken, higher))
    ensures BetterFirst(scores, Taking(scores, taken, higher), higher)
  {
    BoundaryCounts(scores, taken, higher);
    var b := BoundaryScore(scores, taken, higher);
    SplitFills(scores, b, taken, higher);
    SplitIsFair(scores, b, Share(scores, b, taken, higher), higher);
  }

  /** Asking for more slots than there are entities asks for all of them. */
  lemma CappedSlots(scores: map<int, real>, slots: int, higher: bool)
    requires slots > 0 && scores != map[]
    ensures Min(slots, |scores|) > 0
    ensures Weights(scores, Min(slots, |scores|), higher) == Weights(scores, slots, higher)
  {
    NonEmptyMap(scores);
  }

  /** The boundary weights are a fair allocation of min(slots, population) slots. */
  lemma BoundaryWeightsAreFair(scores: map<int, real>, slots: int, higher: bool)
    requires slots > 0
    ensures FairAllocation(scores, WeightOf(scores, slots, higher), slots, higher)
  {
    SlotsFilled(scores, slots, higher);
    if scores != map[] {
      NonEmptyMap(scores);
      TakingIsFair(scores, Min(slots, |scores|), higher);
    }
  }

  lemma NoneGainsAlone(scores: map<int, real>, v: int -> real, w: int -> real, slots: int, higher: bool, k: int)
    requires FairAllocation(scores, v, slots, higher) && FairAllocation(scores, w, slots, higher)
    requires k in scores
    ensures w(k) <= v(k)
  {
    if v(k) < w(k) {
      forall l | l in scores ensures v(l) <= w(l) {
      }
      StrictSum(scores.Keys, v, w, k);
    }
  }

  lemma {:induction false} StrictSum(s: set<int>, f: int -> real, g: int -> real, k: int)
    requires k in s && f(k) < g(k)
    requires forall j | j in s :: f(j) <= g(j)
    ensures Sum(s, f) < Sum(s, g)
  {
    SumTake(s, f, k);
    SumTake(s, g, k);
    SumMonotone(s - {k}, f, g);
  }

  /** And they are the only fair allocation. */
  lemma FairAllocationUnique(scores: map<int, real>, w: int -> real, slots: int, higher: bool)
    requires slots > 0 && FairAllocation(scores, w, slots, higher)
    ensures forall k | k in scores :: w(k) == Weights(scores, slots, higher)[k]
  {
    BoundaryWeightsAreFair(scores, slots, higher);
    var v := WeightOf(scores, slots, higher);
    forall k | k in scores ensures w(k) == v(k) {
      NoneGainsAlone(scores, v, w, slots, higher, k);
      NoneGainsAlone(scores, w, v, slots, higher, k);
    }
  }

  /** Fractional exposure never reaches beyond one tie group. */
  lemma FractionalOnlyAtBoundary(scores: map<int, real>, w: int -> real, slots: int, higher: bool, j: int, k: int)
    requires FairAllocation(scores, w, slots, higher)
    requires j in scores && k in scores && 0.0 < w(j) < 1.0 && 0.0 < w(k) < 1.0
    ensures scores[j] == scores[k]
  {
    assert !IsBetter(scores[j], scores[k], higher) && !IsBetter(scores[k], scores[j], higher);
  }

  ghost predicate Fills(strict: nat, group: nat, weight: real, slots: int) {
    0.0 < weight <= 1.0 && strict as real + weight * group as real == slots as real
  }

  lemma ShareFills(scores: map<int, real>, b: real, slots: int, higher: bool)
    requires IsBoundary(scores, b, slots, higher)
    ensures Fills(|Better(scores, b, higher)|, |Tied(scores, b)|, Share(scores, b, slots, higher), Min(slots, |scores|))
  {
    ShareBounds(Min(slots, |scores|) - |Better(scores, b, higher)|, |Tied(scores, b)|);
  }

  /** The selection tells how the slots are filled: its strict count in full, its boundary group by equal shares. */
  ghost predicate Describes(s: Selection, scores: map<int, real>, slots: int, higher: bool) {
    && s.boundaryScore.Some? && IsBoundary(scores, s.boundaryScore.value, slots, higher)
    && s.strictCount == |Better(scores, s.boundaryScore.value, higher)|
    && s.boundaryGroupSize == |Tied(scores, s.boundaryScore.value)|
    && Fills(s.strictCount, s.boundaryGroupSize, s.boundaryWeight, Min(slots, |scores|))
  }

  lemma AllocationDescribes(scores: map<int, real>, b: real, slots: int, higher: bool, weights: map<int, real>)
    requires IsBoundary(scores, b, slots, higher)
    ensures var s := Selection(weights, Some(b), |Better(scores, b, higher)|, |Tied(scores, b)|,
                               Share(scores, b, slots, higher));
      Describes(s, scores, slots, higher)
  {
    ShareFills(scores, b, slots, higher);
  }

  lemma AllocatedWeights(scores: map<int, real>, slots: int, higher: bool, share: real)
    requires slots > 0 && scores != map[]
    requires var b := BoundaryScore(scores, slots, higher);
      Tied(scores, b) != {} && share == Share(scores, b, slots, higher)
    ensures var b := BoundaryScore(scores, slots, higher);
      (map k | k in scores ::
         if k in Better(scores, b, higher) then 1.0 else if k in Tied(scores, b) then share else 0.0)
      == (map k | k in scores :: Taking(scores, slots, higher)(k))
  {
    WeightsBySets(scores, BoundaryScore(scores, slots, higher), share, higher);
  }

  /** The allocation itself: strict set, tie group and its equal share. */
  method Allocate(scores: map<int, real>, slots: int, higher: bool) returns (s: Selection)
    requires 0 < slots && scores != map[]
    ensures s.weights == map k | k in scores :: Taking(scores, slots, higher)(k)
    ensures Describes(s, scores, slots, higher)
  {
    BoundaryCounts(scores, slots, higher);
    var boundaryScore := BoundaryScore(scores, slots, higher);
    var strict := Better(scores, boundaryScore, higher);
    var boundary := Tied(scores, boundaryScore);
    var boundaryWeight := Share(scores, boundaryScore, slots, higher);
    var weights := map k | k in scores :: if k in strict then 1.0 else if k in boundary then boundaryWeight else 0.0;
    AllocatedWeights(scores, slots, higher, boundaryWeight);
    AllocationDescribes(scores, boundaryScore, slots, higher, weights);
    return Selection(weights, Some(boundaryScore), |strict|, |boundary|, boundaryWeight);
  }

  lemma AllocationIsValid(scores: map<int, real>, slots: int, higher: bool, s: Selection)
    requires slots > 0 && scores != map[] && s.weights == Weights(scores, slots, higher)
    requires Describes(s, scores, Min(slots, |scores|), higher)
    ensures ValidSelection(s) && ExposureTotal(s.weights) == Min(slots, |scores|) as real
  {
    BoundaryWeightsAreFair(scores, slots, higher);
    WeightsMap(scores, slots, higher);
    TotalOfWeights(scores, slots, higher);
    var k := Pick(scores.Keys);
    assert k in s.weights;
  }

  /** Only the slot count can be refused: neither lost exposure nor a weight outside [0, 1] can ever raise. */
  method FractionalBoundaryWeights(scores: map<int, real>, slots: int, higher: bool)
    returns (r: Result<Selection, SelectionError>)
    ensures r.Ok? <==> slots > 0
    ensures r.Err? ==> r.error == SlotsNotPositive
    ensures r.Ok? ==> ValidSelection(r.value) && r.value.weights == Weights(scores, slots, higher)
    ensures r.Ok? && scores == map[] ==> r.value == Selection(map[], None, 0, 0, 0.0)
    ensures r.Ok? && scores != map[] ==> Describes(r.value, scores, Min(slots, |scores|), higher)
  {
    if slots <= 0 {
      return Err(SlotsNotPositive);
    }
    if scores == map[] {
      return Ok(Selection(map[], None, 0, 0, 0.0));
    }
    NonEmptyMap(scores);
    var selection := Allocate(scores, Min(slots, |scores|), higher);
    AllocationIsValid(scores, slots, higher, selection);
    r := MakeSelection(selection, Min(slots, |scores|));
  }

  /** The exposure check and the constructor's checks. */
  method MakeSelection(s: Selection, slots: int) returns (r: Result<Selection, SelectionError>)
    ensures r.Ok? <==> ValidSelection(s) && ExposureTotal(s.weights) == slots as real
    ensures r.Ok? ==> r.value == s
  {
    if !WithinUnit(s.weights) {
      return Err(WeightOutsideUnit);
    }
    if ExposureTotal(s.weights) != slots as real {
      return Err(ExposureNotPreserved);
    }
    if !ValidSelection(s) {
      return Err(SelectionInvalid);
    }
    return Ok(s);
  }

  function ExposureTotal(weights: map<int, real>): real {
    Sum(weights.Keys, k => At(weights, k))
  }

  lemma WeightsBySets(scores: map<int, real>, b: real, share: real, higher: bool)
    ensures (map k | k in scores ::
               if k in Better(scores, b, higher) then 1.0 else if k in Tied(scores, b) then share else 0.0)
            == (map k | k in scores :: Split(scores, b, share, higher)(k))
  {
  }

  lemma TotalOfWeights(scores: map<int, real>, slots: int, higher: bool)
    requires slots > 0
    ensures ExposureTotal(Weights(scores, slots, higher)) == Min(slots, |scores|) as real
  {
    SlotsFilled(scores, slots, higher);
    WeightsMap(scores, slots, higher);
    TotalOfMap(Weights(scores, slots, higher), WeightOf(scores, slots, higher), scores.Keys);
  }

  lemma WeightsMap(scores: map<int, real>, slots: int, higher: bool)
    requires slots > 0
    ensures Weights(scores, slots, higher).Keys == scores.Keys
    ensures forall k | k in Weights(scores, slots, higher) ::
      Weights(scores, slots, higher)[k] == WeightOf(scores, slots, higher)(k)
  {
  }

  lemma {:induction false} TotalOfMap(m: map<int, real>, w: int -> real, keys: set<int>)
    requires m.Keys == keys && forall k | k in m :: m[k] == w(k)
    ensures ExposureTotal(m) == Sum(keys, w)
  {
    SumCongruent(keys, k => At(m, k), w);
  }
}
