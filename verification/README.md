# Market regime alpha: a verified model

This project models three parts of the repository in Dafny and proves what they promise.

**Candidate policies.** A population of candidates per session is filtered by hard integrity, its factors
become cross-sectional percentiles, candidates are ranked with ties and receive fractional Top-K weights; two
policies are then compared by turnover, weighted returns, rank correlation, drawdown and a stability verdict.
`CrossSectionalRanking`, `PercentileLaws`, `BoundarySelection` and `TopK` hold the rank kernels;
`PolicyContracts`, `CandidatePolicy`, `PolicyEvaluation`, `PolicyTheorems` and `EvaluationTheorems` the evaluator;
`Correlation`, `Drawdown`, `PolicyComparison`, `SelectionReturns` and `ComparisonReport` the comparison;
`CandidateDatasets`, `CandidateRanking`, `CompositeRanking`, `CompositeLaws`, `CandidateEvaluation` and
`DirectionalAccuracy` the dataset builders, the two rankers and their evaluation.

**The daily decision loop.** `PredictionRuns`, `Recommendations`, `EntryPlumbing` and `DecisionBundle` lead from a
ranking to a published decision; `OutcomeSettlement`, `DailyReview` and `Settlement` settle it against the next
session's 10:30 bars; `ReviewJson` and `ReviewPackage` print the settlement to files and read it back. `DailyLoop`
runs the stages one after the other: given inputs that belong together, no stage refuses what the one before
produced, and the published package reads back as the settlement; run again, the loop verifies it.

**Two loop engines.** `BarHistory`, `IncrementalRefresh`, `RefreshExactness`, `RefreshRuns`, `FetchLoop` and
`FetchLoopLaws` model the resumable minute-bar fetcher, `ImportGraph` the import closure of the repository inventory.

`FiniteSums`, `Ordering`, `Grouping` and `Wrappers` are shared vocabulary: finite sets and sums over them, the stable
sort by key, grouping by session, optional values and results.

## How to read it

- Loops of the source are methods with loops, proved equal to a specification function or predicate; the lemmas
  are about those specifications. Objects the source updates in place (the fetch batch, the package store) are classes.
- An exception is an `Err` result. A contract `r.Ok? <==> ...` says exactly when the source does not raise, and a
  lemma named `...IsAccepted`, `...Settles` or `...Publishes` that a check can never fire.
- Numbers are exact reals, symbols, sessions and identities are integers, timestamps are seconds since a midnight.
- A content hash is modelled by the content it is computed from, so equal identities mean equal contents.
- Lemmas over recursive functions carry `{:induction false}`: every induction hypothesis a proof uses is a call in its body.
- The rows at the end of the table, marked as consequences, follow from the definitions and are kept for reference.

## What turned out to be false of the code

- A refresh is not always a refetch, not even of a provider that serves every stored bar unchanged and stamps none after
  15:00:00: it never looks at the days before its restart day again. A bar of such a day that was dropped or not yet
  served when the day was stored stays missing (`HoleIsNotFilled`), a correction of such a day is never seen, and bars
  after the close of a day stored to its close are lost (`LateBarIsLost`). `RefreshIsRefetchIff` gives the exact
  condition for any file and any provider, `RefreshOfServedIff` and `ExactPrefixRefreshIff` its forms for files whose bars
  are all still served and for files without a hole, and `RefetchStaysRefetchIff` what the provider may change
  meanwhile. `PastIsFrozen` shows that no number of refreshes repairs an earlier day; `EveryBarWasServed` what still
  holds of every run.
- A valid prediction run need not be publishable: its constructor does not ask ties to be listed by symbol, but the
  bundle does. `ProjectionIsCanonicalIff` gives the exact condition, `TieAgainstSymbolOrderIsRefused` an example; the
  repository's own rankers always meet it.
- The checkpoint never saves work in an ordinary run: whenever it would skip a symbol, the stored file already does
  (`CheckpointSkipNeedsForce`). Under `--force` it skips once and then forgets (`ForcedSkipIsForgotten`).
- The daily publication admits a choice of one model, but the two-model slice behind it refuses every such choice
  (`PublishRuns`).
- The review reader does not accept exactly what the printer writes: numbers given as texts, integers or truth values,
  counts given as fractions and texts given as other values pass, because identities are recomputed after conversion;
  and the protocol's two flags are compared by an equality for which zero is false (`ZeroPassesForFalse`).
  `AcceptedObservationIff`, `AcceptedRecommendationIff`, `AcceptedReviewIff` and `AcceptedPackageIff` say exactly when an
  accepted value is the printed one.
- When a review package already exists, the runner loads it and compares settlements; a package that loads under that
  name is always the same settlement, so the comparison cannot fail (`NameDecides`).
- The duplicate-endpoint check of the settlement and the uniqueness check of the bundle are unreachable
  (`EndpointsAreUnique`, `OrderedIsDistinct`).

## Model

| member | source | states |
|---|---|---|
| CrossSectionalRanking.CompetitionRanks | src/market_regime_alpha/research/cross_sectional_ranking.py:202-218 | The loop over distinct scores gives every key one more than the number of strictly better keys, ties sharing a rank. |
| CrossSectionalRanking.RankPercentiles | src/market_regime_alpha/research/cross_sectional_ranking.py:281-311 | The tie-group loop gives every key the midrank of its group scaled to [0, 1], in either direction, with the single-key and constant cases falling under the same formula. |
| CrossSectionalRanking.GroupEnd | src/market_regime_alpha/research/cross_sectional_ranking.py:302-304 | The inner loop finds the end of a maximal run of equal values. |
| CrossSectionalRanking.RankedKeysRank | src/market_regime_alpha/candidates/baselines.py:157-158 | Sorting by score and symbol lists the population once, better scores first, ties by symbol. |
| CrossSectionalRanking.TieGroup | src/market_regime_alpha/research/cross_sectional_ranking.py:211-215 | The positions before a tie group are exactly the better keys, the group exactly the tied ones. |
| PercentileLaws.PercentileBounds | src/market_regime_alpha/research/cross_sectional_ranking.py:37-43 | Every percentile lies in [0, 1]. |
| PercentileLaws.PercentileOrder | src/market_regime_alpha/research/cross_sectional_ranking.py:281-311 | Percentiles order keys exactly as values do: equal iff tied, greater iff better. |
| PercentileLaws.DirectionSymmetry | src/market_regime_alpha/research/cross_sectional_ranking.py:306-307 | Reversing the direction equals negating the values, and the two percentiles of a key sum to one. |
| PercentileLaws.PercentilesAverageOneHalf | src/market_regime_alpha/research/cross_sectional_ranking.py:281-311 | However values tie, the percentiles of a cross section sum to half its size. |
| PercentileLaws.OnlyOrderMatters | src/market_regime_alpha/research/cross_sectional_ranking.py:281-311 | Two cross sections that order one population alike have the same ranks and percentiles. |
| BoundarySelection.FractionalBoundaryWeights | src/market_regime_alpha/research/cross_sectional_ranking.py:132-178 | The boundary selection succeeds for every positive slot count, its exposure and constructor checks included; it returns the fair weights, and its counts and boundary weight add up to the filled slots. |
| BoundarySelection.BoundaryWeightsAreFair | src/market_regime_alpha/research/cross_sectional_ranking.py:149-171 | Weights lie in [0, 1], ties share alike, a worse score gets nothing while a better one is not full, and the total is min(slots, population). |
| BoundarySelection.FairAllocationUnique | src/market_regime_alpha/research/cross_sectional_ranking.py:149-171 | These four conditions leave no other choice of weights. |
| BoundarySelection.TotalOfWeights | src/market_regime_alpha/research/cross_sectional_ranking.py:181-199 | The weights fill exactly min(slots, population) slots, so the exposure check never fires. |
| TopK.RankSymbolIncreasing | src/market_regime_alpha/candidates/baselines.py:157-172 | Sorted by score then symbol, predictions strictly increase in (competition rank, symbol). |
| TopK.PrefixWithinRank | src/market_regime_alpha/daily_decision/recommendation.py:239-243 | The first K of the sorted list lie among those ranked at most K; that set has at least min(K, n) members and never splits a tie. |
| TopK.PrefixIsRankSetIff | src/market_regime_alpha/candidates/evaluation.py:147-153 | The sorted prefix and the rank set coincide exactly when no tie straddles the boundary. |
| CandidatePolicy.FactorPercentiles | src/market_regime_alpha/candidates/policy.py:894-906 | One factor is ranked over exactly the hard-eligible candidates that have a value. |
| CandidatePolicy.FactorContributions | src/market_regime_alpha/candidates/policy.py:888-910 | The nested loops credit each candidate with its weighted percentile on every factor it has. |
| CandidatePolicy.FinalIsValid | src/market_regime_alpha/candidates/policy.py:323-335 | No check of the record constructor can fire on a completed record: weight range, positive rank, status and reasons always agree. |
| CandidatePolicy.ProvisionalPass | src/market_regime_alpha/candidates/policy.py:576-683 | The first pass never raises on valid inputs and yields the specified provisional record of every input. |
| CandidatePolicy.SelectionWeights | src/market_regime_alpha/candidates/policy.py:684-704 | Challenger weights are the fair boundary weights over the scored candidates; the boundary call never raises. |
| CandidatePolicy.FinalPass | src/market_regime_alpha/candidates/policy.py:684-739 | The second pass ranks, weighs and completes every record, and no record check fires. |
| PolicyEvaluation.EvaluateSession | src/market_regime_alpha/candidates/policy.py:571-739 | A session of valid inputs always evaluates, to one specified record per input. |
| PolicyEvaluation.EvaluateCandidatePolicy | src/market_regime_alpha/candidates/policy.py:561-752 | The evaluator succeeds iff the inputs are unique and on the policy dataset; the result is the specified evaluation in (session, symbol) order. |
| PolicyEvaluation.EvaluationKeys | src/market_regime_alpha/candidates/policy.py:740 | There is exactly one record per input, in strictly sorted key order. |
| PolicyTheorems.EvaluationIsCoherent | src/market_regime_alpha/candidates/policy.py:323-335 | Every record of every evaluation passes its constructor; SELECTED holds iff the weight is positive, a rank exists iff a final score does, and weight implies a score. |
| PolicyTheorems.InputOrderIsIrrelevant | src/market_regime_alpha/candidates/policy.py:565-570 | Any permutation of the inputs gives the same evaluation. |
| PolicyTheorems.SessionsAreIndependent | src/market_regime_alpha/candidates/policy.py:571-580 | A record depends only on the inputs of its own session. |
| PolicyTheorems.IneligibleIsInvisible | src/market_regime_alpha/candidates/policy.py:888-910 | Removing a hard-ineligible candidate changes no other record of its session. |
| PolicyTheorems.IneligibleValuesAreInert | src/market_regime_alpha/candidates/policy.py:888-910 | Replacing a hard-ineligible candidate by any other hard-ineligible one changes no other record. |
| PolicyTheorems.ChallengerExposureConserved | src/market_regime_alpha/candidates/policy.py:695-711 | A challenger hands out exactly min(top K, scored candidates) per session. |
| PolicyTheorems.ChallengerExposureFair | src/market_regime_alpha/candidates/policy.py:695-711 | Challenger weights are the one fair allocation over the scored candidates. |
| EvaluationTheorems.IneligibleInputIsInvisible | src/market_regime_alpha/candidates/policy.py:888-910 | Dropping a hard-ineligible input from the evaluation changes the record of no other input. |
| EvaluationTheorems.IneligibleInputIsInert | src/market_regime_alpha/candidates/policy.py:888-910 | Nor does replacing it by any other hard-ineligible input, of whatever symbol, session and values. |
| EvaluationTheorems.SessionOfEvaluation | src/market_regime_alpha/candidates/policy.py:740-752 | The records of a session in the finished evaluation are those of its inputs, in symbol order. |
| EvaluationTheorems.EvaluationExposureConserved | src/market_regime_alpha/candidates/policy.py:695-711 | In every session of a challenger evaluation the record weights sum to min(top K, scored records). |
| EvaluationTheorems.EvaluationExposureFair | src/market_regime_alpha/candidates/policy.py:695-711 | Within a session, equal scores weigh alike and nobody weighs anything before every better score has a full slot. |
| Grouping.GroupBy | src/market_regime_alpha/candidates/policy.py:949-958 | The setdefault loop files every item under its session in list order. |
| Grouping.GroupsRestoreOrder | src/market_regime_alpha/candidates/policy.py:949-958 | Concatenating the groups of a sorted list in session order gives the list back. |
| Correlation.CauchySchwarz | src/market_regime_alpha/candidates/policy.py:1081-1086 | The square of a covariance never exceeds the product of the variances. |
| Correlation.PearsonUndefinedIff | src/market_regime_alpha/candidates/policy.py:1073-1086 | The correlation is undefined iff the lengths are inadmissible or one side is constant. |
| Correlation.PearsonBounded | src/market_regime_alpha/candidates/policy.py:1073-1086 | A defined correlation lies in [-1, 1]. |
| Correlation.Spearman | src/market_regime_alpha/candidates/evaluation.py:230-253 | The rank correlation is the correlation of the midrank percentiles by position. |
| Correlation.SpearmanDefinedAndBounded | src/market_regime_alpha/candidates/evaluation.py:230-253 | It is undefined iff there are fewer than two pairs or a constant side, and lies in [-1, 1]. |
| Correlation.SpearmanSeesOnlyOrder | src/market_regime_alpha/candidates/evaluation.py:230-253 | Replacing either side by a series of the same order changes nothing. |
| Drawdown.DrawdownOf | src/market_regime_alpha/candidates/policy.py:1040-1049 | The one-pass loop computes the worst ratio of wealth to running peak. |
| Drawdown.WorstIsDeepest | src/market_regime_alpha/candidates/policy.py:1040-1049 | For returns above -1 the one-pass result is attained by some pair of instants and undercut by none: it is the minimum of wealth_j / wealth_i - 1 over i <= j. |
| Drawdown.DrawdownIsDeepestFall | src/market_regime_alpha/candidates/policy.py:1040-1049 | A number is the drawdown iff it is that minimum. |
| Drawdown.AboveTotalLossIff | src/market_regime_alpha/candidates/policy.py:1040-1049 | The drawdown exceeds -1 iff every return does. |
| Drawdown.NeverRisesOnAppend | src/market_regime_alpha/candidates/policy.py:1040-1049 | Appending returns never raises the drawdown. |
| Drawdown.DrawdownComposes | src/market_regime_alpha/candidates/policy.py:1040-1049 | Two stretches in a row keep at least the product of what each keeps at its worst. |
| PolicyComparison.RecordGroups | src/market_regime_alpha/candidates/policy.py:961-970 | Records are grouped by session and sorted by symbol. |
| PolicyComparison.RankIcOf | src/market_regime_alpha/candidates/policy.py:980-993 | The loop averages the defined daily correlations in session order. |
| PolicyComparison.WholeWeighsHalves | src/market_regime_alpha/candidates/policy.py:1052-1070 | When both halves have a rank IC, the whole sample has one, and it is their mean weighted by estimable days. |
| PolicyComparison.StableIsSound | src/market_regime_alpha/candidates/policy.py:1052-1070 | The whole-sample IC lies between the halves; under STABLE it opposes neither, and a non-zero IC opposing neither means STABLE. |
| SelectionReturns.DistanceBounds | src/market_regime_alpha/candidates/policy.py:787-802 | Per session, turnover lies between half the difference and half the sum of the two total weights. |
| SelectionReturns.TurnoverSymmetric | src/market_regime_alpha/candidates/policy.py:784-803 | Turnover is symmetric. |
| SelectionReturns.TurnoverTriangle | src/market_regime_alpha/candidates/policy.py:784-803 | Over one set of sessions turnover obeys the triangle inequality. |
| SelectionReturns.TurnoverZeroIff | src/market_regime_alpha/candidates/policy.py:784-803 | Turnover is zero iff the two selections agree in every session. |
| ComparisonReport.SelectedDailyReturns | src/market_regime_alpha/candidates/policy.py:1003-1024 | The loop yields each session's weighted mean return of what was selected, skipping sessions without selection. |
| ComparisonReport.DayReturnAbove | src/market_regime_alpha/candidates/policy.py:1003-1024 | A day's return exceeds any bound every return exceeds, and exists iff something was selected. |
| ComparisonReport.SelectionStaysSolvent | src/market_regime_alpha/candidates/policy.py:805-815 | If every realized return exceeds cost minus one, so does every daily return net of cost. |
| ComparisonReport.NetDrawdownMeansDeepestFall | src/market_regime_alpha/candidates/policy.py:810-815 | Then the reported net drawdown lies in (-1, 0] and is the deepest fall of net wealth. |
| ComparisonReport.SelectionTurnover | src/market_regime_alpha/candidates/policy.py:782-803 | The reported turnover is the mean half-distance over the shared sessions. |
| ComparisonReport.CheckComparable | src/market_regime_alpha/candidates/policy.py:762-781 | The comparison is refused iff roles, dataset, population or realized returns fail to match. |
| ComparisonReport.CompareCandidatePolicies | src/market_regime_alpha/candidates/policy.py:755-876 | The comparison succeeds exactly on comparable inputs and reports the specified sides, turnover and stability. |
| ComparisonReport.EvaluationsOfOnePopulationCompare | src/market_regime_alpha/candidates/policy.py:755-781 | Incumbent and challenger evaluations of the same inputs with one return each are always comparable. |
| CandidateRanking.CheckRun | src/market_regime_alpha/candidates/baselines.py:60-82 | The run constructor accepts a run iff sizes, unique symbols and competition ranks hold. |
| CandidateRanking.MakePredictions | src/market_regime_alpha/candidates/contracts.py:166-171 | Predictions come in ranked order with their competition ranks; one is refused iff its rank exceeds the population, which cannot happen for candidates of that population. |
| CandidateRanking.RankCandidatesByFeature | src/market_regime_alpha/candidates/baselines.py:91-186 | The ranker succeeds iff the feature is present; its run is the specified one and always passes the constructor. |
| CandidateRanking.FeatureAccounts | src/market_regime_alpha/candidates/baselines.py:123-155 | Every row is ranked or rejected, never both, rejections in symbol order. |
| CandidateRanking.AccountedRun | src/market_regime_alpha/candidates/evaluation.py:121-128 | A run that accounts for the rows is valid and its symbols are exactly the dataset population. |
| CompositeRanking.CheckSpec | src/market_regime_alpha/candidates/composite_baseline.py:65-104 | A specification is accepted iff it has components, positive weights and distinct features; a bad weight is reported first. |
| CompositeRanking.CompleteCase | src/market_regime_alpha/candidates/composite_baseline.py:222-258 | The inner loop with its early break rejects a row at its first unusable component, else collects every value. |
| CompositeRanking.CompleteCases | src/market_regime_alpha/candidates/composite_baseline.py:220-262 | The row loop splits the rows into complete cases and rejections. |
| CompositeRanking.RankCandidatesByTransparentComposite | src/market_regime_alpha/candidates/composite_baseline.py:185-318 | The ranker succeeds iff every component feature is present; its run is the specified composite and always passes the constructor. |
| CompositeRanking.CompositeAccounts | src/market_regime_alpha/candidates/composite_baseline.py:152-175 | Every row is ranked or rejected, never both. |
| CompositeLaws.ComponentOrderIsIrrelevant | src/market_regime_alpha/candidates/composite_baseline.py:104-106 | A permutation of the components gives the same run. |
| CompositeLaws.WeightsMatterOnlyInProportion | src/market_regime_alpha/candidates/composite_baseline.py:108-112 | Multiplying all weights by one positive factor gives the same run. |
| CompositeLaws.OnlyFeatureOrderMatters | src/market_regime_alpha/candidates/composite_baseline.py:263-300 | A strictly increasing change of one feature's values leaves predictions and rejections unchanged. |
| CompositeLaws.RejectedRowsAreInert | src/market_regime_alpha/candidates/composite_baseline.py:246-300 | Dropping a rejected row, or replacing it by another rejected one, leaves the predictions unchanged. |
| CompositeLaws.ScoresBounded | src/market_regime_alpha/candidates/composite_baseline.py:281-292 | Every composite score lies in [0, 1]. |
| CompositeLaws.ScoresAverageOneHalf | src/market_regime_alpha/candidates/composite_baseline.py:281-292 | The scores sum to half the number of complete cases, whatever weights and values. |
| CompositeLaws.DominanceIsRespected | src/market_regime_alpha/candidates/composite_baseline.py:281-294 | A candidate at least as good on every feature never ranks behind, and ties iff equal on all of them. |
| CandidateDatasets.BuildCandidateDataset | src/market_regime_alpha/candidates/dataset.py:217-357 | The builder succeeds iff its inputs match and no identity repeats; the dataset has one row per population symbol with every observed or missing cell, and the weakest source decides eligibility. |
| CandidateDatasets.IdentitiesAlongDistinctIff | src/market_regime_alpha/candidates/dataset.py:198-199 | Read in the order of the definitions, materialization identities are distinct iff those supplied are. |
| CandidateDatasets.BuildRow | src/market_regime_alpha/candidates/dataset.py:293-317 | A row carries each feature's cell, missing where nothing was observed, and its target. |
| CandidateDatasets.AssemblePanel | src/market_regime_alpha/candidates/panel.py:41-111 | A panel is assembled iff slices exist, times and slice identities differ and targets and features agree; the slices come in strictly increasing time, as eligible as the weakest. |
| CandidateDatasets.AssemblyIgnoresOrder | src/market_regime_alpha/candidates/panel.py:79-82 | The order in which slices are supplied is irrelevant. |
| CandidateEvaluation.EvaluateSlice | src/market_regime_alpha/candidates/evaluation.py:101-176 | A slice is evaluated iff the ranking belongs to the dataset and preserves its population; counts, coverages, rank IC and means are the specified ones. |
| CandidateEvaluation.CoveragesAreOrdered | src/market_regime_alpha/candidates/evaluation.py:151-166 | Evaluated coverage is at most ranking coverage and target coverage, and all lie in [0, 1]. |
| CandidateEvaluation.RankerOutputIsEvaluable | src/market_regime_alpha/candidates/evaluation.py:109-128 | The exact-population check never rejects what a ranker returned. |
| CandidateEvaluation.EvaluatedTopKIsRecommended | src/market_regime_alpha/candidates/evaluation.py:147-153 | The evaluated Top-K is part of the recommended rank set, and all of it iff no tie straddles the boundary. |
| CandidateEvaluation.OrderRankings | src/market_regime_alpha/candidates/evaluation.py:187-197 | Rankings are accepted iff there is exactly one for every slice and all are of one model; they come out in panel order. |
| CandidateEvaluation.OrderedRankings | src/market_regime_alpha/candidates/evaluation.py:187-194 | Looked up by dataset identity, the rankings in panel order are the same rankings. |
| CandidateEvaluation.EvaluatePanel | src/market_regime_alpha/candidates/evaluation.py:179-221 | A panel is evaluated iff its rankings match and every slice is evaluable; the result summarises the slice evaluations. |
| CandidateEvaluation.PanelCoverageBetween | src/market_regime_alpha/candidates/evaluation.py:203-219 | The ranking coverage of a panel, which pools its populations, lies between those of its slices. |
| DirectionalAccuracy.EvaluateDirectionalSlice | src/market_regime_alpha/candidates/directional_accuracy.py:156-217 | A slice is assessed iff it carries the target of the rule and is evaluable; counts, coverage, lift and reduction are the specified ones. |
| DirectionalAccuracy.RowTargetsAreTargets | src/market_regime_alpha/candidates/directional_accuracy.py:167-172 | Reading targets row by row or symbol by symbol gives the same values. |
| DirectionalAccuracy.CountsPartition | src/market_regime_alpha/candidates/directional_accuracy.py:77-89 | Positive, negative and neutral counts always sum to the observed count. |
| DirectionalAccuracy.CountsAreMonotone | src/market_regime_alpha/candidates/directional_accuracy.py:167-192 | Category by category, Top-K counts are at most ranked counts, and those at most candidate counts. |
| DirectionalAccuracy.LiftAndReduction | src/market_regime_alpha/candidates/directional_accuracy.py:210-217 | Lift and reduction lie in [-1, 1] and differ exactly by the change of the neutral rate. |
| DirectionalAccuracy.EvaluateDirectionalPanel | src/market_regime_alpha/candidates/directional_accuracy.py:220-295 | A panel is assessed iff its target is that of the rule, its rankings match and every slice is evaluable; the result aggregates the slices. |
| DirectionalAccuracy.PooledCounts | src/market_regime_alpha/candidates/directional_accuracy.py:307-313 | Summed slice counts are the counts over all slices' concatenated values. |
| DirectionalAccuracy.PanelPoolsSlices | src/market_regime_alpha/candidates/directional_accuracy.py:246-250 | The pooled counts of a panel are the counts of all its observed targets together, for candidates, ranked and Top-K. |
| DirectionalAccuracy.ComparableIffTopKObserved | src/market_regime_alpha/candidates/directional_accuracy.py:251-256 | A slice is comparable iff something in its Top-K was observed. |
| DirectionalAccuracy.ImprovedFractionMeans | src/market_regime_alpha/candidates/directional_accuracy.py:251-294 | The improved slices are some of the comparable ones, and both counts are those of the slices; the fraction exists iff a slice is comparable, lies in [0, 1], is one iff every comparable slice improved and zero iff none did. |
| PredictionRuns.RankSymbolOrderIff | src/market_regime_alpha/platform/prediction_run.py:142-153 | A valid run is strictly increasing in (rank, symbol) iff its ties are listed by symbol, which its constructor does not ask. |
| PredictionRuns.RankingPublishes | src/market_regime_alpha/platform/prediction_run.py:94-187 | Whatever a ranker scores and rejects passes the run constructor, with ties by symbol. |
| PredictionRuns.PublishRuns | src/market_regime_alpha/platform/candidate_prediction_adapter.py:217-283 | Both daily runs are published iff eligibility, frozen features, definitions, protocols and the choice of both models are right; a choice of one model is admitted and then refused by the two-model slice. What is published is valid and in (rank, symbol) order. |
| Recommendations.ProjectOne | src/market_regime_alpha/daily_decision/recommendation.py:233-293 | A run is projected iff it is in scope; no selected rank can be refused by the constructor. |
| Recommendations.ProjectCandidateRecommendations | src/market_regime_alpha/daily_decision/recommendation.py:210-294 | The projection succeeds under exactly the stated scope, is empty on blocked data, and otherwise lists every run's candidates ranked within Top-K in order. |
| Recommendations.RecommendsTheRankSet | src/market_regime_alpha/daily_decision/recommendation.py:239-243 | A run recommends exactly the symbols ranked at most K. |
| EntryPlumbing.AssessEntryPlumbing | src/market_regime_alpha/daily_decision/entry.py:155-238 | Assessment succeeds iff evidence and lineage match, with one assessment per recommendation in order. |
| EntryPlumbing.AssessOne | src/market_regime_alpha/daily_decision/entry.py:178-237 | The collected blockers decide the state, and the assessment passes its constructor. |
| DecisionBundle.CheckRecommendations | src/market_regime_alpha/daily_decision/artifact.py:189-213 | The loop accepts iff lineage holds and the recommendations strictly increase in (run, rank, symbol). |
| DecisionBundle.OrderedIsDistinct | src/market_regime_alpha/daily_decision/artifact.py:212-213 | Canonical order already implies uniqueness. |
| DecisionBundle.CheckAssessments | src/market_regime_alpha/daily_decision/artifact.py:214-227 | Accepted iff the assessments match the recommendations one to one. |
| DecisionBundle.CheckBundle | src/market_regime_alpha/daily_decision/artifact.py:91-227 | The bundle constructor accepts a bundle iff scope, lineage and the published or blocked rules hold. |
| DecisionBundle.ProjectionIsCanonicalIff | src/market_regime_alpha/daily_decision/artifact.py:200-210 | The projection of valid runs is canonical iff every run lists the ties it projects by symbol. |
| DecisionBundle.PipelineIsAccepted | src/market_regime_alpha/daily_decision/artifact.py:157-227 | Runs in (rank, symbol) order, projected and assessed, always make an accepted bundle. |
| DecisionBundle.TieAgainstSymbolOrderIsRefused | src/market_regime_alpha/platform/prediction_run.py:142-153 | Two tied candidates listed against symbol order pass the run constructor but not the bundle. |
| OutcomeSettlement.CommonPopulation | src/market_regime_alpha/daily_decision/outcome.py:719-745 | Runs share a population iff their sorted symbol sets agree. |
| OutcomeSettlement.CollectEndpoints | src/market_regime_alpha/daily_decision/outcome.py:754-763 | The endpoint loop always succeeds and finds each symbol's 10:30 bar. |
| OutcomeSettlement.EndpointsAreUnique | src/market_regime_alpha/daily_decision/outcome.py:761-762 | The duplicate endpoint check cannot fire on a valid provider result. |
| OutcomeSettlement.EndpointIsArchived | src/market_regime_alpha/daily_decision/outcome.py:779 | The endpoint's source payload is always found. |
| OutcomeSettlement.MakeCompositeBar | src/market_regime_alpha/daily_decision/outcome.py:783-793 | The composite bar constructor accepts every bar the provider constructor accepts. |
| OutcomeSettlement.SettleSymbol | src/market_regime_alpha/daily_decision/outcome.py:764-837 | A candidate settles to close over reference price minus one or to the first obstacle, and passes its constructor. |
| OutcomeSettlement.SettlePopulation | src/market_regime_alpha/daily_decision/outcome.py:764-837 | The loop settles every candidate of the population in order. |
| OutcomeSettlement.SettleRecommendations | src/market_regime_alpha/daily_decision/outcome.py:838-857 | Every recommendation carries the outcome of its symbol in the population; it fails iff a symbol is outside the population. |
| DailyReview.CheckReview | src/market_regime_alpha/daily_decision/outcome.py:335-405 | The review constructor accepts a review iff all its counting identities hold. |
| DailyReview.ReviewIsAccepted | src/market_regime_alpha/daily_decision/outcome.py:876-955 | No check of the constructor can fire on a review built from a decision with valid runs. |
| DailyReview.OverlapAndUnion | src/market_regime_alpha/daily_decision/outcome.py:903-913 | Overlap plus union equals the two models' selections together, and overlap is at most union. |
| DailyReview.BuildDailyReview | src/market_regime_alpha/daily_decision/outcome.py:876-955 | The built review is the specified one and valid. |
| Settlement.CheckSettlement | src/market_regime_alpha/daily_decision/outcome.py:538-580 | The settlement constructor accepts iff order, uniqueness, linkage and review lineage hold. |
| Settlement.SettleOutcomes | src/market_regime_alpha/daily_decision/outcome.py:694-873 | Settlement succeeds iff the decision is published, the session later, the populations agree and every recommended symbol is in the population; the result is the specified one and valid. |
| Settlement.DailyRunsArePublished | src/market_regime_alpha/platform/candidate_prediction_adapter.py:217-283 | Both daily runs of one dataset are valid, distinct and cover exactly its population. |
| Settlement.ProjectedDecisionSettles | src/market_regime_alpha/daily_decision/outcome.py:719-745 | Recommendations projected from runs over one population stay inside it. |
| Settlement.DailyLoopSettles | src/market_regime_alpha/daily_decision/outcome.py:694-745 | Whatever valid runs over one dataset a bundle was made from, it meets every condition of a successful settlement. |
| ReviewJson.ReviewRoundTrip | src/market_regime_alpha/daily_decision/outcome.py:442-518 | Reading a written review returns it. |
| ReviewJson.AcceptedReviewIff | src/market_regime_alpha/daily_decision/outcome.py:448-518 | An accepted review is the published one iff no field was converted: no number from another type or a text, no count from a fraction, no text from another type. |
| ReviewPackage.ArtifactStore.Publish | src/market_regime_alpha/daily_decision/outcome_artifact.py:81-144 | Publishing stages all seven files and adds the package, or changes nothing; it never overwrites. |
| ReviewPackage.LoadInvertsPublish | src/market_regime_alpha/daily_decision/outcome_artifact.py:147-252 | Reading a published package returns the settlement it was printed from. |
| ReviewPackage.EverySettlementReadsBack | src/market_regime_alpha/daily_decision/outcome_artifact.py:147-252 | This holds for every settlement the settlement function builds. |
| ReviewPackage.AcceptedPackageIsReconstructible | src/market_regime_alpha/daily_decision/outcome_artifact.py:230-242 | An accepted package yields a settlement that prints to the same manifest and report, to the same protocol but for how its two flags are written, and that reads back. |
| ReviewPackage.AcceptedPackageIff | src/market_regime_alpha/daily_decision/outcome_artifact.py:147-252 | An accepted package is the published one, file by file, iff no value of its outcome files was converted and both protocol flags are truth values. |
| ReviewPackage.ReflaggedAcceptedIff | src/market_regime_alpha/daily_decision/outcome_artifact.py:176-195 | Other protocol flags under new checksums are accepted iff both equal false, and then read back as the same settlement. |
| ReviewPackage.ZeroPassesForFalse | src/market_regime_alpha/daily_decision/outcome_artifact.py:191-195 | A package whose protocol says zero for false is accepted although it is not the published one. |
| ReviewPackage.LoadVerified | src/market_regime_alpha/daily_decision/outcome_artifact.py:147-252 | The reader verifies checksums, rebuilds the settlement and compares what it prints, in the order and with the errors of the specified reader. |
| DailyLoop.DecideDay | src/market_regime_alpha/application/daily_loop/runner.py:524-580 | Publishing the runs, projecting, assessing and bundling yields a valid decision iff the inputs of the day belong together; no stage refuses what the one before produced. |
| DailyLoop.BundleIff | src/market_regime_alpha/daily_decision/artifact.py:91-227 | On projectable runs the bundle constructor accepts exactly the inputs that belong together. |
| DailyLoop.NextSession | src/market_regime_alpha/application/daily_loop/runner.py:1626-1644 | The next session is the earliest later day with a bar stamped 10:30; there is none iff no bar is. |
| DailyLoop.PublishOrVerify | src/market_regime_alpha/application/daily_loop/runner.py:1647-1662 | A new package is published; a package of that name stays as it is and must read back, or the call fails. |
| DailyLoop.RerunVerifies | src/market_regime_alpha/application/daily_loop/runner.py:1647-1662 | Publishing a second time returns the same result and changes nothing. |
| DailyLoop.SettleDay | src/market_regime_alpha/application/daily_loop/runner.py:674-706 | A decision settles iff the provider has a later 10:30 bar; its package is published or, if one of that name exists, verified. |
| DailyLoop.DaySettlementUnique | src/market_regime_alpha/application/daily_loop/runner.py:690-702 | Inputs, bars and archive determine the settlement of the day. |
| DailyLoop.RunDay | src/market_regime_alpha/application/daily_loop/runner.py:524-706 | With inputs that belong together and a later 10:30 bar, the whole day ends with its one settlement published and reading back, or with the existing package verified; otherwise it fails and publishes nothing. |
| ImportGraph.ResolveName | scripts/repository_inventory.py:211-215 | The loop finds the longest dotted prefix that is a known module, or none. |
| ImportGraph.Dependencies | scripts/repository_inventory.py:203-216 | The users index is exactly the inverse of the dependencies. |
| ImportGraph.Closure | scripts/repository_inventory.py:161-168 | The worklist terminates, duplicates and cycles included, and sees exactly the files reachable from its root. |
| ImportGraph.ConsumerGraph | scripts/repository_inventory.py:159-193 | Every executable root, by installation, entry guard, directory or main function, gets its installed names, direct imports, sorted reachable files and the SQL users and persistence files among them; no other file does. |
| ImportGraph.ClosureIsLeast | scripts/repository_inventory.py:161-168 | The reachable files are the least set holding the root and closed under imports. |
| ImportGraph.ClosuresNest | scripts/repository_inventory.py:161-168 | A file reached brings its whole closure; two files reach each other iff their closures are equal. |
| ImportGraph.ReachesBackwards | scripts/repository_inventory.py:209-216 | An entry point reaches a file iff that file's consumers, followed backwards, lead to the entry point. |
| BarHistory.DateChunks | scripts/fetch_baostock_5min_batch.py:325-335 | The chunk loop terminates and its windows abut, fill the range exactly and have full width but for the last. |
| BarHistory.ChunksPartition | scripts/fetch_baostock_5min_batch.py:325-335 | Each day of the range lies in exactly one window, and no window holds another day. |
| BarHistory.ChunkingIsInvisible | scripts/fetch_baostock_5min_batch.py:299-322 | The concatenated chunk answers are the rows of one query, and dropping duplicates drops nothing. |
| BarHistory.QuerySymbol | scripts/fetch_baostock_5min_batch.py:290-322 | The query succeeds iff every window answers, with the rows of the whole range in time order. |
| BarHistory.NormalizedQuery | src/market_regime_alpha/data_sources/a_share_bars.py:1040-1055 | Normalising a query yields exactly its usable bars in time order. |
| BarHistory.MergeIsOverride | scripts/fetch_baostock_5min_batch.py:417-421 | The merge keeps one bar per timestamp, the incoming one where both have it, in time order. |
| IncrementalRefresh.FetchSymbol | scripts/fetch_baostock_5min_batch.py:231-287 | One fetch skips, fails without touching the file, or stores exactly the specified bars. |
| RefreshExactness.RefreshIsRefetchIff | scripts/fetch_baostock_5min_batch.py:255-275 | Whatever the file holds and the provider serves, refreshing gives the refetched bars iff the file starts in time, every bar it keeps is still served as it is, and no served bar of a day before the restart day is missing. |
| RefreshExactness.RefreshOfServedIff | scripts/fetch_baostock_5min_batch.py:255-275 | If every stored bar is still served unchanged, this is: the file lies in the range and has no hole before the restart day. |
| RefreshExactness.ExactPrefixRefreshIff | scripts/fetch_baostock_5min_batch.py:255-275 | For a file without a hole: it does not reach past the end date and no bar after the close of its last stored day is lost. |
| RefreshExactness.RefetchStaysRefetchIff | scripts/fetch_baostock_5min_batch.py:255-275 | A refetched file, refreshed later, is the refetch again iff the provider changed no day before the restart day and withdrew no bar since. |
| RefreshExactness.RefreshStoresTheRefetchIff | scripts/fetch_baostock_5min_batch.py:255-287 | The same condition decides whether a refresh that answers, by storing or by skipping, leaves the file a full query would have written. |
| RefreshExactness.NothingIsLate | scripts/fetch_baostock_5min_batch.py:407-414 | If no bar is stamped after 15:00:00, no late bar is ever lost. |
| RefreshExactness.HoleIsNotFilled | scripts/fetch_baostock_5min_batch.py:407-414 | A concrete day stored to its close without one bar that is served now: nothing was withdrawn, corrected or late, yet the refresh leaves the hole. |
| RefreshExactness.LateBarIsLost | scripts/fetch_baostock_5min_batch.py:407-414 | A concrete day stored to its close whose later bar a refresh loses. |
| RefreshRuns.EveryBarWasServed | scripts/fetch_baostock_5min_batch.py:231-287 | Over any attempts against any provider, a stored bar was stored before or served as it is by some attempt, and the file stays in time order with one bar per timestamp. |
| RefreshRuns.PastIsFrozen | scripts/fetch_baostock_5min_batch.py:255-275 | However often a file is refreshed and whatever is back-filled or corrected, the days before its last day never change. |
| RefreshRuns.AttemptKeepsWholeIff | scripts/fetch_baostock_5min_batch.py:231-287 | An attempt on a file equal to the last refetch leaves it equal to the new one iff the provider changed nothing where the attempt does not look. |
| RefreshRuns.SteadyRunStaysWhole | scripts/fetch_baostock_5min_batch.py:231-287 | Over any run of such attempts the file equals the refetch of the last answer. |
| RefreshRuns.EveryRunKeepsExact | scripts/fetch_baostock_5min_batch.py:231-287 | Against a history that only grows, over any failing, skipping, refreshing or rewriting attempts the file never has a gap or a wrong bar. |
| FetchLoop.LoadCheckpoint | scripts/fetch_baostock_5min_batch.py:424-438 | The loop keeps the last row of every symbol. |
| FetchLoop.LastRowWins | scripts/fetch_baostock_5min_batch.py:424-438 | A symbol has a row iff it was logged, and the row is the last one logged. |
| FetchLoop.Fetcher.EnsureLogin | scripts/fetch_baostock_5min_batch.py:142-156 | A login is attempted only without a session, and the session is active iff the call succeeds. |
| FetchLoop.Fetcher.FetchNow | scripts/fetch_baostock_5min_batch.py:186-212 | A symbol is fetched only with an active session; the counters, log and files change as specified. |
| FetchLoop.Fetcher.Process | scripts/fetch_baostock_5min_batch.py:165-226 | One iteration skips, resumes, fetches or fails exactly as specified. |
| FetchLoop.Fetcher.Run | scripts/fetch_baostock_5min_batch.py:164-228 | The batch runs the specified steps until done or aborted, resets the session and returns the exit code. |
| FetchLoopLaws.EveryBatch | scripts/fetch_baostock_5min_batch.py:164-228 | Success, skipped and failed add up to the processed symbols; the loop stops at the first moment the last N attempts have all failed and aborts exactly then; no session stays active; exit code 0 iff nothing failed. |
| FetchLoopLaws.TrailingMeans | scripts/fetch_baostock_5min_batch.py:216-224 | The consecutive counter reaches N iff the last N attempted symbols failed, skips before an attempt not counting. |
| FetchLoopLaws.RerunRetriesWhatIsMissing | scripts/fetch_baostock_5min_batch.py:167-178 | A repeated full download leaves alone exactly what was stored before and retries everything else it reaches. |
| FetchLoopLaws.EveryStoredBarWasServed | scripts/fetch_baostock_5min_batch.py:164-228 | Over any series of batches and any providers, a stored bar was stored for its symbol before or served as it is by a provider of that symbol. |
| FetchLoopLaws.EverySeriesKeepsFilesExact | scripts/fetch_baostock_5min_batch.py:164-228 | Against histories that only grow, over any series of batches no stored file ever has a gap or a wrong bar. |
| BoundarySelection.FractionalOnlyAtBoundary | src/market_regime_alpha/research/cross_sectional_ranking.py:149-171 | Consequence of the definitions: all fractional weights belong to one tie group. |
| EntryPlumbing.GateFailsClosed | src/market_regime_alpha/daily_decision/entry.py:192-224 | Consequence of the definitions: waiting needs every piece of evidence; a missing price is always also reported as insufficient candidate quality. |
| ReviewJson.PopulationRoundTrip | src/market_regime_alpha/daily_decision/outcome.py:137-196 | Consequence of the definitions: reading a written population outcome returns it. |
| ReviewJson.RecommendationRoundTrip | src/market_regime_alpha/daily_decision/outcome.py:259-310 | Consequence of the definitions: reading a written recommendation outcome returns it. |
| ReviewJson.AcceptedObservationIff | src/market_regime_alpha/daily_decision/outcome.py:145-196 | Consequence of the definitions: an accepted observation is the published one iff no field was converted: no number from an integer, a truth value or a text, no text from another type, no instant spelled otherwise. |
| ReviewJson.AcceptedRecommendationIff | src/market_regime_alpha/daily_decision/outcome.py:265-310 | Consequence of the definitions: an accepted recommendation outcome is the published one iff no field was converted. |
| ReviewPackage.TamperedPackagesAreRefused | src/market_regime_alpha/daily_decision/outcome_artifact.py:297-311 | Consequence of the definitions: another name, or a changed file with its old checksum, is refused. |
| DailyLoop.NameDecides | src/market_regime_alpha/application/daily_loop/runner.py:1657-1662 | Consequence of the definitions: a package that loads under the name of a settlement loads as that settlement, so the comparison after loading never fails. |
| FetchLoopLaws.CheckpointSkipNeedsForce | scripts/fetch_baostock_5min_batch.py:167-184 | Consequence of the definitions: a checkpoint can only add a skip to a forced run. |
| FetchLoopLaws.ForcedSkipIsForgotten | scripts/fetch_baostock_5min_batch.py:179-184 | Consequence of the definitions: a checkpoint skip replaces the row it relied on, so the next forced run fetches the symbol. |

## Left out

- Floating point, `Decimal` precision and rounding: every number is an exact real; the square root of the correlations is a parameter assumed exact on positive numbers, and the projection of exact percentiles to decimals is the identity.
- CandidateDatasets.BuildCandidateDataset: takes the dataset identity as a parameter, since the hash it is computed from is not modelled; a row's cells are a map by feature, so their order within the row is not represented; the population is already sorted.
- ReviewPackage.LoadInvertsPublish: the reader works on JSON values, not on text, so white space, key order and line endings of a file are not represented; where a text is expected, a value of another type is modelled by the text the code converts it to, and identities and reasons that no content of the model has are not represented.
- The status and distinct count reported beside percentiles, and the fixed-denominator composite of `research/cross_sectional_ranking.py`: no modelled caller reads them.
- Text hygiene (trimming, non-empty strings, upper-casing) and type tests of the constructors: types and integers make them vacuous.
- Versioned references and evidence identities of factors, contexts, targets and models; experiment identity, code revision, configuration and specification hashes that travel with a run.
- Risk conditions of a policy record are kept as numbers by context, not as rendered text; observed times of target cells are omitted.
- Runtime lineages and the governance that selects the daily models; names, versions and families of model definitions.
- Fixed reason texts, horizon and selection policy of a recommendation, and its single score component, which trivially sums to the score.
- Universe, eligibility and feature evidence of a bundle beyond the identities its checks compare; the bundle's own file package.
- Time zones: times are local; ISO formatting and parsing of instants.
- In the review package, the report shows exact numbers instead of rounded ones, and the settlement's decision identity and decision hash, equal in content, are one field.
- Staging directories, atomic renames and file removal: a package appears as a whole or not at all.
- The bar provider is a fixed map with an arbitrary set of failing windows; timeouts, sleeps, reading row by row and rows repeated inside one answer are omitted. Stored files hold the bars exactly as written.
- Argument parsing, symbol collection, credentials, printing and the failures file of the fetcher; a logout always ends the session, as the code treats it.
- Parsing of Python files, relative imports and SQL scanning are inputs of the import graph; the table of dispositions is not represented.
- The daily loop's persistence of its stages, its statuses and the artifacts of the single runs and of the decision: `DailyLoop` composes the stages as the runner does when each is computed anew, and keeps only the review packages from one run to the next.
- PostgreSQL wiring, command-line composition, notifications, backups, historical tools and branch reconciliation: composition and effects around code that is not part of this model.
- Authority catalogues, report prose and legacy daily research contracts: they would only add easy members.
