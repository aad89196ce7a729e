# TacoRank: ranking evaluation, release gate, factorization machine and review loop

TacoRank judges recommender patches by how they order the items of each user. This project models
the code those judgements rest on and proves what it is meant to guarantee.

**The evaluation kernel** (`Counting`, `Ranks`, `PairwiseAuc`, `DiscountedGain`, `Evaluation`,
`EvaluationMeaning`, `Contract`). The tie-group loops are methods over lists of ranks; they are proved to
write the mid-rank of every value, and the rank-sum AUC built on them to be the Mann-Whitney pair count, for rows in any order.
nDCG is taken over any positive, strictly increasing discounts; the descending label sort is proved
to be its maximum. Every figure is stated once more in terms of the evaluated rows alone: numbers of rows,
of index pairs and of places. Whatever is predicted, the evaluator's output meets the KuaiRand metric contract.

**What the metrics respond to** (`RankChange`, `OrderResponse`, `OrderIdentified`). The measure of
reordered within-user pairs bounds the movement of GAUC from above. At tolerance 0 it vanishes
exactly when no choice of labels lets GAUC, or any metric, tell the two models apart.

**Decompositions** (`Slices`, `Cohorts`, `Attribution`, `Proxy`, `Concentration`, `Slope`). Cohort slices and
validation arms recombine to the population's metrics exactly, whatever the cohorts. A user's entry
in the delta vector is the change of the primary metric if the candidate's scores were adopted for
that user alone, and the entries add up to the whole change. The concentration of a gain is the best
share any subset of its size can carry. The slope is that of the one line of least squared error.

**The Ladder** (`Stability`, `Rounding`). A class with the three fields the source updates, proved
against a state function; the guarantees are about whole runs of submissions.

**Factorization machine and encoder** (`Vectors`, `FactorizationMachine`, `Gradients`, `Features`).
The linear-time interaction is the sum over field pairs; the hand-written gradient is exact, with no
higher-order term, for the rows the encoder produces, because their indices never repeat.

**The review loop** (`ReviewDocument`, `SolutionVerifier`, `ReviewLoop`, `ReviewDeadline`). The loop of
coding pass, captured diff and review is run against an arbitrary script of what the coding agent, Git,
the reviewing model and the clock do. Every run keeps its history, its token totals and its times, and
every way of stopping has its cause. `ReviewDeadline` says how late a run can end, and when it does not.

**Digests** (`Digest`). The length-prefixed byte streams behind the row and prediction digests can be
read back in only one way.

Numbers are exact reals. `Sums`, `Sorting`, `Reals` and `Results` hold the shared mathematics.

## Where the code and its text differ

- `no_op.py` calls the within-user pair measure the only quantity GAUC and nDCG respond to
  (lines 106-108). That is true of the measure at tolerance 0 (`OnlyReorderingMatters`). At the
  default tolerance of 1e-12 a zero measure means no movement exactly when the pairs it regarded as
  tied are in the same order in both models (`ToleranceCondition`); two rows half a tolerance apart,
  exchanged, go unnoticed (`ToleranceHidesReordering`).
- `solution_verifier.py` retries when a document does not validate, but validation of some documents
  breaks with a `TypeError` that nothing catches: those in the shape of a review whose findings reach one
  that is in order up to a list or an object as its severity (`ValidationFaults`; `SomeDocumentFaults` has
  one). Such an answer, in time, is neither retried nor reported (`FaultIff`, `SomeAnswerFaults`), and the
  review loop ends in that exception exactly then, with no token totals (`ProduceCandidate`).
- Branches proved dead: the zero denominator of `_linear_slope` for two or more values, the for-else and
  the check after the loop in `trae_adapter.py` (lines 937-945), and three guards of
  `build_solution_revision_prompt` when called from that loop: the rejected verdict, the non-empty
  required changes and the attempt range (`prompts.py`, lines 385-396).
- `max(1, ...)` and `math.ceil` let a step be given more than is left: a pass or a review exactly when
  less than a second is left (`LimitFits`), a provider call exactly when no whole number of seconds is
  (`CallFits`). So a run that keeps every limit need not end by its deadline. It ends less than two
  seconds past it (`RunEndsInTime`), no smaller bound holds (`LateRun`), and with passes and calls of whole
  seconds it does end in time (`WholeSecondsMeetDeadline`).

## Model

| member | source | states |
|---|---|---|
| Ranks.FillAverageRanks | src/tacorank/evaluation/no_op.py:140-152 | The loop over tie groups writes, at every row's own index, the mid-rank of its value: the number of smaller values plus half of one more than the number of equal ones, counted from the given first rank |
| Ranks.AverageRanks | src/tacorank/evaluation/no_op.py:140-152 | In the caller's order, a rank is the number of smaller values plus half of one more than the number of equal ones, counted as places |
| Ranks.TieGroupRank | src/tacorank/evaluation/no_op.py:144-151 | Half the sum of a tie group's first and last place, plus one, is the mid-rank of its value |
| Ranks.MidRankOrder | src/tacorank/evaluation/no_op.py:140-152 | Ranks order exactly as the values do, ties included |
| Ranks.MidRankRange | src/tacorank/evaluation/no_op.py:140-152 | Every rank lies between 1 and n |
| Ranks.RanksSum | src/tacorank/evaluation/no_op.py:140-152 | The ranks of n values sum to n(n+1)/2, however they tie |
| Ranks.SpearmanRange | src/tacorank/evaluation/no_op.py:120-137 | The correlation exists for aligned non-empty vectors and lies in [-1, 1] (Cauchy-Schwarz on the ranks) |
| Ranks.SpearmanIsOne | src/tacorank/evaluation/no_op.py:120-137 | The correlation is 1 if and only if the vectors order every two rows alike, ties included; where all values of one tie, only if they are equal |
| Ranks.SpearmanMeans | src/tacorank/evaluation/no_op.py:120-137 | The result times the norms is the product sum of the rank deviations from (n + 1)/2, the squared norms are their square sums, and when all values of a vector tie it is 1 for equal vectors and 0 otherwise |
| Ranks.NormalizedAverageRanks | src/tacorank/evaluation/final_selection.py:65-78 | Times n - 1, the zero-based rank of a row counts the smaller values and half of the other equal ones; a single row has 0 |
| Ranks.RankAverage | src/tacorank/evaluation/final_selection.py:40-50 | Succeeds exactly on a non-empty list of non-empty, equally long vectors; then each result times their number is the sum of the row's normalized ranks |
| Ranks.RankAverageRange | src/tacorank/evaluation/final_selection.py:40-50 | Averaged ranks lie in [0, 1] |
| Ranks.RankAverageOrder | src/tacorank/evaluation/final_selection.py:40-50 | An order no vector contradicts survives averaging, and becomes a tie only if it is a tie in every vector |
| Ranks.RankAverageSum | src/tacorank/evaluation/final_selection.py:40-50 | For two or more rows the averaged ranks sum to n/2 |
| PairwiseAuc.SortedRanks | src/tacorank/evaluation/metrics.py:38-48 | The nested loops over sorted pairs leave at every position the mid-rank of its score |
| PairwiseAuc.Auc | src/tacorank/evaluation/metrics.py:33-58 | Refuses unequal lengths and labels outside {0, 1}; otherwise the result times P times N is the number of index pairs of a positive and a negative row in the right order plus half the tied ones, and 0.5 without rows of both labels |
| PairwiseAuc.RankSumCountsPairs | src/tacorank/evaluation/metrics.py:53-58 | The rank sum of the P positives is P(P+1)/2 plus the (positive, negative) pairs in the right order, ties counting half |
| PairwiseAuc.WinsAreCounts | src/tacorank/evaluation/metrics.py:53-58 | The statistic's numerator and its two factors are numbers of index pairs and of rows |
| PairwiseAuc.MannWhitneyPermutation | src/tacorank/evaluation/metrics.py:33-58 | The statistic does not depend on the order of the rows |
| PairwiseAuc.MannWhitneyRange | src/tacorank/evaluation/metrics.py:33-58 | AUC lies in [0, 1] |
| DiscountedGain.DcgBound | src/tacorank/evaluation/metrics.py:61-75 | No arrangement of a number of positives has more DCG than positives first, and only that arrangement reaches it |
| DiscountedGain.SortMaximisesDcg | src/tacorank/evaluation/metrics.py:70-75 | Among all permutations of the labels, the descending sort has the largest DCG at every cutoff |
| DiscountedGain.NdcgRange | src/tacorank/evaluation/metrics.py:61-75 | nDCG lies in [0, 1], and is 1 exactly when there is a positive and the first min(k, positives) labels are all positive |
| DiscountedGain.NdcgMeans | src/tacorank/evaluation/metrics.py:61-75 | nDCG times the sum of 1/discount over the first min(k, positives) places is the sum of 1/discount over the positives among the first k places; without positives it is 0 |
| Evaluation.GroupRows | src/tacorank/evaluation/metrics.py:87-92 | The dict filled row by row holds, in order of first appearance, every user and exactly that user's rows in order |
| Evaluation.RankedIff | src/tacorank/evaluation/metrics.py:97-99 | An arrangement of a user's rows is the one nDCG is read from if and only if no later row has a larger score and tied rows keep their input order |
| Evaluation.ScoreUser | src/tacorank/evaluation/metrics.py:97-106 | One user's rows sorted by score give the Mann-Whitney AUC (only with both classes present) and the nDCG of the ranked labels |
| Evaluation.AggregateGroups | src/tacorank/evaluation/metrics.py:94-116 | The accumulating loop gives the positive-weighted mean AUC of mixed users (0.5 if there is none) and the mean nDCG of all users |
| Evaluation.EvaluateIndependent | src/tacorank/evaluation/metrics.py:78-116 | Refuses misaligned, empty or non-binary input and a cutoff below 1; otherwise returns the aggregate of the per-user metrics |
| Evaluation.TimesDenominator | src/tacorank/evaluation/metrics.py:108-116 | Each average times its own denominator is its total, also when that denominator is 0 and the default 0.5 is returned |
| EvaluationMeaning.UserMetricMeans | src/tacorank/evaluation/metrics.py:97-106 | A user's positives, impressions and AUC are numbers of its rows and of its row pairs, and its nDCG is that of the ranking |
| EvaluationMeaning.TotalWeight | src/tacorank/evaluation/metrics.py:100-104 | GAUC's total weight is the number of rows labelled 1 whose user also has a row labelled 0 |
| EvaluationMeaning.EvaluationMeans | src/tacorank/evaluation/metrics.py:94-116 | GAUC times that number is the sum over users of the pairs each wins, ties counting half, per negative row of theirs, and 0.5 where it is 0; nDCG times the number of users is the sum of theirs; primary is the mean of both |
| Contract.KuaiRandAccepts | src/tacorank/evaluation/metrics.py:152-194 | With the KuaiRand parameters the check passes exactly for the two metrics, both in [0, 1], and a primary within the tolerance of their mean, besides the two optional counts |
| Contract.EvaluationMeetsContract | benchmarks/kuairand_pure/evaluator_adapter.py:20-27 | Whatever the labelled rows and scores, the evaluator's output at k = 5 passes the contract and comes back unchanged |
| RankChange.GroupIndices | src/tacorank/evaluation/no_op.py:67-69 | The index lists locate, in order, exactly the rows of each user |
| RankChange.CountGroup | src/tacorank/evaluation/no_op.py:75-85 | The two inner loops count, over unordered pairs of one group, the pairs some model prefers and among them those ordered differently |
| RankChange.CountGroups | src/tacorank/evaluation/no_op.py:70-85 | Over all users the two counts are the sums of the groups' counts, users with one row adding none |
| RankChange.TotalsAreCounts | src/tacorank/evaluation/no_op.py:70-85 | The two totals are the sizes of those sets of index pairs |
| RankChange.WithinUserRankChange | src/tacorank/evaluation/no_op.py:51-86 | Refuses unequal lengths; otherwise, among the index pairs of one user with a gap above the tolerance in some model, the fraction whose two gaps fall on different sides, and None when there is no such pair |
| RankChange.ZeroOrNone | src/tacorank/evaluation/no_op.py:79-86 | A changed pair is always a compared one; the fraction is 0 or None exactly when no pair changed |
| RankChange.NoChangeIsSameOrder | src/tacorank/evaluation/no_op.py:51-94 | No pair changed exactly when both models put every two rows of a user in the same order up to the tolerance |
| OrderResponse.ReorderingBoundsGauc | src/tacorank/evaluation/no_op.py:67-86 | The movement of GAUC times the total positive weight is at most the number of within-user pairs that changed at tolerance 0 |
| OrderResponse.NoReorderingNoMovement | src/tacorank/evaluation/no_op.py:106-111 | If no within-user pair changed at tolerance 0, every metric is exactly equal for candidate and parent |
| OrderIdentified.OneHotGauc | src/tacorank/evaluation/metrics.py:94-108 | With a single positive row, GAUC is that row's normalized rank among its user's rows |
| OrderIdentified.OnlyReorderingMatters | src/tacorank/evaluation/no_op.py:106-108 | The measure at tolerance 0 vanishes if and only if GAUC agrees under every labelling, if and only if all metrics do |
| OrderIdentified.RescalingIsInvisible | solution/candidate.py:14-17 | Any change of scores that keeps each user's order leaves every metric unchanged |
| OrderIdentified.UserConstantIsInvisible | solution/candidate.py:15-17 | A term constant inside each user's list cannot move any metric, however large it is |
| OrderIdentified.ToleranceCondition | src/tacorank/evaluation/no_op.py:51-56 | When the measure vanishes at a tolerance, GAUC is blind to the change if and only if the pairs regarded as tied are in the same order in both models |
| OrderIdentified.ToleranceHidesReordering | src/tacorank/evaluation/no_op.py:89-94 | For every positive tolerance, two rows half of it apart and exchanged leave the measure at 0 while some labelling moves GAUC |
| Slices.ComputeUserMetrics | src/tacorank/evaluation/slices.py:48-80 | Refuses misaligned, empty or non-binary input and a cutoff below 1; otherwise lists the metrics the evaluator aggregates, in order of first appearance |
| Slices.ComputeSlices | src/tacorank/evaluation/slices.py:83-108 | Every user falls in one slice, slices come in order of first appearance, each with its members' own denominators |
| Slices.SliceTotals | src/tacorank/evaluation/slices.py:131-144 | The four totals taken over slices equal those taken over users, slices of zero weight included |
| Slices.ReconstructionIsExact | src/tacorank/evaluation/slices.py:131-144 | For any bucket function the slices of a population rebuild exactly the metrics of evaluating it whole |
| Cohorts.SliceIsEvaluation | src/tacorank/evaluation/slices.py:83-108 | A slice reports what evaluating the rows of its users alone would, and its weight is their number of positive rows beside a negative row of the same user |
| Attribution.DeltaVector | src/tacorank/evaluation/slices.py:147-174 | Refuses what `user_metrics` refuses; otherwise one entry per user in order of appearance, and the entries sum to the change of the primary metric |
| Attribution.DeltasSumToPrimary | src/tacorank/evaluation/slices.py:147-174 | The contributions add up to primary(candidate) - primary(parent), with or without users of both classes |
| Attribution.ContributionIsSoloEffect | src/tacorank/evaluation/slices.py:154-174 | Each entry is the change of the primary metric if the candidate's scores replaced the parent's for that user alone |
| Concentration.ShareIsMaximal | src/tacorank/evaluation/slices.py:192-201 | The result times all movement is the largest movement any subset of the chosen size carries, and some subset carries it |
| Concentration.CountRange | src/tacorank/evaluation/slices.py:200-200 | The chosen size is the least positive integer not below n times the fraction, and at most n |
| Concentration.ShareRange | src/tacorank/evaluation/slices.py:192-201 | The share lies in [0, 1] and is at least count/n when anything moved |
| Concentration.ShareMonotone | src/tacorank/evaluation/slices.py:192-201 | A larger fraction never has a smaller share |
| Concentration.SharePermutation | src/tacorank/evaluation/slices.py:192-201 | The order of the deltas does not matter |
| Slope.DenominatorClosed | src/tacorank/evaluation/diagnostics.py:357-371 | Twelve times the denominator is n(n^2 - 1), so from two values on it is positive, its zero branch is dead and the guard changes nothing |
| Slope.AffineSlope | src/tacorank/evaluation/slices.py:315-322 | The sequence a + b i has slope exactly b |
| Slope.RisingSlope | src/tacorank/evaluation/diagnostics.py:357-371 | A sequence that never falls has a slope of at least 0, and of 0 only if it is constant |
| Slope.LeastSquares | src/tacorank/evaluation/diagnostics.py:357-371 | The line of that slope through the point of means has the least total squared error of all lines, and is the only one that has |
| Proxy.SplitValidationIndices | src/tacorank/evaluation/proxy.py:8-25 | Refuses ratios outside (0, 1); otherwise the cached loop sends each row where the hash rule alone sends its user |
| Proxy.InAIff | src/tacorank/evaluation/proxy.py:16-24 | The hash rule: arm A is the users whose hash modulo 10000 is below an integer nearest to 10000 times the ratio, the even one of two |
| Proxy.SplitPartitions | src/tacorank/evaluation/proxy.py:21-25 | The two lists are strictly increasing, every row is in exactly one, and no user is in both |
| Proxy.PlacesAreArm | src/tacorank/evaluation/diagnostics.py:274-288 | Picking the listed rows is keeping the rows of the arm's users, in order |
| Proxy.ArmMetrics | src/tacorank/evaluation/diagnostics.py:274-288 | An arm's per-user metrics are the population's metrics of its users |
| Proxy.ArmsRecombine | src/tacorank/evaluation/metrics.py:94-116 | Weights, user counts and totals of the arms add up to the population's, an empty arm included |
| Proxy.ArmsCombine | src/tacorank/evaluation/metrics.py:108-116 | GAUC and nDCG of the population are the arms' combined by positive weight and by user count, with the defaults 0.5 and 0 where there is nothing to combine |
| Proxy.ArmDeltasRecombine | src/tacorank/evaluation/diagnostics.py:274-324 | A candidate's change in each metric is the arms' changes combined by denominators that do not depend on the model, and the change of primary is half the sum of the two |
| Rounding.RoundNearest | src/tacorank/evaluation/stability.py:84-86 | Rounding gives a nearest integer, and the even one when two are nearest |
| Stability.Ladder.constructor | src/tacorank/evaluation/stability.py:59-62 | A new gate has no best, no report and no queries |
| Stability.Ladder.Create | src/tacorank/evaluation/stability.py:49-62 | Refuses a row count below 1; otherwise a fresh gate with the given precision, floor and quantization |
| Stability.Ladder.Submit | src/tacorank/evaluation/stability.py:76-99 | Refuses an empty submission without leaving a trace; otherwise the whole new state and every field of the result, the gate opening for the first submission and for a mean above the best plus its threshold |
| Stability.RunIs | src/tacorank/evaluation/stability.py:76-99 | Over any run every submission with scores is counted, released or not; the first of them is released; and the best is the mean of the last one released |
| Stability.BestNeverDecreases | src/tacorank/evaluation/stability.py:76-88 | From any point of a run to a later one, neither the true best nor the report decreases |
| Stability.ReportError | src/tacorank/evaluation/stability.py:83-88 | The report is the multiple of the precision nearest to the true best, the even one of two, hence within half a step; not quantized it is the true best |
| Stability.AcceptsIff | src/tacorank/evaluation/stability.py:11-28 | After the first submission the gate opens exactly when the mean exceeds the best by more than the floor and, with several seeds, the squared excess times n(n - 1) exceeds four times their scatter |
| Stability.NothingBetterWasRefused | src/tacorank/evaluation/stability.py:78-82 | Every past mean is at most the current best plus that submission's own threshold |
| Stability.ReleaseBound | src/tacorank/evaluation/stability.py:76-88 | With all means in [lo, hi], k releases satisfy (k - 1) times the floor <= hi - lo, however many submissions were made |
| Stability.ReplayAccepted | src/tacorank/evaluation/stability.py:76-99 | Replaying only the accepted submissions accepts them all and ends with the same best and report |
| FactorizationMachine.InteractionIsPairwise | solution/model.py:49-53 | Half the square of the sum less the sum of squares is the sum of inner products over all pairs of fields |
| FactorizationMachine.LogitIsSecondOrder | solution/model.py:46-54 | A row's logit is the bias, plus the weights of its indices, plus the inner products, coordinate by coordinate, of all pairs of its fields |
| FactorizationMachine.LogitMove | solution/model.py:77-81 | Moving the embedding of an index by h moves a row's logit by h . (sum - v) for each occurrence, plus a stated remainder for repeats |
| FactorizationMachine.ExactIffNotRepeated | solution/model.py:77-81 | The hand-written factor predicts the move of the logit exactly, for every h, if and only if the index occurs at most once in the row |
| FactorizationMachine.Predict | solution/model.py:105-120 | Refuses a batch size below 1; otherwise the i-th score is that sum for the i-th row, whatever the batch size |
| Gradients.ScatterRow | solution/model.py:77-81 | Adding one row's terms field by field leaves at every index one pull per occurrence and touches no other index |
| Gradients.ScatterFactors | solution/model.py:77-81 | After all rows the table holds, at every index, what the batch's rows collect there |
| Gradients.ScatterWeights | solution/model.py:76-76 | Likewise for the linear weights |
| Gradients.PointwiseGradients | solution/model.py:59-83 | Refuses empty or misaligned batches; otherwise the gradients of factors, weights and bias, scaled by the batch size, with the l2 terms |
| Gradients.FactorGradientIsExact | solution/model.py:73-83 | On rows that never repeat an index, the collected factor gradient dotted with any move of its embedding is the exact residual-weighted change of the batch's logits |
| Gradients.WeightGradientIsExact | solution/model.py:76-83 | The same for a move of one linear weight, on any rows |
| Gradients.BiasGradientIsExact | solution/model.py:97-97 | The same for the bias |
| Features.EdgesSorted | solution/features.py:133-136 | The fitted quantile edges never fall |
| Features.EdgeInterpolates | solution/features.py:133-136 | Edge i of b - 1 stands at place i(n - 1)/b of the ascending durations: at the element of the whole part and by the remainder over b of the way to the next |
| Features.BucketMonotone | solution/features.py:181-183 | The duration bucket never falls as the duration grows |
| Features.BucketPlace | solution/features.py:181-183 | On fitted edges the bucket separates the edges below the duration from those that are not |
| Features.GrowVocabularies | solution/features.py:137-142 | The row-by-row loop numbers each field's values in order of first appearance |
| Features.Layout | solution/features.py:143-153 | Unknown ids, running offsets and dimension are those of the vocabularies with one more place each |
| Features.Fit | solution/features.py:123-153 | Refuses no rows and fewer than two buckets; otherwise a fitted encoder with the quantile edges |
| Features.Transform | solution/features.py:155-165 | The preallocated table ends with every row's code in every field, unknown values included |
| Features.VocabularyIsBijection | solution/features.py:137-142 | A fitted vocabulary is one-to-one from the values seen onto 0 .. len - 1 |
| Features.CodeInRange | solution/features.py:143-165 | Every code falls in its own field's stretch of indices, and the stretches tile 0 .. dimension - 1 |
| Features.CodesDistinct | solution/features.py:155-165 | The codes of a row are pairwise distinct, whatever the row |
| Features.SameCode | solution/features.py:155-165 | Two rows share a field's code exactly when their raw values are equal or both unseen in training |
| Features.CodesIdentify | solution/features.py:155-183 | For training rows the five codes agree exactly when user, video, author, tab and duration bucket do, in this order |
| Features.CodeOfNewValue | solution/features.py:137-165 | A row whose value is new to its field gets the field's offset plus the number of different values before it |
| Features.StretchIs | solution/features.py:143-153 | A field's stretch has one place for each value of its column and a last one for all others, and the stretches follow one another from 0 to the dimension |
| Features.SameBucketText | solution/features.py:181-183 | The text of the duration field is equal exactly when the bucket is |
| Features.UnknownIffUnseen | solution/features.py:155-165 | A row encodes to a field's unknown code exactly when no training row has its value; training rows never do |
| Features.EncodedGradientIsExact | solution/features.py:155-165 | So for any rows the fitted encoder encodes, the factor gradient is the exact weighted change of the logits |
| Digest.OrderedStream | src/tacorank/evaluation/adapter.py:776-833 | Refuses an empty list and row ids other than 0, 1, 2, ...; a record too long for eight bytes overflows; otherwise the digest is fed the framing of the records in order |
| Digest.ByteAt | src/tacorank/evaluation/adapter.py:791-792 | The eight length bytes are the base-256 digits of the length, most significant first |
| Digest.ParseFramed | src/tacorank/evaluation/adapter.py:785-793 | Reading the framing of any records back returns them |
| Digest.FramedParse | src/tacorank/evaluation/adapter.py:785-793 | A stream that can be read back is the framing of what is read |
| Digest.FramingIsInjective | src/tacorank/evaluation/adapter.py:785-793 | Equal streams come from equal lists of records |
| Digest.StreamIdentifiesRecords | src/tacorank/evaluation/adapter.py:785-793 | Streams are equal exactly when the records are, one by one |
| Digest.StreamIdentifiesRows | src/tacorank/evaluation/adapter.py:796-821 | If the encoder tells the rows of the two lists apart, the streams are equal exactly when the lists are, order included |
| Digest.ConfusedRowsCollide | src/tacorank/evaluation/adapter.py:796-821 | That is needed: two rows have the same stream exactly when the encoder does not tell them apart |
| ReviewDocument.ReviewsAreCoherent | src/tacorank/coding/solution_verifier.py:389-415 | A validated acceptance asks for nothing and has no error; a validated rejection names an error and a change; both are bounded |
| ReviewDocument.NormalizeIdempotent | src/tacorank/coding/solution_verifier.py:418-454 | Normalizing twice is normalizing once, and leaves a document of the strict schema alone |
| ReviewDocument.NormalizeAddsNothing | src/tacorank/coding/solution_verifier.py:418-454 | Everything but the redundant marker is kept; the one thing ever added is the empty list of an acceptance |
| ReviewDocument.VerdictIsTheDocuments | src/tacorank/coding/solution_verifier.py:389-454 | The verdict is the one the document states, and a rejection keeps all its required changes |
| ReviewDocument.NormalizeDrops | src/tacorank/coding/solution_verifier.py:418-454 | The marker goes exactly when it agrees with the list of changes, and an acceptance with findings may leave that list out |
| ReviewDocument.FindingIff | src/tacorank/coding/solution_verifier.py:457-484 | A finding is valid exactly when the document's four texts meet the schema; it is an error exactly when the text says "error", and its texts are the trimmed ones |
| ReviewDocument.RelativePathIff | src/tacorank/coding/solution_verifier.py:474-476 | A path passes exactly when it is not absolute, has no backslash and no segment that is two dots |
| ReviewDocument.ValidIff | src/tacorank/coding/solution_verifier.py:389-415 | A document validates exactly when, normalized, it is a well-formed review, an acceptance stating no error and no change, or a rejection stating both; what comes back says what the document says, text by text |
| ReviewDocument.FaultWhenReached | src/tacorank/coding/solution_verifier.py:457-478 | Checking findings breaks exactly when one is in order up to a list or an object as its severity and all before it are valid |
| ReviewDocument.ValidationFaults | src/tacorank/coding/solution_verifier.py:389-415 | Validating a document breaks exactly when, normalized, it has the shape of a review and its findings break; required changes never do |
| ReviewDocument.SomeDocumentFaults | src/tacorank/coding/solution_verifier.py:457-478 | A rejected review with one finding whose severity is a list breaks validation |
| SolutionVerifier.Verify | src/tacorank/coding/solution_verifier.py:197-326 | Verdict, calls made with their times and limits, tokens and end are those due for what the transport does: a second call only if the first raised or answered in time to no use, every answered call paid for |
| SolutionVerifier.OneVerdict | src/tacorank/coding/solution_verifier.py:211-326 | The causes of the verdicts exclude each other: what the calls do decides the verdict |
| SolutionVerifier.FirstAnswerDecides | src/tacorank/coding/solution_verifier.py:237-318 | A first answer in time with a well-formed review is the review, with no second call |
| SolutionVerifier.ReviewsAreRead | src/tacorank/coding/solution_verifier.py:304-318 | Any review returned says what the document of the last call made says |
| SolutionVerifier.FaultIff | src/tacorank/coding/solution_verifier.py:304-308 | The uncaught exception ends a review exactly when the last call made answered in time with a document that breaks validation |
| SolutionVerifier.SomeAnswerFaults | src/tacorank/coding/solution_verifier.py:304-308 | Whoever answers with the document above breaks the review, for any timeout |
| SolutionVerifier.CallsWithinDeadline | src/tacorank/coding/solution_verifier.py:237-272 | No call begins at or after the reviewer's deadline; with calls that keep their limits and nothing else taking time it is over less than a second past it |
| SolutionVerifier.CallFits | src/tacorank/coding/solution_verifier.py:269-269 | A call's limit is no more than the time left exactly when that is a whole number of seconds |
| SolutionVerifier.CallLimitIs | src/tacorank/coding/solution_verifier.py:269-269 | A call's limit is the least whole number of seconds that covers the time left |
| SolutionVerifier.WholeCallsInTime | src/tacorank/coding/solution_verifier.py:237-303 | With calls of whole seconds that keep their limits the deadline is met |
| ReviewLoop.PlayRound | src/tacorank/coding/trae_adapter.py:703-892 | One turn yields a review of the captured diff, different from the diff before, or stops at the first step that fails, with the tokens of the calls made; its pass and review begin before the deadline with at most the whole seconds left, but at least one |
| ReviewLoop.TurnOpened | src/tacorank/coding/trae_adapter.py:703-732 | A turn given the order due to it keeps everything a run keeps, and counts as a pass exactly when time was left for one |
| ReviewLoop.TurnClosed | src/tacorank/coding/trae_adapter.py:893-936 | Recording a review keeps the history: all reviews but possibly the last reject, attempts are numbered, consecutive diffs differ |
| ReviewLoop.ReviewUntilSettled | src/tacorank/coding/trae_adapter.py:703-940 | The loop is left with an accepted review of the staged diff or not at all; otherwise the run is stopped for the reason its last turn gives |
| ReviewLoop.ProduceCandidate | src/tacorank/coding/trae_adapter.py:672-1040 | Every run keeps its history, orders within the prompt guards, totals of tokens and steps, and gapless times; a patch is sealed exactly when the last review accepted it and it was committed and its evidence kept, and it is the diff that review saw; the run crashes exactly when a review breaks |
| ReviewLoop.RunsAreOrdered | src/tacorank/coding/trae_adapter.py:703-936 | The first pass of every run gets the caller's order; pass i + 1 gets the revision's step, token and wall limits and a prompt numbered i of the maximum with exactly the changes required by the rejecting review before it; no pass is given more time than that |
| ReviewLoop.TokensConserved | src/tacorank/coding/trae_adapter.py:716-1040 | A run that does not crash reports the tokens of every pass that ran and of every answered review call, recorded or not, each once; a sealed one the steps of all its passes |
| ReviewDeadline.RunBeginsInTime | src/tacorank/coding/trae_adapter.py:704-819 | Whatever the clocks do, no pass and no review begins at or after the deadline of the action |
| ReviewDeadline.LimitIs | src/tacorank/coding/trae_adapter.py:713-713 | The limit of a pass or a review is the most it may have, or the whole seconds left, or one second |
| ReviewDeadline.LimitFits | src/tacorank/coding/trae_adapter.py:713-713 | The limit of a pass or a review is no more than the time left exactly when a second is left |
| ReviewDeadline.RunEndsInTime | src/tacorank/coding/trae_adapter.py:672-819 | If every pass and call returns within its limit and nothing else takes time, a run ends less than two seconds past its deadline |
| ReviewDeadline.WholeSecondsMeetDeadline | src/tacorank/coding/trae_adapter.py:704-819 | If, moreover, passes and calls take whole seconds, it ends by its deadline |
| ReviewDeadline.LateRun | src/tacorank/coding/trae_adapter.py:704-819 | For every shortfall there is such a run of one attempt that ends later than two seconds less the shortfall past its deadline |

## Left out

- IEEE rounding: scores, metrics and gradients are exact reals; non-numeric and non-finite inputs, and the label types `normalize_binary_labels` sorts out, do not occur.
- log2, sqrt, exp and the logistic function: discounts enter as any positive, strictly increasing sequence; the norms of Spearman, the standard error and the Ladder's precision as numbers with the defining property of the root; the gradient starts from the residuals.
- Identifiers are strings. `within_user_rank_change` groups raw ids and the evaluator groups their text; on ids of one type these agree.
- Gradients.ScatterFactors: the gradient tables are values handed on rather than arrays written in place, and the Adam updates, the loss value, training and the model's mutable fields are not modelled; nor are int32 and float32 limits.
- Slices.Reconstruct: answers Empty where slices without users make the source divide by zero; the bucket functions themselves are arbitrary.
- Stability.Ladder.Submit: the seeds' standard deviation is not returned.
- Features.SearchSorted: counts leading edges instead of bisecting, which is the same on the sorted edges proved for `fit`.
- Digest.OrderedStream: SHA-256 and the JSON text of a record are not modelled; the encoder is any function, and a score enters as its hexadecimal text.
- ReviewDocument.Validate: white space and letters outside ASCII (but for U+0085 and U+00A0) are not modelled, nor is redaction.
- SolutionVerifier.Verify: how a response becomes a document is part of the script; the text of errors and of the retry instruction is left out.
- ReviewLoop.ProduceCandidate: Git, worktrees, artifacts, prompt text and the coding agent are script entries; a diff that is not UTF-8, and the checks before the loop (lines 674-691), are left out.
- `select_final` picks the eligible candidate with the largest key, and `is_no_op` compares computed measures with configured thresholds; neither is modelled.
- `build_internal_proxy` caps each user's rows by a hash order, `positive_rank_diagnostics` reports where positives rank, `delta_correlation` correlates two delta vectors: not modelled.
- `save_delta_vector` writes an archive and `ordered_values_sha256` hashes newline-ended texts: not modelled.
- Orchestrator, event store, trust verdicts, deployment, command line, configuration and the study under `research/` are outside this model.
