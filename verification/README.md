# Verified model of the trend-detection backend

The backend watches public channels, buffers their posts, clusters them into stories, scores the stories,
alerts paying users, and keeps itself supplied with reader accounts. This project models the parts of it whose
correctness is not visible from one function body, and proves what those parts are for.

* **Evaluation** (`Sorting`, `RankMetrics`, `AucPairs`, `AveragePrecision`, `ForwardSplit`, `CohortLabels`,
  `WindowReport`, `PairAudit`): ranking metrics computed indirectly (through tie-averaged ranks, through recall increments)
  against their counting definitions; the leak-free split and labels; the per-window report; the blocked passes
  over all cluster pairs.
* **Clustering** (`Clustering`, `Reopening`): the offline harness's shrinking active list against the quality
  report's full rescan, two programs for one specification on sorted posts, and exactly which other post times keep
  them in agreement.
* **Ingest** (`TickLock`, `CollectPass`, `RawBuffer`): the global collect-tick lock as a state machine over
  every interleaving of any number of workers, the last-tick marker over runs of passes, and the capped, expiring
  post buffer over runs of atomic operations.
* **Billing** (`Billing`, `Reminders`): payment notifications (IPNs) replayed and out of order, the expiry they
  build up, the effective plan, and the renewal-reminder sweep.
* **Alerts** (`AlertDispatch`, `Base64Url`, `FeedbackToken`): the dispatch queue with retries, reschedules and
  resweeps, and the signed feedback token.
* **Account factory** (`AccountFactory`, `FactoryBudget`, `LiveProxies`): provisioning with paired resources, the
  lifecycle graph, unique proxies, the spending cap over whole runs, and when a live account's proxy is handed out again.

`Wrappers` and `RealArithmetic` hold what several modules share.

Code that updates state is modelled as methods, on classes where the source keeps rows or keys (`RedisKey`,
`Ingest`, `Buffer`, `Store`, `Worker`, `Session`) and on an array for the in-place reminder sweep. Each such
method is proved equal to a specification function, and the results over runs are lemmas about that function.
Clocks, providers, gateways, channels and brokers are parameters that may answer anything. A session commits on a
clean exit and rolls back on an exception (backend/src/storage/database.py:37-46). Python floats and decimals are
exact reals.

`dafny verify dfyconfig.toml` checks everything.

## Where the code and its documentation differ

The model follows the code. The differences that the proofs brought out:

* Recorded factory spend is documented as a hard ceiling (backend/src/factory/service.py:26-30), but the check
  leaves out the proxy, so it can be passed by up to one proxy price. `FactoryBudget.HardCapExactly` and
  `FreeNumbersExactly` say for which settings.
* A registration that Telegram rejects is documented to end in a terminal `banned` row with its budget spent
  (backend/src/factory/tasks.py:318-327), but the error leaves `_provision` before any row exists and rolls the tick
  back: `AccountFactory.RejectedRegistrationLeavesNoTrace`. No run ever reaches `banned`
  (`AccountFactory.LifecycleRespected`).
* Provisioning is documented to release a held proxy lease on any failure (backend/src/factory/tasks.py:189-190).
  It does not when `finish` or the transport's close raises after a successful registration, nor when `cancel`
  raises after a failed one: the last clause of `AccountFactory.ProvisionNumber`.
* The split's ratios document a band after each boundary and the split itself a separation of one gap
  (backend/src/eval/forward_split.py:91-94, 145-146). The code clears both sides, which separates by more than two
  gaps: `ForwardSplit.GapSeparates`.
* A transient dispatch failure counts its sends in `delivery_attempts` and then rolls the count back:
  `AlertDispatch.AttemptsRecorded`.
* A `failed` alert is documented as terminal (backend/src/alerts/tasks.py:56-58), but only `delivered` is guarded.
  `AlertDispatch.FailedThenDelivered` is a run that delivers one, and `AlertDispatch.FailedRevivesExactly` says which
  steps do: a due dispatch of a message still queued for it that some channel accepts.
* A proxy already bound to a live or in-flight account is documented never to be reused
  (backend/src/factory/service.py:48-51), but the proxies in use are collected from unfinished rows only
  (backend/src/factory/tasks.py:94-98, 148-155), while promotion carries the proxy into the live pool.
  `LiveProxies.LiveProxyReusedExactly` says for which settings a run shares one.
* After a renewal a reminder window is sent again unless it equals the last one recorded
  (backend/src/billing/tasks.py:162-169), so a 7-day reminder left over from the previous period silences the new one:
  `Reminders.AllThreeOnce`.
* A verified IPN whose own status is the internal word `processed` can close its order for good without activating
  it, although only an activated payment is meant to be a replay (backend/src/billing/webhook.py:66-71).
  `Billing.ForeignProcessedStatus` and `Billing.ClosedUnpaidExactly` give the exact guard for one message and for
  runs, `Billing.ClosedUnpaidWitness` an instance.
* Every token that fails verification is documented to raise one error type
  (backend/src/alerts/feedback_tokens.py:134-135), but a signature part that is not ASCII makes the comparison raise an
  error of its own (line 160). `FeedbackToken.UncaughtExactly` says for which tokens, `FeedbackToken.UncaughtWitness` is one.
* At most two collect ticks run at once only because the configured lock lifetime exceeds the 30 s grace, which
  nothing enforces: `TickLock.AtMostTwoIffTtlExceedsGrace`.

## Model

| member | source | states |
|---|---|---|
| RankMetrics.TieAveragedRanks | backend/src/eval/metrics.py:70-84 | each rank is such that twice it equals twice the number of smaller scores plus the number of equal ones plus one, in input order, for every score list |
| RankMetrics.RunPosition | backend/src/eval/metrics.py:75-80 | a maximal run of equal values in sorted order occupies exactly the positions that counting smaller and equal values gives |
| RankMetrics.FillRun | backend/src/eval/metrics.py:79-82 | the inner loop gives the average to the values of one run and leaves all other ranks as they were |
| RankMetrics.RocAuc | backend/src/eval/metrics.py:43-67 | the rank-sum formula equals (pairs won by a positive plus half the ties) over all positive/negative pairs, and fails with the source's error exactly when lengths differ, nothing is given, a label is not 0/1 or a class is empty |
| RankMetrics.MannWhitney | backend/src/eval/metrics.py:46-51 | twice the positives' rank sum is twice their wins over the negatives plus their ties plus n_pos(n_pos+1), whatever the ties |
| RankMetrics.AucBounds | backend/src/eval/metrics.py:49-54 | the win rate of one class over another is a fraction, and the two directions add up to one |
| RankMetrics.AucRange | backend/src/eval/metrics.py:43-67 | the AUC lies in [0, 1] whenever it is defined |
| RankMetrics.AucLabelSwap | backend/src/eval/metrics.py:43-67 | swapping the labels turns AUC a into 1 - a, and every error into the same error |
| RankMetrics.AucRescoring | backend/src/eval/metrics.py:43-67 | any rescoring that keeps the strict order of the scores keeps the AUC or its error |
| AucPairs.AucDefinedExactly | backend/src/eval/metrics.py:56-64 | the AUC is defined if and only if there are as many labels as scores, all 0 or 1, and both occur |
| AucPairs.AucCountsPairs | backend/src/eval/metrics.py:43-67 | where defined it is twice the number of index pairs (positive, negative) with the positive scored higher plus the number with equal scores, over twice the number of all such pairs |
| AucPairs.PerfectExactly | backend/src/eval/metrics.py:52-54 | it is 1 if and only if every positive is scored above every negative |
| RankMetrics.RankOrderExactly | backend/src/eval/metrics.py:105-105 | the descending order lists every index once, higher scores first and equal ones by index |
| AveragePrecision.AveragePrecision | backend/src/eval/metrics.py:87-116 | the recall-increment loop returns the mean, over the ranks holding a positive, of precision at that rank, or the source's error |
| AveragePrecision.RecallStep | backend/src/eval/metrics.py:109-115 | one increment of recall times precision adds exactly that rank's share of the mean, and nothing at a negative |
| AveragePrecision.AllHits | backend/src/eval/metrics.py:102-111 | the descending order meets every positive exactly once |
| AveragePrecision.PrecisionRange | backend/src/eval/metrics.py:138-154 | precision at a rank holding a positive is in (0, 1], and 1 exactly when no negative is ranked above |
| AveragePrecision.PrecisionCounts | backend/src/eval/metrics.py:138-154 | precision at rank k + 1 is the share of positives among the k + 1 items scored above some item, or equal to it with no larger index |
| AveragePrecision.PrecisionClamped | backend/src/eval/metrics.py:147-154 | k beyond the items gives the share of positives among all of them, and k below 1 is refused |
| AveragePrecision.AveragePrecisionRange | backend/src/eval/metrics.py:87-116 | average precision is in (0, 1], and 1 if and only if no negative has a higher score than a positive, or an equal score and a smaller index |
| Clustering.Cluster | eval_offline/harness3_forward_split.py:115-148 | the harness's loop, which drops closed clusters for good, ends with the clusters and centroids of the full rescan on time-sorted posts, and of the dropping specification on any posts |
| Clustering.Recluster | backend/scripts/quality_report.py:184-223 | the report's loop ends with the clusters and centroids of the full rescan at cosine 0.75, 48 h window and 72 h span |
| Clustering.ScanCandidates | eval_offline/harness3_forward_split.py:130-134 | the candidate loop picks what the recursive choice picks, a later equal similarity winning |
| Clustering.SameClusters | eval_offline/harness3_forward_split.py:115-148 | dropping and rescanning give the same clusters, member order, centroids and timestamps for every time-sorted list, similarity, centroid update and thresholds |
| Clustering.DroppingFollows | eval_offline/harness3_forward_split.py:129-140 | as long as no possible cluster, found closed by one post, is open for a later one, the active list and the list of all clusters contain the same open clusters in the same order after any prefix, whatever the order of the times |
| Clustering.DroppingInvariant | eval_offline/harness3_forward_split.py:129-140 | on sorted times they do so after any prefix, now and at every later time |
| Reopening.ReopeningDiffers | backend/scripts/quality_report.py:199-204 | whenever some list of posts that could form a cluster is closed when one later post comes and open for a still later one, there are vectors on which the two programs end with different clusters |
| Clustering.DroppingAgrees | eval_offline/harness3_forward_split.py:115-148 | on post times for which no possible cluster reopens, sorted or not, clusters, centroids and timestamps agree for every type of vector, similarity and centroid update |
| Reopening.AgreeExactly | eval_offline/harness3_forward_split.py:115-148 | for given post times, window, span and threshold the two programs report the same clusters on all vectors, similarities and centroid updates if and only if no possible cluster reopens |
| Clustering.PlacementExactly | eval_offline/harness3_forward_split.py:129-147 | a post seeds a cluster if and only if no cluster within window and span reaches the threshold, and joins b if and only if b is the most similar of those that do, the newest among equals |
| Clustering.ClustersPartitionPosts | eval_offline/harness3_forward_split.py:135-148 | after any prefix every post is a member of exactly one cluster, and nothing else is a member of any |
| Clustering.ClustersWellShaped | eval_offline/harness3_forward_split.py:129-147 | members strictly increase, neighbours are at most the window apart, first and last at most the span |
| Clustering.CentroidsFollowMembers | backend/scripts/quality_report.py:210-222 | every centroid is the running centroid of exactly its cluster's members in their order, each blended in with the count before it |
| PairAudit.CountDuplicatePairs | backend/src/eval/clustering_audit.py:135-164 | the blocked upper-triangle pass returns the size of the set of pairs i < j at or above the threshold, for any block size |
| PairAudit.DuplicatesExactly | backend/src/eval/clustering_audit.py:140-164 | the pairs it counts are those with i < j and cosine at or above the threshold |
| PairAudit.CountMergeWindowPairs | backend/src/eval/clustering_audit.py:223-311 | fails exactly when labels are given in the wrong number; otherwise reports the list of window pairs, the number of unrelated ones among them, their fraction and the sample, for any block size |
| PairAudit.ScanRow | backend/src/eval/clustering_audit.py:272-295 | one row contributes exactly its accepted later columns, in order, and the number of unrelated ones |
| PairAudit.PairListPairs | backend/src/eval/clustering_audit.py:267-295 | the list has exactly one entry for each accepted pair i < j, and no other |
| PairAudit.WindowIsDifference | backend/src/eval/clustering_audit.py:233-236 | the window count equals pairs(merge) minus pairs(tight) if and only if no pair lies between thresholds given the wrong way round, in particular whenever merge <= tight |
| PairAudit.SampleIsTop | backend/src/eval/clustering_audit.py:302-304 | the sample has the requested size, clamped to what exists and to zero, is sorted by falling cosine, and no pair left out beats one taken |
| PairAudit.SampleExactly | backend/src/eval/clustering_audit.py:302-304 | the sample lists window pairs by falling cosine, equal ones by row and column; each entry carries its cosine and whether it joins clusters without a shared topic or channel; whatever window pair is left out comes after all that are listed |
| PairAudit.AuditExactly | backend/src/eval/clustering_audit.py:297-311 | the audit counts the pairs i < j with merge <= cosine < tight, those among them without shared topic or channel, and the share of these, the last two for labelled clusters only |
| PairAudit.RowMaxima | backend/scripts/quality_report.py:91-112 | every row's value bounds all other columns and is one of them or -1, and is 0 when there are fewer than two rows, for any block size |
| PairAudit.RowMaxExact | backend/scripts/quality_report.py:226-247 | the reported value is the true maximum over the other rows if and only if some other row has cosine at least -1 |
| ForwardSplit.SplitByTime | backend/src/eval/forward_split.py:131-195 | the four-list loop computes the split that the lemmas below are about |
| ForwardSplit.Share | backend/src/eval/forward_split.py:154-155 | the index cut is the integer part of the fraction and never exceeds the number of clusters |
| ForwardSplit.SplitExactly | backend/src/eval/forward_split.py:149-195 | in (t0, id) order the first floor(n * train) clusters are train or dropped, the next floor(n * val) val or dropped, the rest test or dropped; dropped are exactly those born within the gap of the first cluster past their part or of the one that begins it, for a positive gap |
| ForwardSplit.SplitConserves | backend/src/eval/forward_split.py:149-195 | train, val, test and dropped together are a permutation of the input |
| ForwardSplit.SplitSorted | backend/src/eval/forward_split.py:134-137 | each of the four parts is in (t0, id) order |
| ForwardSplit.GapSeparates | backend/src/eval/forward_split.py:139-147 | with a positive gap every surviving train birth is more than two gaps before every surviving val or test birth, and val before test, also when a partition between is empty |
| ForwardSplit.DroppedInBand | backend/src/eval/forward_split.py:161-169 | nothing is dropped that is not born within the gap of a boundary |
| ForwardSplit.ZeroGapCut | backend/src/eval/forward_split.py:154-168 | a zero gap drops nothing, and train, val and test are the sorted list cut into floor(n * train), floor(n * val) or what is left of it, and the rest |
| CohortLabels.PercentileBetween | backend/src/eval/distribution.py:13-30 | a percentile lies between the sorted neighbours of its fractional rank, and on the lower one at a whole rank |
| CohortLabels.PercentileExactly | backend/src/eval/distribution.py:26-30 | between two neighbouring ranks a percentile runs linearly from the one sorted value to the other |
| CohortLabels.PercentileEnds | backend/src/eval/distribution.py:23-30 | the 0th percentile is the least of the values and the 100th the greatest |
| CohortLabels.MedianIsMiddle | backend/src/eval/distribution.py:26-30 | the 50th percentile is the middle value, or the mean of the two middle values |
| CohortLabels.PercentilePermutation | backend/src/eval/distribution.py:23-30 | a percentile depends on the multiset of values only |
| CohortLabels.MedianBound | backend/src/eval/forward_split.py:229-239 | at most floor(n/2) of n values lie strictly above the median |
| CohortLabels.QuartileBound | backend/src/eval/forward_split.py:242-246 | at least ceil(n/4) of n values reach the 75th percentile |
| CohortLabels.GroupOutcomes | backend/src/eval/forward_split.py:278-282 | grouping gives every cluster's cohort exactly its own outcomes in order |
| CohortLabels.CohortExactly | backend/src/eval/forward_split.py:278-282 | a cohort holds each outcome as often as there are clusters of that age bucket with it |
| CohortLabels.SameCohortExactly | backend/src/eval/forward_split.py:222-226 | two clusters are compared if and only if there are no buckets or their ages share one |
| CohortLabels.LabelExactly | backend/src/eval/forward_split.py:284-290 | DOUBLING is 1 strictly above the 50th percentile of the cluster's cohort and 0 otherwise, TOP_QUARTILE is 1 at or above a positive 75th percentile and 0 otherwise, LOG_FINAL is log1p of the outcome |
| CohortLabels.LabelPartition | backend/src/eval/forward_split.py:249-291 | one label per cluster in input order, from the threshold of the cluster's own cohort in this partition |
| CohortLabels.DoublingMarksAtMostHalf | backend/src/eval/forward_split.py:229-239 | DOUBLING marks at most floor(n/2) of the n clusters of a cohort |
| CohortLabels.TopQuartileMarksAtLeastQuarter | backend/src/eval/forward_split.py:263-273 | TOP_QUARTILE marks at least ceil(n/4) of the n clusters of a cohort when its reference is positive, and none otherwise |
| CohortLabels.DoublingLeavesANegative | backend/src/eval/forward_split.py:266-273 | every non-empty cohort keeps a cluster that DOUBLING labels 0 |
| CohortLabels.LabelSeesOnlyCohort | backend/src/eval/forward_split.py:255-261 | a label is the same in any two partitions whose outcomes for that cohort are the same multiset |
| CohortLabels.LabelPartitions | backend/src/eval/forward_split.py:303-315 | each of train, val and test is labelled from itself alone |
| WindowReport.ComputeWindowReport | backend/src/eval/online_gate.py:252-311 | the whole report: empty window, rejected records or ratios, empty test part, single class, or the pair-counting AUC, mean precision and mean squared error of the test part |
| WindowReport.TestIdsKnown | backend/src/eval/online_gate.py:275-288 | every cluster of the test part has a score, so the lookup by id never fails |
| WindowReport.LastScoreWins | backend/src/eval/online_gate.py:276-276 | of several records with one id the last one's score is looked up |
| WindowReport.TestLabelsExactly | backend/src/eval/online_gate.py:285-286 | a test cluster counts as positive if and only if its engagement is above the median of its cohort within the test part |
| WindowReport.EarlyScoreDoesNotLeak | backend/src/eval/online_gate.py:236-249 | records that differ in nothing but their early scores give the same test part and the same labels |
| WindowReport.NeverAllPositive | backend/src/eval/online_gate.py:290-292 | a non-empty test part is never labelled all positive, so the n_pos == n case cannot occur |
| WindowReport.MetricsDefined | backend/src/eval/online_gate.py:266-268 | with both classes present no metric is called outside its domain |
| WindowReport.SquaredErrorsRange | backend/src/eval/metrics.py:119-135 | the clamped scores keep the Brier score in [0, 1] |
| WindowReport.BrierBaselines | backend/src/eval/metrics.py:122-135 | the summed squared error is 0 for the certain and right, a quarter each for always one half, 1 each for the certain and wrong, and each pair adds the square of its miss |
| WindowReport.ProbabilityExactly | backend/src/eval/online_gate.py:314-321 | a score counts as a hundredth of it, cut off at 0 and 1 |
| TickLock.RedisKey.Acquire | backend/src/collector/locks.py:33-40 | takes the key exactly when no unexpired holder has it, and leaves it alone otherwise |
| TickLock.RedisKey.ReleaseAttempt | backend/src/collector/locks.py:55-63 | deletes only the key it read with its own token, and has no effect when another client wrote in between |
| TickLock.RedisKey.Release | backend/src/collector/locks.py:43-66 | after any number of interfering writes the answer and the delete are those of the last attempt alone |
| TickLock.StepKeepsInv | backend/src/collector/locks.py:33-85 | every step of any worker, key expiry and kill keeps: tokens are unique, a body inside its TTL holds the key, overlapping bodies started a TTL apart, a pending delete can only hit its own token |
| TickLock.RunKeepsInv | backend/src/collector/tasks.py:351-387 | that invariant holds in every interleaving of any number of workers |
| TickLock.ReleaseRemovesOnlyOwnLock | backend/src/collector/locks.py:43-51 | in every interleaving a release that changes the key removes the releasing worker's own token |
| TickLock.PromptRelease | backend/src/collector/locks.py:69-85 | in every interleaving a body that ends within its TTL and releases undisturbed leaves the key free at once and disturbs no other worker |
| TickLock.ReleaseCompletes | backend/src/collector/locks.py:55-66 | from any reachable state an undisturbed release is over after one attempt, frees the key if its own token is still in it, and otherwise leaves it as it was |
| TickLock.DisturbedReleaseRetries | backend/src/collector/locks.py:59-65 | a release disturbed by another write has no effect and starts again with the same token |
| TickLock.OverlapOnlyInGrace | backend/src/collector/tasks.py:345-355 | two bodies are alive together only inside the last grace seconds before the older one's hard limit |
| TickLock.NoDeadlock | backend/src/collector/locks.py:5-9 | whatever crashed, the lock held at any point of any run is free one TTL later unless someone took it again |
| TickLock.AtMostTwoIffTtlExceedsGrace | backend/src/collector/constants.py:298-303 | no run ever has three bodies alive if and only if the lock TTL exceeds the hard-limit grace |
| TickLock.ThreeTicksMeet | backend/src/collector/tasks.py:348-355 | for every TTL not above the grace a concrete run has three bodies alive |
| CollectPass.Ingest.CollectWatchedSources | backend/src/collector/tasks.py:283-342 | every read of the pass gets the resolved bound; the marker moves to the pass's start exactly when some collector ran and nothing escaped |
| CollectPass.MarkerHeld | backend/src/collector/tasks.py:286-289 | unconfigured, source-less and aborted passes leave the marker where the last completed pass put it |
| CollectPass.WindowsJoin | backend/src/collector/tasks.py:161-184 | a completed pass reads from exactly the previous completed pass's start if and only if, the marker unexpired, the starts are at most 48 h apart, or, the marker expired, the look-back happens to reach it |
| CollectPass.NoInstantMissed | backend/src/collector/tasks.py:283-290 | if consecutive completed passes start under 48 h apart, every instant from the first start on is inside the window of a completed pass |
| CollectPass.PreviousCompleted | backend/src/collector/tasks.py:286-289 | before any completed pass with an earlier one there is a nearest one |
| RawBuffer.Buffer.WritePost | backend/src/collector/buffer.py:85-104 | appends after discarding an expired list, keeps the newest 50 000, renews the TTL, and touches no other source |
| RawBuffer.Buffer.DrainSource | backend/src/collector/buffer.py:127-149 | returns the unexpired posts in order and leaves the source's key absent, other sources untouched |
| RawBuffer.NextSplits | backend/src/collector/buffer.py:85-104 | each write, drain, wait and reclaim keeps the in-order split of the write log described next |
| RawBuffer.NextTimed | backend/src/collector/buffer.py:97-100 | each step keeps every recorded expiry explained: the post and those after it up to some write expired together, and a full TTL without a write followed |
| RawBuffer.RunSplits | backend/src/collector/buffer.py:85-149 | in every run the log of written posts is, in order, posts that left (each drained, dropped or expired) followed by exactly the buffered ones; the drained output is the drained posts in log order; a post is dropped only after 50 000 newer writes, and expires only by a full TTL without a write |
| RawBuffer.NoEarlyLoss | backend/src/collector/buffer.py:88-92 | in every run a post written less than 48 h ago, with fewer than 50 000 newer ones, has been drained or is still buffered at its place |
| RawBuffer.AppendCapped | backend/src/collector/buffer.py:88-92 | an append over the cap drops exactly the oldest buffered post and no other |
| RawBuffer.BoundedAndShortLived | backend/src/collector/buffer.py:96-100 | in every run at most 50 000 posts are served, and none once 48 h have passed since the last write |
| RawBuffer.DrainedOnce | backend/src/collector/buffer.py:127-139 | every drained log position appears in the drained output at its own place, and the output has no other entry |
| Billing.Store.ActivateOrExtend | backend/src/billing/service.py:142-167 | extends from the later of now and the current expiry, creating the row if there is none, and sets both stored plans |
| Billing.Store.PaymentIdFree | backend/src/billing/webhook.py:84-84 | the flush is refused exactly when another order carries the payment id |
| Billing.Store.ProcessIpn | backend/src/billing/webhook.py:52-133 | the handler computes the new rows and the answer of the IPN specification; every rejection leaves all rows unchanged |
| Billing.ActivatesExactly | backend/src/billing/webhook.py:66-96 | a message activates its order if and only if the order is open, the status is `finished` or `confirmed`, amount and currency match, the user exists, plan and period are known words and no other order has the payment id; it then marks that row, sets both plans and moves the expiry on by 30, 90 or 365 days from the later of now and itself, and changes nothing else |
| Billing.RunActivatesExactly | backend/src/billing/webhook.py:66-96 | over every run an order activates if and only if such a message meets it |
| Billing.OthersExactly | backend/src/billing/webhook.py:60-77 | a message is a replay if and only if its order is processed, is acknowledged without activation if and only if it matches an open order with any other status, which it then records with its payment id; replays and rejections change nothing |
| Billing.ProcessedIsTerminal | backend/src/billing/webhook.py:66-77 | once an order is processed nothing changes its row, and its own messages change nothing at all |
| Billing.ActivatesAtMostOnce | backend/src/billing/webhook.py:71-77 | over every run of messages, replayed and reordered, an order activates at most once, and is processed from then on |
| Billing.ProcessedHasACause | backend/src/billing/webhook.py:112-122 | intermediate statuses never lock an order out: over runs in which no message carries the word itself, an order is processed if and only if it activated |
| Billing.ActivatedMeansPaid | backend/src/billing/webhook.py:170-181 | over every run invoices keep what they were created with, and none activates without a message paying its exact amount in its currency |
| Billing.PaymentIdsStayUnique | backend/src/billing/webhook.py:84-84 | over every run no gateway payment id is credited to two orders |
| Billing.ForeignProcessedStatus | backend/src/billing/webhook.py:112-122 | a message closes an open order without activating it if and only if its own status is `processed`, its amount and currency match the invoice, and its payment id is no other order's; plans, expiries and processing time then stay as they were |
| Billing.ClosedUnpaidExactly | backend/src/billing/webhook.py:66-77 | over every run an open order ends up closed with no activation if and only if some such message met it while it was open, and ends up closed at all if and only if that or an activation happened |
| Billing.StepExpiry | backend/src/billing/service.py:142-167 | a message moves a user's expiry and plan only by activating one of that user's orders, to the later of now and the old expiry plus the period |
| Billing.LatestExtends | backend/src/billing/service.py:154-157 | one more activation keeps the expiry the max-plus sum of all activations |
| Billing.ExpiryIsMaxPlus | backend/src/billing/service.py:137-157 | after every run a user's expiry is the largest of t_j plus all periods from activation j on, and of the initial expiry plus all periods: no paid day is lost, and none invented |
| Billing.StoredPlan | backend/src/billing/service.py:163-165 | after every run the stored plan is that of the user's last activation |
| Billing.PlanKeptUntilGraceEnds | backend/src/billing/limits.py:46-68 | after every run with an activation the effective plan is the last activated one strictly before expiry plus 72 h, and free from then on |
| Billing.EffectivePlanExactly | backend/src/billing/limits.py:46-68 | a paid plan is effective if and only if it is the stored one and the expiry plus 72 h lies ahead |
| Reminders.CheckExpiring | backend/src/billing/tasks.py:125-210 | the in-place sweep records a row's window exactly when it was due and both mail and commit succeeded, changes nothing else, and returns how many |
| Reminders.DueExactly | backend/src/billing/tasks.py:134-176 | window 1, 3 or 7 is due if and only if the subscription is paid, more than 0 and at most so many days are left with no narrower window wide enough, and it is not the one recorded last |
| Reminders.FailureIsRetried | backend/src/billing/tasks.py:197-208 | a failed mail or commit records nothing, and the same window is due again at the next sweep within it |
| Reminders.RemindersDecrease | backend/src/billing/tasks.py:48-68 | for a fixed expiry and any sweeps in time order with arbitrary failures, the recorded windows strictly decrease within 7, 3, 1 |
| Reminders.RemindedInvariant | backend/src/billing/tasks.py:162-176 | what the strict decrease rests on: the last recorded window is wider than any window still to come |
| Reminders.DailyProgress | backend/src/billing/tasks.py:154-196 | with successful sweeps at most a day apart, exactly the windows already entered have been reminded at each point |
| Reminders.AllThreeOnce | backend/src/billing/tasks.py:162-176 | such sweeps from before the 7-day window to the expiry send 7, 3, 1 once each if and only if 7 is not still recorded from before; otherwise 3, 1 |
| Base64Url.RoundTrip | backend/src/alerts/feedback_tokens.py:72-83 | decoding an encoding gives the bytes back for every length, and the encoding uses neither '=' nor '.' |
| Base64Url.EncodeIsUnpadded | backend/src/alerts/feedback_tokens.py:72-74 | stripping removes exactly the padding |
| Base64Url.ScanUnpadded | backend/src/alerts/feedback_tokens.py:77-83 | the restored padding is the one the decoder needs, for every remainder of the length |
| Base64Url.LenientExactly | backend/src/alerts/feedback_tokens.py:77-83 | decoding also takes '+' and '/', passes over other ASCII characters and refuses text that is not ASCII |
| FeedbackToken.ReadDecimal | backend/src/alerts/feedback_tokens.py:105-110 | a printed integer, negative ones included, is read back whatever non-digit follows |
| FeedbackToken.LoadDump | backend/src/alerts/feedback_tokens.py:105-110 | reading a written payload gives back alert id, verdict and expiry |
| FeedbackToken.LayoutExactly | backend/src/alerts/feedback_tokens.py:104-110 | the payload is the compact object with keys a, v and e in that order, its numbers in plain decimals |
| FeedbackToken.SplitAtDot | backend/src/alerts/feedback_tokens.py:143-147 | a token splits into exactly its two parts because neither contains the separator |
| FeedbackToken.SignThenVerify | backend/src/alerts/feedback_tokens.py:86-181 | for every MAC, secret, alert id, verdict and lifetime, verification returns exactly what was signed up to and including the expiry second, and `expired` after it |
| FeedbackToken.VerifiesExactly | backend/src/alerts/feedback_tokens.py:120-181 | a token is accepted as c if and only if its first part decodes to a payload that reads as c, its second part is the encoding of the first 16 bytes of that payload's MAC under the key derived with the salt, and c has not expired; it is expired if and only if it carries claims that have |
| FeedbackToken.UncaughtExactly | backend/src/alerts/feedback_tokens.py:134-161 | verification raises the comparison's own error if and only if the token is two dot-free parts around a dot of which the first decodes and the second is not ASCII; never for an ASCII token |
| AlertDispatch.Worker.DeliverAlert | backend/src/alerts/notifier.py:124-183 | tries every channel once, and delivers on any success, raises on a transient failure without success, fails otherwise; a delivered row is not touched |
| AlertDispatch.Worker.MarkAlertFailed | backend/src/alerts/tasks.py:45-50 | marks the row failed, whatever it was, and ignores a missing one |
| AlertDispatch.Worker.DispatchAlert | backend/src/alerts/tasks.py:53-102 | computes rows, queue and send log of the dispatch specification, with rollback of a raising delivery |
| AlertDispatch.Worker.ResweepPending | backend/src/alerts/tasks.py:115-176 | queues a fresh message for each selected row the broker accepts, in order, and counts them |
| AlertDispatch.MessagesStayBounded | backend/src/alerts/tasks.py:86-97 | in every run each line of messages is rescheduled at most once, and makes at most alert_max_retries + 1 delivery attempts |
| AlertDispatch.SuccessorOk | backend/src/alerts/tasks.py:73-97 | a dispatch queues at most one successor, which is due when it arrives if it was rescheduled |
| AlertDispatch.NoEarlySend | backend/src/alerts/tasks.py:73-83 | in every run no channel is sent to before the alert's deliver_after |
| AlertDispatch.NothingAfterDelivered | backend/src/alerts/notifier.py:131-133 | from any state, once an alert is delivered no further run changes its row or sends to any channel for it |
| AlertDispatch.DispatchSettlesOrRetries | backend/src/alerts/tasks.py:84-102 | a dispatch of a due, undelivered alert delivers it if and only if a channel took it, and otherwise fails it, or leaves the row as it was with one retry queued |
| AlertDispatch.TransientRetries | backend/src/alerts/tasks.py:85-97 | a transient failure without a success leaves all rows alone and queues exactly one message with one more retry after the back-off, until the retries are used up; then the row fails and nothing is queued |
| AlertDispatch.DelaysGrowToCap | backend/src/alerts/tasks.py:91-94 | that back-off starts at the configured one and doubles up to the cap |
| AlertDispatch.NotDueWaits | backend/src/alerts/tasks.py:73-83 | a message ahead of its alert's time sends and writes nothing and comes back less than a second after that time, with its retries counted afresh |
| AlertDispatch.DueSettles | backend/src/alerts/notifier.py:134-183 | a due dispatch sends once per channel; with a success the row is delivered now, without owner, channel, success or transient failure it fails, every send is counted and nothing is queued |
| AlertDispatch.DoneIsLeftAlone | backend/src/alerts/notifier.py:131-133 | a message for a missing alert, or a delivered one that is not waiting for a later time, changes nothing at all |
| AlertDispatch.FailedRevivesExactly | backend/src/alerts/notifier.py:131-133 | a step takes an alert out of `failed` if and only if it dispatches a due message for it whose owner exists and some channel accepts, and it is then delivered |
| AlertDispatch.RecordsBacked | backend/src/alerts/notifier.py:151-169 | in every run the recorded attempts never exceed the sends made, and a delivered alert has a send at its delivery time |
| AlertDispatch.DispatchUsesWork | backend/src/alerts/tasks.py:53-102 | every dispatch lowers the queue's remaining work, whatever its outcome |
| AlertDispatch.QueueDrains | backend/src/alerts/tasks.py:86-97 | without new enqueues no run dispatches more often than the initial work allows |
| AlertDispatch.ResweepCovers | backend/src/alerts/tasks.py:129-154 | a resweep whose batch was not full queues a fresh message for an alert if and only if it is pending, older than the grace, not waiting for a later time and accepted by the broker; it touches nothing else |
| AccountFactory.ProvisionNumber | backend/src/factory/tasks.py:174-228 | at every failure point a bought number is finished or cancelled but not both, a lease is returned or its release attempted but not both, the transport is closed, and a lease is lost exactly when a clean-up call raises first |
| AccountFactory.ProvisionBody | backend/src/factory/tasks.py:192-226 | the same for the body without the final close, with the release attempted exactly after a failed registration whose cancel returned |
| AccountFactory.AssignProxy | backend/src/factory/service.py:45-56 | returns the first pool entry not in use, and nothing exactly when all are in use |
| AccountFactory.Session.CreatePurchased | backend/src/storage/factory_account_store.py:100-142 | appends one purchased row and changes no other |
| AccountFactory.Session.Transition | backend/src/storage/factory_account_store.py:145-192 | moves the row exactly when the transition graph allows it, writes only the fields given, and otherwise changes nothing |
| AccountFactory.Session.CollectUsedProxies | backend/src/factory/tasks.py:148-155 | returns exactly the proxies of non-terminal rows |
| AccountFactory.Session.BuyPhase | backend/src/factory/tasks.py:231-336 | adds the rows of the buy specification, or raises when provisioning escapes |
| AccountFactory.Session.PromotePhase | backend/src/factory/tasks.py:378-421 | settles every row as the promote specification says, or raises when the live pool does |
| AccountFactory.Session.RunTick | backend/src/factory/tasks.py:443-461 | a tick commits both phases or leaves all rows as they were |
| AccountFactory.BuysExactly | backend/src/factory/tasks.py:238-332 | the buy phase does nothing, raises, records a failed number or puts an account on probation, each exactly under its guards (pool under target, budget, free proxy, provider outcome), with that row's cost, proxy, session, deadline and history |
| AccountFactory.CommitsExactly | backend/src/factory/tasks.py:454-461 | a tick that is off, escapes while buying or is made to raise by some promotion leaves all rows as they were, and any other keeps what it bought |
| AccountFactory.GraphExactly | backend/src/factory/constants.py:48-61 | the transition graph has exactly its nine moves |
| AccountFactory.UsedExactly | backend/src/factory/tasks.py:94-98 | the proxies in use are those of purchased, registered and probation rows |
| AccountFactory.LifecycleRespected | backend/src/factory/constants.py:48-61 | over every run each row's history is a path in the transition graph ending in its state, a row on probation or promoted has its session, Telegram id and deadline, and no committed row is purchased, registered or banned |
| AccountFactory.TickKeepsOk | backend/src/factory/tasks.py:443-461 | one tick keeps that for every row, old and new |
| AccountFactory.PromotionEarned | backend/src/factory/tasks.py:388-419 | a row turns promoted only past its deadline, with session and Telegram id, having passed the probe in that tick |
| AccountFactory.ProbationSettled | backend/src/factory/tasks.py:388-419 | a committed tick promotes a row past its deadline if and only if its probe passes, fails it otherwise, and touches no other row |
| AccountFactory.ProbationLasts | backend/src/factory/tasks.py:329-332 | a row a tick adds is on probation until that tick plus the configured days, and with any days to hold it is not promoted in the same tick |
| AccountFactory.PromotedAfterProbation | backend/src/factory/tasks.py:329-332 | over every run a promoted row was promoted, with a passed probe, by a tick at least the probation days after the one that bought it |
| AccountFactory.ProxiesStayUnique | backend/src/factory/tasks.py:148-155 | over every run, with pools that may change between ticks and fresh leases, no two non-terminal rows hold the same proxy; promoted rows are the subject of `LiveProxies` |
| AccountFactory.TickKeepsUnique | backend/src/factory/tasks.py:248-259 | one tick keeps proxies unique through buying and promoting |
| FactoryBudget.TickSpend | backend/src/factory/tasks.py:242-309 | a tick adds no row and spends nothing, or adds one row for a number it could afford plus at most one proxy |
| FactoryBudget.SpendBounded | backend/src/factory/service.py:26-32 | over every run with fixed settings the recorded spend never exceeds the budget plus one proxy price, and never the budget when proxies cost nothing or cannot be assigned |
| FactoryBudget.SpendPerRow | backend/src/factory/tasks.py:298-309 | every recorded row costs between a number and a number with its proxy, and the numbers alone fit the budget |
| FactoryBudget.CapHolds | backend/src/factory/service.py:26-32 | when the budget pays for the proxies of all the numbers it pays for, no run passes it |
| FactoryBudget.CapBreaks | backend/src/factory/tasks.py:242-246 | when it does not, a concrete run with rising times passes it, on a static pool as well as with leases |
| FactoryBudget.HardCapExactly | backend/src/factory/service.py:26-32 | for a positive number price some run passes the budget if and only if the factory is on and the budget does not pay for the proxies of all the numbers it pays for |
| FactoryBudget.FreeNumbersExactly | backend/src/factory/service.py:26-32 | for free numbers some run passes the budget if and only if the factory is on and it can assign proxies that cost something |
| FactoryBudget.SomeAffordable | backend/src/factory/service.py:26-32 | how many numbers the budget pays for is the integer part of budget over price |
| LiveProxies.LiveProxyReusedExactly | backend/src/factory/service.py:45-56 | some run in order of time with fresh leases ends with one proxy held by two in-flight or promoted accounts if and only if the factory is on with a static, non-empty pool and the budget admits a number after a proxied account |
| LiveProxies.TickKeepsApart | backend/src/factory/tasks.py:242-309 | in any other settings a tick keeps the proxies of in-flight and promoted accounts apart |
| LiveProxies.ReuseRunShares | backend/src/factory/tasks.py:401-419 | in such settings buying, promoting and buying again shares the first proxy of the pool, whatever its size and the probation |

## Left out

- Floating-point rounding: metrics, percentiles, times and shares are exact reals; NaN, infinities and the
  finiteness checks of cluster records do not occur.
- Embeddings, vector norms and the centroid blend are open parameters of `Clustering`, cosines open parameters of
  `PairAudit`; numpy matrix shapes are not modelled.
- `log1p`, the MAC and currency lower-casing are open parameters.
- CohortLabels.PercentileBetween: a percentile outside [0, 100], which the source refuses, is not modelled; the labels
  ask for 50 and 75 only.
- FeedbackToken.SignThenVerify: payloads are read in the layout that signing writes, with verdicts of printable ASCII
  that JSON leaves unescaped (`up` and `down` among them); the looser JSON that the library would also read, and the
  coercions of its fields, are not modelled.
- Histograms, summaries, Spearman correlation, separation, confusion counts, alert precision and the quality gate: each
  is one expression over one list.
- Serialisation of posts and the text of keys; `RawBuffer` keeps posts and keys as values.
- TickLock.RunKeepsInv: Redis is one atomic server whose clock is the workers' clock, and a worker is killed at or
  before its hard limit; a failover that loses writes is not modelled.
- CollectPass.Ingest.CollectWatchedSources: a pass is the outcome of each source kind in turn; per-channel read
  failures, the pool-reload signal and the number of posts written are not modelled.
- RawBuffer.RunSplits: a failed write, which the source reports as an error, does not reach the list and is no step.
- Billing.Store.ProcessIpn: the underpayment notice and the referral hook, which never fail the handler, are not
  modelled, nor is invoice creation.
- Plan limits and usage counters read the effective plan and compare it with one number.
- Reminders.CheckExpiring: the renewal invoice made before a reminder and the gateway are not modelled.
- AlertDispatch.MessagesStayBounded: a dispatch is one atomic step; two workers holding the same alert at once, redelivery
  by the broker and lost acknowledgements are not modelled.
- AlertDispatch.Worker.ResweepPending: the SQL query is the predicate `Selection` (oldest first, at most one batch), and the
  status metric emitted afterwards is not modelled.
- How channels are resolved from a user and what is sent to them: a dispatch is given the results of its channels.
- AccountFactory.Session.PromotePhase: the live pool's upsert is one outcome per row, raising or not; its contents, the
  reload signal and the release of a rejected row's lease are not modelled.
- AccountFactory.ProxiesStayUnique: a leased proxy is taken to be new; that is the provider's promise.
- LiveProxies.LiveProxyReusedExactly: the same promise, and prices that are not negative; how a promoted account leaves the
  live pool later is not modelled.
- Phone masking, log hygiene, settings validators, and the reading of the pool-health snapshot, whose two numbers are
  inputs of a tick.
- HTTP, Telegram, mail and payment clients, database queries and migrations, the front end and deployment.
