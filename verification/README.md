# A verified model of RaBitQCache

RaBitQCache keeps a one-bit index over the keys of a KV cache, estimates attention scores from it, and attends only
to the tokens whose estimated weight matters. This project models that index, its selector and the other
non-trivial logic of the repository in Dafny, and proves what they guarantee.

| file | models |
|---|---|
| `Wrappers.dfy`, `Arithmetic.dfy` | options, powers of two, running totals and shared arithmetic facts |
| `LinearAlgebra.dfy` | dot products, rotations as orthogonal matrices, Cauchy-Schwarz |
| `RabitqEstimator.dfy` | the one-key quantiser and the estimate of `q . k` for one head |
| `RabitqBounds.dfy` | what the estimate guarantees: error bounds, exact cases, the effect of `eps` |
| `RabitqIndex.dfy` | the per-layer index as a state machine over prefill and decode steps |
| `RabitqState.dfy` | the state manager: training, batches, estimates, reset |
| `Ranking.dfy`, `TopP.dfy` | descending sorts, and the sort / cumsum / scatter selection |
| `RabitqSelector.dfy`, `RabitqRuns.dfy` | the decode-stage mask, over whole runs of a layer |
| `RabitqAttention.dfy` | the attention layers of a model, all on one shared state |
| `NinjaSweep.dfy` | the weighted build-time sweep |
| `Quest.dfy`, `SnapKv.dfy`, `Quantizers.dfy` | chunk selection, prompt compression, per-token quantisers |
| `Scheduler.dfy` | the multi-GPU scheduler against an arbitrary environment |
| `StreamMerge.dfy`, `DataParallel.dfy`, `BadWords.dfy`, `ScalarTypes.dfy` | output merging, chunked data parallelism, the bad-words filter, type identifiers |

## How the model reads the source

Tensors are sequences of exact reals, one attention head and one batch entry at a time; every tensor operation
modelled is independent across heads and batch entries except training, which is given the rows of all batch
entries. A rotation is any matrix with `P P^T = P^T P = I`. The square root, softmax and sort index output are
function parameters constrained to what those operations promise (a softmax vector is positive, sums to one and
keeps score order; a sort may break ties in any way). The constant `1e-8` is a parameter `eps >= 0`. GPU tables,
process exits and token streams are arbitrary inputs. In SnapKV the most negative number of the tensor's type absorbs
the score it is added to, so a masked entry carries no score and gets no weight. The four per-layer dictionaries that
training writes together are one map in `RabitQState`, and sweep events name their target by position. Automatic
induction is switched off on every lemma, so each proof is exactly its body.

## Where the code does not do what one would expect

- `attention.py` creates the shared state with interval 512 when none is configured, while `rabitq_selector` itself
  defaults to 128. `RabitqRuns.MiddleJudgedBy` says exactly when the middle tokens are judged by their own keys: when
  the index starts where the selector's middle starts. `RabitqRuns.NarrowSelectorDropsTokens` shows what the default
  pair causes: the newest 384 quantised tokens are never selected.
- After `reset_layer`, a prompt that fits in the first interval leaves the count at 0 and decoding fills the index
  from token 0, so every middle token is judged by the key one interval earlier, from the moment there are two
  intervals of keys (`RabitqRuns.ResetShiftsJudgement`). `RabitqIndex.RunCoherent` covers both starts.
- `ScalarType.max` builds a negative bit pattern for a type without mantissa bits whose top mantissa pattern is a
  NaN, and for no other type (`ScalarTypes.FloatMaxIff`). The repository's own `float8_e8m0fnu` is such a type
  (`ScalarTypes.E8M0HasNoMax`). For a type with one exponent bit under IEEE rules the value is not one the type can
  hold; for all others it is the type's largest finite number (`ScalarTypes.MaxIsLargestFiniteIff`).
- Identifiers keep 32 bits of a bias, so `from_id` can return another type once out-of-range types are registered
  (`ScalarTypes.BiasCanCollide`); `ScalarTypes.LookupIsLast` says which one.
- SnapKV pooling with an even kernel has one output too many (`SnapKv.PoolingKeepsLengthIff`). Over all scores the
  top-k stays inside the prefix exactly for odd kernels (`SnapKv.TopKStaysInsideIff`); over positive ones, which
  softmax gives, average pooling is also safe while `top <= kernel / 2 <` prefix length, and not otherwise
  (`SnapKv.PositiveTopKStaysInsideIff`).
- `RequestOutput.add` trips its assertion exactly for streams whose logprobs start late
  (`StreamMerge.AssertionHoldsIff`, with the concrete stream of `StreamMerge.LateLogprobsFail`) and then leaves a
  half-merged completion behind (`StreamMerge.HaltsAtFirstFailure`).

## Model

| member | source | states |
|---|---|---|
| RabitqBounds.CleanErrorBound | rabitqcache/pyimpl/rabitq.py:128-151 | at eps = 0 the squared error of the estimate is at most the product of both squared residual lengths times `1/o^2 - 1`, and never more than `d - 1` times that product |
| RabitqBounds.ErrorBound | rabitqcache/pyimpl/rabitq.py:249-280 | for every eps the squared error is bounded by the query residual's squared length times a spread computed from the stored numbers alone |
| RabitqBounds.ErrorBoundIsAttained | rabitqcache/pyimpl/rabitq.py:249-280 | for every key some query meets that bound with equality |
| RabitqBounds.CleanStoredDot | rabitqcache/pyimpl/rabitq.py:128-147 | at eps = 0 the stored `<o, obar>` is the L1 norm of the rotated residual over `sqrt(d)` times its length, and lies in `[1/sqrt(d), 1]` |
| RabitqBounds.StoredDotBounds | rabitqcache/pyimpl/rabitq.py:130-147 | the debiasing divisor is positive for every quantisable key, and the stored value is zero only for a key equal to its centroid |
| RabitqBounds.ErrorIsResidualDot | rabitqcache/pyimpl/rabitq.py:265-280 | estimate minus true score is one dot product of the query residual; the centroid terms cancel exactly |
| RabitqBounds.ParallelQuery | rabitqcache/pyimpl/rabitq.py:134-147 | for a query residual parallel to the key residual the error has a closed form, and vanishes if and only if the multiple, the residual or eps is zero or the stored value equals the norm |
| RabitqBounds.CentroidKeyIsExact | rabitqcache/pyimpl/rabitq.py:128-134 | a key equal to its centroid is estimated exactly for every query once eps is positive |
| RabitqBounds.MirroredCodes | rabitqcache/pyimpl/rabitq.py:136-140 | a key and its mirror image in the centroid share no code bit, together they cover the coordinates whose rotated residual is not zero, and a key at the centroid has an all-zero code |
| RabitqBounds.EpsOnlyRescales | rabitqcache/pyimpl/rabitq.py:265-280 | a positive eps rescales the residual part of the eps = 0 estimate by the quotient of the divisors and changes nothing else |
| RabitqBounds.NoCenterErrorBound | rabitqcache/pyimpl/rabitq_no_center.py:33-36 | with zero centroids the clean bound holds with the plain lengths of key and query |
| RabitqEstimator.KeyGeometry | rabitqcache/pyimpl/rabitq.py:136-147 | the rotated reconstruction has unit length, and its overlap with the residual is the L1 norm of the rotated residual over `sqrt(d)`, between `norm / sqrt(d)` and `norm` |
| LinearAlgebra.Adjoint | rabitqcache/pyimpl/rabitq.py:51-59 | forward and inverse rotation are adjoint |
| LinearAlgebra.RotationKeepsDot | rabitqcache/pyimpl/rabitq.py:51-59 | an orthogonal rotation keeps dot products in both directions |
| RabitqState.MeanCentres | rabitqcache/pyimpl/rabitq.py:85-94 | residuals against the trained centroid sum to zero over the prefill rows |
| RabitqState.TrainedHeadCentres | rabitqcache/pyimpl/rabitq.py:71-96 | the trained head holds the drawn rotation, a query centroid that centres the queries, a key centroid that centres the keys, and the product of the two |
| RabitqState.RabitQState.Train | rabitqcache/pyimpl/rabitq.py:61-96 | an untrained layer gets the drawn rotation and centroids that centre its own queries and keys, a trained one is left alone, and so is every other layer |
| RabitqState.RabitQState.TrainNoCenter | rabitqcache/pyimpl/rabitq_no_center.py:15-38 | the same with both centroids at zero |
| RabitqState.RabitQState.QuantizeKeysBatch | rabitqcache/pyimpl/rabitq.py:98-159 | the layer's slot gains one batch of codes in all four lists and its count becomes the end of the batch; other layers are untouched |
| RabitqState.RabitQState.QuantizeInitialKeys | rabitqcache/pyimpl/rabitq.py:161-179 | the prefill loop, equal to the recursive specification that the coherence lemmas are about |
| RabitqState.RabitQState.QuantizeNewDecodeTokens | rabitqcache/pyimpl/rabitq.py:181-204 | the decode loop over complete batches, equal to its specification; nothing happens before prefill has made an index |
| RabitqState.RabitQState.ResetLayer | rabitqcache/pyimpl/rabitq.py:284-293 | an existing slot becomes empty with count 0, other layers keep theirs |
| RabitqState.CoherentDistances | rabitqcache/pyimpl/rabitq.py:230-282 | reading a coherent index gives, at position i, the one-key estimate of key `first + i`, for as many keys as were asked for and stored |
| RabitqIndex.RunCoherent | rabitqcache/pyimpl/rabitq.py:170-204 | after any prefill and any number of decode steps the concatenated lists are the one-key quantiser mapped over the keys, and the count is the prompt length plus the completed batches |
| RabitqIndex.BatchCutsDoNotMatter | rabitqcache/pyimpl/rabitq.py:153-159 | two runs that split the same keys differently hold the same lists, up to how far each has got |
| RabitqIndex.RunSizes | rabitqcache/pyimpl/rabitq.py:170-204 | how the keys were cut: the prefill's batches, then one full batch for each interval of decoded tokens |
| RabitqIndex.CutsMean | rabitqcache/pyimpl/rabitq.py:170-179 | the prefill's batches are as many full ones as fit and one with the rest |
| RabitqIndex.InitialCoherent | rabitqcache/pyimpl/rabitq.py:170-179 | the prefill loop keeps the index coherent and indexes every key from the interval on |
| RabitqIndex.CompleteCoherent | rabitqcache/pyimpl/rabitq.py:194-204 | topping up keeps the index coherent and leaves fewer keys than one interval unindexed |
| TopP.TopPMaskIsPrefix | rabitqcache/pyimpl/rabitq.py:391-405 | the token of rank i is kept if and only if i is below the length of the kept prefix |
| TopP.PrefixCountIsLargest | rabitqcache/pyimpl/rabitq.py:394-401 | the kept prefix is the longest with mass at most `top_p`, or one token if even that is too heavy |
| TopP.KeptBeatDropped | rabitqcache/pyimpl/rabitq.py:391-405 | something is kept, no kept probability is below a dropped one, and nothing beyond the probabilities is kept |
| TopP.RaisingTopPOnlyAdds | rabitqcache/pyimpl/rabitq.py:398-401 | for one sort order a larger `top_p` keeps a superset |
| TopP.KeptMassIsMaximal | rabitqcache/pyimpl/rabitq.py:391-405 | no other choice of as many distinct tokens carries more mass |
| TopP.TopPMaskKeepsLargestPrefix | rabitqcache/pyimpl/rabitq.py:391-405 | the whole mask at once: the most probable tokens, as many as the mass limit allows but at least one, and nothing else |
| RabitqSelector.MiddleIsTopPChoice | rabitqcache/pyimpl/rabitq.py:381-405 | the middle mask keeps the largest affordable prefix of the sorted softmax of the estimates over `sqrt(head_dim)` |
| RabitqSelector.SelectedMaskMeans | rabitqcache/pyimpl/rabitq.py:360-410 | whatever the state, sink and tail are selected, the middle is that choice over the estimates read, and there is no mask exactly where estimates are missing for a nonempty middle |
| RabitqSelector.FillMask | rabitqcache/pyimpl/rabitq.py:360-410 | the slice assignments produce that mask, and fail exactly where estimates are missing for a nonempty middle |
| RabitqSelector.Select | rabitqcache/pyimpl/rabitq.py:343-410 | an untrained layer selects everything; otherwise the index is topped up, unless the sequence is short, and the mask selects sink and tail and the top-p choice in between |
| RabitqRuns.SelectorSafety | rabitqcache/pyimpl/rabitq.py:360-410 | on every reachable decode step estimates are never missing; sink and tail are fully selected, the tail length is the decoded count modulo the interval, and the middle is the largest affordable prefix of its own keys' sorted softmax scores; a short prompt keeps the full mask |
| RabitqRuns.GoodMaskKeepsBest | rabitqcache/pyimpl/rabitq.py:384-408 | some middle token is kept and none is dropped in favour of a lower estimate |
| RabitqRuns.KeptScoreGuarantee | rabitqcache/pyimpl/rabitq.py:381-408 | a dropped middle token's true score exceeds a kept one's by at most the two stored error radii |
| RabitqRuns.MiddleJudgedBy | rabitqcache/pyimpl/rabitq.py:372-408 | which key's estimate decides each middle token, and that it is its own for all of them if and only if index and selector start at the same token |
| RabitqRuns.NarrowSelectorDropsTokens | rabitqcache/pyimpl/attention.py:322-324 | a selector interval below the state's leaves the newest quantised tokens unselected, as many as the difference, whatever the scores |
| RabitqRuns.ResetShiftsJudgement | rabitqcache/pyimpl/rabitq.py:284-293 | after a reset and a short prompt each middle token is judged by the key one interval earlier, otherwise by its own; a middle is reached exactly after a long prompt, or after a reset once two intervals of keys are there |
| RabitqAttention.TrainedHeadQuantizes | rabitqcache/pyimpl/rabitq.py:61-96 | the head trained on a prompt, with centroids or without, is valid and can quantise every key of it |
| RabitqAttention.AttentionLayer.Prefill | rabitqcache/pyimpl/attention.py:317-343 | a prompt of more than one token is cached, trains the head of either variant (centred on the prompt, or with zero centroids), and starts the run the index lemmas describe; the other layers of the shared state keep training and index |
| RabitqAttention.AttentionLayer.Decode | rabitqcache/pyimpl/attention.py:290-453 | a decode step appends its key, keeps the run invariant, returns a mask with all the guarantees of a reachable step (a full one below the start layer, whose index stays as prefilled), and leaves the other layers of the shared state alone |
| RabitqAttention.NextStep | rabitqcache/pyimpl/rabitq.py:360-410 | one more key leads the run's index to the selector's, and the selector's mask is there and good |
| RabitqAttention.DecoderModel.Step | rabitqcache/pyimpl/attention.py:290-453 | one layer's decode step keeps every layer of the model running and every other layer's latest mask good, in whatever order layers take turns |
| RabitqAttention.DecoderModel.Prefill | rabitqcache/pyimpl/attention.py:317-343 | after a prompt has passed through them all layers run on the one state, each on its own prompt |
| RabitqAttention.DecoderModel.DecodeToken | rabitqcache/pyimpl/attention.py:290-453 | one token through all layers gives each layer a mask with all the guarantees of a reachable step |
| NinjaSweep.Conservation | RabitQCache-Efficiency/vllm/tools/report_build_time_ninja.py:237-254 | the weighted durations add up to the covered time; a stretch between event times counts as covered exactly if some task runs at any moment of it, and no task runs outside the stretches |
| NinjaSweep.TotalAgainstLength | RabitQCache-Efficiency/vllm/tools/report_build_time_ninja.py:208-222 | that total is at most latest minus earliest, with equality if and only if some task runs at every moment in between |
| NinjaSweep.CpuTimeIsParallelTime | RabitQCache-Efficiency/vllm/tools/report_build_time_ninja.py:208-218 | the total processor time is the covered time with each stretch counted once per task that covers it |
| NinjaSweep.WeightedDurationBounds | RabitQCache-Efficiency/vllm/tools/report_build_time_ninja.py:74-89 | each weighted duration lies between the duration over the number of tasks and the duration |
| NinjaSweep.StopFindsItsTask | RabitQCache-Efficiency/vllm/tools/report_build_time_ninja.py:222-253 | a stop event always finds its task in the running map and a start event never does |
| NinjaSweep.NothingLeftRunning | RabitQCache-Efficiency/vllm/tools/report_build_time_ninja.py:255 | the running map is empty at the end |
| NinjaSweep.RunningIsCovering | RabitQCache-Efficiency/vllm/tools/report_build_time_ninja.py:237-254 | between two event times the running map holds exactly the tasks whose intervals cover the stretch |
| NinjaSweep.SortGivesSchedule | RabitQCache-Efficiency/vllm/tools/report_build_time_ninja.py:211-223 | sorting by time and then kind gives each task's start and stop once, in order |
| NinjaSweep.SweepOrderIsStable | RabitQCache-Efficiency/vllm/tools/report_build_time_ninja.py:222-223 | simultaneous events of one kind are swept in the order of the entries |
| NinjaSweep.CollectEvents | RabitQCache-Efficiency/vllm/tools/report_build_time_ninja.py:208-218 | the first loop collects both events of every target, the true earliest and latest times and the total duration |
| NinjaSweep.Sweep | RabitQCache-Efficiency/vllm/tools/report_build_time_ninja.py:229-255 | the imperative sweep gives every target its equal share of each stretch it covers, and empties its map |
| NinjaSweep.SummarizeEntries | RabitQCache-Efficiency/vllm/tools/report_build_time_ninja.py:206-270 | the whole computation: shares, their total, its relation to the build length, and the bounds with which every target passes the assertion of `WeightedDuration` |
| Quest.EstimateDominates | rabitqcache/pyimpl/quest.py:37-84 | each chunk's estimate is at least the true score of every real token in it |
| Quest.EstimateIsAttained | rabitqcache/pyimpl/quest.py:48-84 | the estimate is the score of a vector whose coordinates all come from real tokens of the chunk, despite padding |
| Quest.HighScoresAreSelected | rabitqcache/pyimpl/quest.py:97-121 | a token scoring above some chosen chunk's estimate is selected |
| Quest.SelectedCount | rabitqcache/pyimpl/quest.py:97-121 | k chosen chunks of size c select between `(k-1)c + 1` and `kc` real tokens |
| Quest.RateSetsBudget | rabitqcache/pyimpl/quest.py:44-46 | a rate other than -1 replaces the budget by that share of the sequence, truncated toward zero; a rate of one covers the sequence |
| Quest.BudgetIsCovered | rabitqcache/pyimpl/quest.py:93-95 | the exact chunk budget: enough chunks from one chunk on, two below that, one for zero, one or two for a negative budget |
| Quest.SelectedWithinBudget | rabitqcache/pyimpl/quest.py:93-121 | the mask misses the budget by less than a chunk below, and exceeds it by less than one, or two for a budget below one chunk |
| Quest.FullBudgetSelectsAll | rabitqcache/pyimpl/quest.py:44-121 | a budget of at least the sequence length, given as such or as a rate, selects every token |
| Quest.MaskMeans | rabitqcache/pyimpl/quest.py:103-121 | after expansion, scatter and truncation a token is selected if and only if its chunk was chosen |
| Scheduler.RunIsSafe | benchmark/run.py:125-181 | over every run launched plus pending is the config list in order, the launched jobs are the running and the finished ones by config and GPU, the limit holds, and when the loop leaves the finished jobs are exactly the launched ones |
| Scheduler.StepMeans | benchmark/run.py:129-172 | one poll in full: as many of the oldest configs as limit, supply and reserve allow start on the first idle GPUs, and the jobs of exited processes, and no others, move from running to finished |
| Scheduler.StepIsSafe | benchmark/run.py:129-172 | every poll keeps that invariant and lowers the measure by one for each launch and each finish |
| Scheduler.RunFinishes | benchmark/run.py:129-181 | if every poll shows a free GPU and every process exits, one poll per config starts and finishes every job |
| Scheduler.UsefulRunEnds | benchmark/run.py:129-181 | whatever the environment: if in every poll a process has exited or a job can start, two polls per config end the loop with every job finished |
| Scheduler.PollRespectsGpus | benchmark/run.py:136-156 | a busy GPU gets no second job, two or more idle GPUs leave one free when one is to be reserved, and jobs wait only at the limit or for lack of GPUs |
| Scheduler.IdleIsFree | benchmark/run.py:77-83 | the idle list holds exactly the free GPUs under both thresholds, each once |
| Scheduler.IdleInTableOrder | benchmark/run.py:77-83 | the idle list keeps the order of the GPU table |
| Scheduler.JobScheduler.PollOnce | benchmark/run.py:129-172 | the loop body, equal to one step of the state machine; popping the first idle GPU never fails and no exited GPU stays in the running map |
| Scheduler.JobScheduler.ScheduleRuns | benchmark/run.py:125-181 | the loop over any finite run of polls, equal to the run of the state machine |
| StreamMerge.StreamIsGrouping | RabitQCache-Efficiency/vllm/vllm/outputs.py:143-172 | merging a stream groups all arrivals by index in order of first arrival, `finished` is the disjunction and the last transfer parameters win |
| StreamMerge.FoldIsGrouping | RabitQCache-Efficiency/vllm/vllm/outputs.py:149-172 | each index holds the in-order concatenation of its deltas with the last reasons, or its last completion without aggregation |
| StreamMerge.AssertionHoldsIff | RabitQCache-Efficiency/vllm/vllm/outputs.py:159-162 | the inner assertion holds along a stream if and only if logprobs come only for indices whose first output had a list |
| StreamMerge.LateLogprobsFail | RabitQCache-Efficiency/vllm/vllm/outputs.py:159-162 | a concrete stream that trips the assertion, and what it leaves behind |
| StreamMerge.HaltsAtFirstFailure | RabitQCache-Efficiency/vllm/vllm/outputs.py:149-162 | a failing merge stops at one completion: all before it are merged, it has grown its text and tokens only |
| StreamMerge.RequestOutput.AddCompletion | RabitQCache-Efficiency/vllm/vllm/outputs.py:150-172 | the search loop grows or replaces the first completion with the index, or takes the new one over |
| StreamMerge.RequestOutput.Add | RabitQCache-Efficiency/vllm/vllm/outputs.py:143-172 | the in-place merge equals the fold, succeeds exactly when no assertion fails, and otherwise leaves what `Halted` says |
| DataParallel.DifferencesUndoCumsum | RabitQCache-Efficiency/vllm/vllm/forward_context.py:144-149 | differencing the running sum recovers each rank's tokens |
| DataParallel.ChunksAddUp | RabitQCache-Efficiency/vllm/vllm/forward_context.py:50-62 | a rank's chunk sizes add up to its tokens, and every later chunk has size one |
| DataParallel.SizeInChunk | RabitQCache-Efficiency/vllm/vllm/forward_context.py:58-61 | every size lies in `[1, m]`: full before the last chunk, the rest in it, one afterwards |
| DataParallel.ComputeChunkedLocalNumTokens | RabitQCache-Efficiency/vllm/vllm/forward_context.py:50-62 | the loop computes every rank's size |
| DataParallel.DPMetadata.EnterChunk | RabitQCache-Efficiency/vllm/vllm/forward_context.py:118-155 | inside the context the sizes are those of the original per-rank counts |
| SnapKv.LogitsAreCausal | rabitqcache/pyimpl/snap_kv.py:35-46 | a window query sees exactly the keys up to its own position, scored by its dot products over the square root of the head dimension |
| SnapKv.WeightsAreCausal | rabitqcache/pyimpl/snap_kv.py:35-50 | its attention goes exactly to those keys, adds up to one, and follows their scores |
| SnapKv.LaterKeysDoNotMatter | rabitqcache/pyimpl/snap_kv.py:35-50 | two prompts that agree on a query and on the keys up to its position give it the same weights |
| SnapKv.WindowMass | rabitqcache/pyimpl/snap_kv.py:48-51 | the weights of m window queries over all keys add up to m |
| SnapKv.CompressionKeepsBest | rabitqcache/pyimpl/snap_kv.py:32-80 | a long prompt keeps exactly the capacity: distinct positions, the window in order, prefix positions whose pooled attention beats every dropped one, keys paired with their values; a short one is left alone |
| SnapKv.WeightFollowsQueries | rabitqcache/pyimpl/snap_kv.py:35-51 | a prefix key that every window query scores at least as high as another gets at least as much summed attention, and more if one query scores it higher |
| SnapKv.ScoresArePositive | rabitqcache/pyimpl/snap_kv.py:48-51 | every summed attention weight of the prefix is positive |
| SnapKv.PoolingKeepsLengthIff | rabitqcache/pyimpl/snap_kv.py:52-65 | pooling yields one score per prefix position if and only if the kernel is odd |
| SnapKv.MaxPoolMeans | rabitqcache/pyimpl/snap_kv.py:59-65 | max pooling with an odd kernel takes the largest of the scores at most half a kernel away |
| SnapKv.AvgPoolMeans | rabitqcache/pyimpl/snap_kv.py:52-58 | average pooling with an odd kernel adds up the scores at most half a kernel away, missing ones as zero, and divides by the kernel |
| SnapKv.EvenKernelOverruns | rabitqcache/pyimpl/snap_kv.py:60-73 | a concrete even kernel and scores whose top-k names a position past the prefix |
| SnapKv.TopKStaysInsideIff | rabitqcache/pyimpl/snap_kv.py:52-73 | over all scores and tie-breaks the top-k names only prefix positions if and only if the kernel is odd, for both poolings and every nonzero top-k |
| SnapKv.PositiveTopKStaysInsideIff | rabitqcache/pyimpl/snap_kv.py:52-73 | over positive scores an even kernel is harmless if and only if average pooling is used, at most half a kernel of positions is picked and the prefix is longer than that half |
| Quantizers.MinMaxElement | rabitqcache/pyimpl/quantize.py:4-13 | codes stay in range and every element moves by at most half a step |
| Quantizers.ExtremesReproduced | rabitqcache/pyimpl/quantize.py:5-13 | the minimum is reproduced, and the maximum unless the range is clamped |
| Quantizers.ScaleTimesCodes | rabitqcache/pyimpl/quantize.py:8-11 | the grid's steps span the row's range, or its floor |
| Quantizers.MinMaxIdempotent | rabitqcache/pyimpl/quantize.py:4-13 | quantising twice is quantising once, the clamped scale included |
| Quantizers.SymmetricElement | rabitqcache/pyimpl/quantize.py:22-25 | the half-step bound and the code range of the symmetric quantiser |
| Quantizers.ScaleSpans | rabitqcache/pyimpl/quantize.py:22-24 | the symmetric grid spans the largest magnitude, or its floor |
| Quantizers.OneBitKeepsSigns | rabitqcache/pyimpl/quantize.py:20-21 | one bit keeps exactly the signs |
| Quantizers.RoundIsBest | rabitqcache/pyimpl/quantize.py:25 | no integer is nearer, and ties go to the even one |
| Quantizers.SymmetricIdempotent | rabitqcache/pyimpl/quantize.py:16-25 | the symmetric quantiser without smoothing is idempotent at every bit width |
| BadWords.NoBadWordsLogitsProcessor.Call | RabitQCache-Efficiency/vllm/vllm/logits_process.py:56-86 | the output at t is minus infinity when t would complete a bad word and the input logit otherwise, on the first call and every later one |
| BadWords.NoBadWordsLogitsProcessor.InitWordBias | RabitQCache-Efficiency/vllm/vllm/logits_process.py:88-119 | the cached bias marks exactly the one-token words, and a word outside the vocabulary is refused |
| BadWords.SingleOrMulti | RabitQCache-Efficiency/vllm/vllm/logits_process.py:66-82 | completing a word is being a one-token word or matching a longer word's prefix at the end of the history |
| BadWords.EndsInByPrefix | RabitQCache-Efficiency/vllm/vllm/logits_process.py:70-82 | the prefix comparison decides whether appending a token makes the history end in a word |
| ScalarTypes.IdInjectiveIff | RabitQCache-Efficiency/vllm/vllm/scalar_type.py:137-166 | identifiers agree if and only if the types agree up to the kept bits; in-range types only when equal |
| ScalarTypes.RoundTrip | RabitQCache-Efficiency/vllm/vllm/scalar_type.py:303-308 | in every registry of in-range types looking up a registered type's identifier returns the type |
| ScalarTypes.LayoutIsAgreed | RabitQCache-Efficiency/vllm/csrc/core/scalar_type.hpp:155-174 | the other language's reader, which unpacks at fixed bit positions and enumeration values, reads every in-range type back |
| ScalarTypes.ExtractField | RabitQCache-Efficiency/vllm/csrc/core/scalar_type.hpp:155-174 | reading any field of a packing at its offset gives its residue |
| ScalarTypes.LookupIsLast | RabitQCache-Efficiency/vllm/vllm/scalar_type.py:164-166 | in any registry the lookup returns the last registered type with the same kept bits, or nothing if there is none |
| ScalarTypes.BiasCanCollide | RabitQCache-Efficiency/vllm/vllm/scalar_type.py:157 | a bias of `2^32` is stored over a bias of 0 |
| ScalarTypes.ScalarTypeRegistry.Record | RabitQCache-Efficiency/vllm/vllm/scalar_type.py:143-166 | masking, shifting and or-ing field by field gives the packed identifier, below `2^58`, and records the type under it |
| ScalarTypes.ScalarTypeObject.Id | RabitQCache-Efficiency/vllm/vllm/scalar_type.py:136-166 | the cached property: the first read records the type, later reads give the same identifier and leave the registry alone |
| ScalarTypes.OrAndAdvance | RabitQCache-Efficiency/vllm/vllm/scalar_type.py:147-152 | or-ing a masked field above the bits used so far adds its residue there |
| ScalarTypes.BitwiseOr | RabitQCache-Efficiency/vllm/vllm/scalar_type.py:147-152 | or works bit by bit, negative numbers included |
| ScalarTypes.BitwiseAnd | RabitQCache-Efficiency/vllm/vllm/scalar_type.py:147-152 | masking works bit by bit, negative numbers included |
| ScalarTypes.TotalWidth | RabitQCache-Efficiency/vllm/vllm/scalar_type.py:154-162 | the six fields take 58 bits |
| ScalarTypes.MaxIsLargestFiniteIff | RabitQCache-Efficiency/vllm/vllm/scalar_type.py:72-127 | `max` is the largest finite number among the type's own bit patterns and `min` its negation, if and only if the type has mantissa bits to spare for its NaN and holds more than subnormal numbers |
| ScalarTypes.FloatMaxDecodes | RabitQCache-Efficiency/vllm/vllm/scalar_type.py:72-127 | the bit pattern of max decodes as binary64 to the top exponent and mantissa fields' value, and that of min to its negation |
| ScalarTypes.FloatMaxIff | RabitQCache-Efficiency/vllm/vllm/scalar_type.py:77-105 | the pattern is a 64-bit pattern with that value if and only if the type has mantissa bits to spare for its NaN |
| ScalarTypes.E8M0HasNoMax | RabitQCache-Efficiency/vllm/vllm/scalar_type.py:330-331 | the repository's float8_e8m0fnu has a negative pattern |

## Left out

- Floating-point rounding, dtypes and devices: the tensors are exact reals, so the bounds hold up to rounding.
- Randomness: the rotation is any orthogonal matrix, so the probabilistic unbiasedness of the estimator is not stated.
- Tensor kernels: softmax, sort and square root enter through what they promise; CUDA, Triton and C++ code is not modelled.
- Several heads and batch entries at once: one is modelled, the others being independent copies.
- A second prefill on the same state, and a key cache shortened by SnapKV while RaBitQ runs: the run functions start from a fresh or reset layer and only append.
- A prompt of one token: it takes the decode path of an untrained layer, where `Select` keeps everything.
- RabitqAttention.AttentionLayer.Decode: hands the selector the state's own interval, as every shipped configuration does; other intervals are covered by the lemmas about `MiddleJudgedBy`.
- Scheduler.JobScheduler.ScheduleRuns: runs over finitely many polls; that a run ends depends on the environment, for which `RunFinishes` and `UsefulRunEnds` say how many polls are enough.
- BadWords.NoBadWordsLogitsProcessor.Call: later calls must keep the vocabulary size of the first, and words are nonempty.
- ScalarTypes.FloatMaxDecodes: leaves out integer types and the subtraction of a bias from the result.
- The smoothing step of `max_per_token_quant_kv`, which works across tokens, and its effect on idempotence.
- Reading `.ninja_log`, grouping by extension and printing in the build-time tool.
- Gathering token counts across ranks by all-reduce.
- The other selectors and variants (streaming, oracle top-k, SparQ, double sparse, tidal decode, `rabitq_old.py`), model loading, prompts, datasets, evaluation and HTTP.
