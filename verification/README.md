# SparseEngine benchmark layer: a verified model

This project models the algorithms of SparseEngine's benchmark layer in Dafny and
proves what they promise. Each component of the repository has its own module.

- **Decode-measurement window** (`DecodeWindow`, `WindowRuns`, `WindowVerdicts`,
  `PipelinedWindow`): the state machine behind `DecodeOnlyWindow` and
  `PipelinedDecodeWindow`, driven by interleaved `submit`, `complete` and `boundary`
  calls. `DecodeWindow` holds the transition functions, `WindowRuns` what every run keeps
  and what a published result means, `WindowVerdicts` what each further call does, said in
  terms of the calls before it, `PipelinedWindow` the mutable object, proved against the
  transition functions.
- **Adapters** (`Flights`, `Driving`, `ReplayCounting`, `OverlapAdapter`,
  `BatchQueueAdapter`, `NativeLoop`): the three engine loops that drive the window, for any
  engine behaviour: whose ticket each result completes, with whose tokens, what was passed
  on to the window turn by turn, and how graph replays are counted beside it.
- **RetroInfer wave index** (`WaveAttention`, `WaveTheorems`, `WaveIndex`): index
  building, cluster ranking and one decode step, over exact reals.
- **LongBench v2** (`TokenBuckets`, `Selection`, `Preparation`): bucket parsing,
  one-pass selection, sequential and parallel preparation.
- **RULER** (`Base26`, `CommonWords`, `Needles`, `FitCount`, `ChainInsertion`).
- **Accounting** (`PassAtK`, `PhaseAccounting`, `RequestTimeline`, `WaveAdmission`,
  `ShardMerge`, `LengthJitter`).
- `Outcomes`, `Arithmetic` and `Sorting` are shared: results, small number facts, and
  stable sorting with its lemmas.

`dafny verify dfyconfig.toml` checks everything.

## Conventions

- An exception ends a run: operations return `Err`, and nothing is claimed about the
  state they leave behind. Totality guards in the transition functions for states that
  no run reaches (a pending reference outside the records, an open window without graph
  counters) return an error; the invariants show those states are unreachable.
- Clock readings, graph counters, random draws, shuffles, completion orders, tokenizers,
  digests and every engine decision are arbitrary inputs or nondeterministic choices.
  Floating-point values are reals.
- The two queueing adapters assume only the engine loop they wrap: at most one batch is
  scheduled per iteration, and results leave the queue first in, first out. The overlap
  loop runs a batch, queues its result, then processes the previous result if there was
  a previous batch. The batch-queue step pops a result whenever it schedules nothing. Both
  are set up around a window on which no call has been made yet.
- Request ids are integers; string ids differ only in the order used to sort them.

## Findings

- `CommonWords.AnswersAreMostFrequent`: the generated answers are the strictly most
  frequent words exactly when at most 26^4 are asked for, for every repetition count,
  also where the vocabulary wraps around 26^4 words.
- `Preparation.Compare`, `Preparation.Disagree`: both preparers succeed on the same inputs
  with the same list, except for an empty data set with an unusable budget, where the
  sequential one raises and the parallel one returns an empty list. With at least one row
  they raise the same error in every completion order if and only if the first
  `2 * min(workers, rows)` failing rows all fail alike; two rows that fail differently
  (say, two oversized prompts, whose errors name the rows) are enough to disagree. Those
  rows' errors are exactly the ones that completion orders can raise
  (`Preparation.CanRaiseExactly`).
- `WindowRuns.BaseWindowOpensOnlyExactly`, `WindowRuns.BaseWindowPublishesOnlyExactly`,
  `WindowRuns.BaseWindowLifecycle`: without boundary calls between observations the base
  class opens its window only if the trailing eligible run is exactly `warmup_steps` long.
  A longer run does not open it; an observation that breaks the run, followed by a run of
  exactly that length, does. Once open, it publishes only after exactly `target_steps`
  observations; one too many is never made good, since they are only ever added.
- `ShardMerge.ShardAndMerge`: merging returns the data sets one after the other exactly
  when they are in name order and each in source order; it always returns the same rows.

## Model

| member | source | states |
|---|---|---|
| WindowRuns.RunKeeps | benchmark/efficiency/metrics.py:228-305 | every exception-free run of submits, completions and boundaries keeps the window invariant, and no run ever ends in the "incomplete work" error |
| WindowRuns.ResultDescribesRun | benchmark/efficiency/metrics.py:191-305 | a published result means: the last warmup + target accepted submissions were pure decode over one fixed set of `concurrency` distinct ids, exactly the last target ones were measured, all work completed with `concurrency` decode tokens per measured step, nothing was preempted, and each request's context grew by one token per measured step |
| WindowRuns.ResultVouches | benchmark/efficiency/metrics.py:249-294 | the same promise from the invariant alone, which is what the adapters rely on |
| WindowRuns.ResultAccounts | benchmark/efficiency/metrics.py:163-185 | the run closed exactly two edges, one right before the first measured submission and one after the last; elapsed time is that between their readings and the reported counters are no captures, target steps replays and no eager decodes, per rank where the readings are; ids and start contexts are those of the first measured submission in ascending id order, tokens are concurrency times target steps, rate is tokens over a positive elapsed time, every end context is its start context plus target |
| WindowRuns.StepKeepsEdges | benchmark/efficiency/metrics.py:160-189 | every call keeps the log of closed edges in step with the window: none before the start, one while measuring, two once published, at the submissions where they fell |
| WindowRuns.GraphDeltaAccepts | benchmark/efficiency/metrics.py:215-225 | the graph check accepts exactly when every counter set replayed once per step and captured and decoded eagerly nothing |
| WindowRuns.PendingIsUncompleted | benchmark/efficiency/metrics.py:287-305 | in every run ticket t is record t, with the kind, tokens, and the ids and contexts in ascending id order of submission t; pending is exactly the uncompleted records, and each edge synchronizes once |
| WindowVerdicts.SubmitVerdict | benchmark/efficiency/metrics.py:267-294 | after any run a submission meets exactly the error that its history gives: an edge due, a preemption, missing contexts, another batch than the last one, a context that is not one token further; else it is recorded, and after a result ignored |
| WindowVerdicts.CompleteVerdict | benchmark/efficiency/metrics.py:296-305 | after any run a completion is refused exactly for a ticket never issued or completed before, or for a decode batch's wrong token count |
| WindowVerdicts.BoundaryVerdict | benchmark/efficiency/metrics.py:160-265 | after any run a boundary acts exactly when warmup_steps resident repetitions end the history or target_steps followed the first edge; it is refused while a ticket is open, opens at the first edge, and at the second publishes an accounted result unless a counter or the clock since the first forbids it |
| WindowRuns.ResultIsFrozen | benchmark/efficiency/metrics.py:161-162 | after publication no further calls change any window state |
| WindowRuns.CompletionsCommute | benchmark/efficiency/metrics.py:296-305 | completing two tickets in either order gives the same window |
| WindowRuns.DrainedIsComplete | benchmark/efficiency/metrics.py:249-258 | an empty pending set at an edge means every record is complete |
| WindowRuns.ContextsFollowRequests | benchmark/efficiency/metrics.py:280-286 | comparing context lists in sorted-pair order compares each request with itself |
| WindowRuns.BaseWindowOpensOnlyExactly | benchmark/efficiency/metrics.py:186-207 | after any observations the base boundary opens the window if and only if the trailing eligible run is exactly warmup_steps long |
| WindowRuns.BaseWindowPublishesOnlyExactly | benchmark/efficiency/metrics.py:160-207 | from a started base window a boundary after any accepted observations publishes if and only if they make up target_steps exactly, every counter set replayed once per step and time has passed |
| WindowRuns.BaseWindowLifecycle | benchmark/efficiency/metrics.py:160-207 | from a new window, after any observations that end in a run of warmup_steps, a boundary opens the window, and after any more observations the next boundary publishes if and only if these repeat the opening batch target_steps times, every counter set replayed once per step and time has passed; the published ids, tokens, times, rate and counters follow from the readings and that batch |
| WindowRuns.BaseCountsSteps | benchmark/efficiency/metrics.py:191-207 | a started base window accepts exactly the observations of its own batch and counts them |
| PipelinedWindow.PipelinedDecodeWindow.Make | benchmark/efficiency/metrics.py:143-158 | construction succeeds exactly for positive settings and gives the initial window |
| PipelinedWindow.PipelinedDecodeWindow.ObserveStep | benchmark/efficiency/metrics.py:191-207 | the in-place observe is the transition function Observe |
| PipelinedWindow.PipelinedDecodeWindow.Submit | benchmark/efficiency/metrics.py:267-294 | the submit method is the transition SubmitStep, with its errors, and extends the recorded run by this call |
| PipelinedWindow.PipelinedDecodeWindow.Complete | benchmark/efficiency/metrics.py:296-305 | the in-place complete is the transition CompleteStep, with its errors, and extends the recorded run by this call |
| PipelinedWindow.PipelinedDecodeWindow.BaseEdge | benchmark/efficiency/metrics.py:160-189 | the in-place base boundary is the transition BaseBoundary |
| PipelinedWindow.PipelinedDecodeWindow.Boundary | benchmark/efficiency/metrics.py:249-265 | the boundary method is the transition BoundaryStep, records the edge and its readings exactly when one was due, leaves no edge due, and never finds incomplete work |
| PipelinedWindow.LoggedResult | benchmark/efficiency/metrics.py:249-305 | a result that stands in the object vouches for, and accounts for, the calls that were made on it |
| Flights.Launch | benchmark/hisparse_microbench.py:163-171 | queueing one more result keeps tickets, pending work and queued results in one-to-one correspondence |
| Flights.Land | benchmark/hisparse_microbench.py:173-179 | processing one result keeps that correspondence |
| Flights.Drained | benchmark/hisparse_microbench.py:139-143 | an empty result queue means an empty pending set |
| Flights.TallyLaunch | benchmark/hisparse_microbench.py:163-171 | the ticket stored under a new result is the one the window issued for that result's own batch, and stays so for every result in flight |
| Flights.TallyLand | benchmark/hisparse_microbench.py:173-179 | processing a result whose batch produced its tokens leaves every finished decode batch with the tokens submitted for it |
| Flights.FlightOutcome | benchmark/hisparse_microbench.py:173-179 | the window refuses the completion of a result if and only if its own batch decodes and another count than that batch's tokens is reported |
| Flights.ResultProduced | benchmark/efficiency/metrics.py:249-305 | behind every measured submission of a published result is a decode batch that produced exactly `concurrency` tokens |
| ReplayCounting.SubmitAgrees | benchmark/hisparse_microbench.py:163-169 | while measuring, the counters are those read at the first edge plus the captures, the eager decodes and one replay for every other step since |
| ReplayCounting.EdgeAgrees | benchmark/hisparse_microbench.py:98-148 | at the second edge the graph-contract error is raised if and only if something was captured or decoded eagerly since the first, or another rank did not replay once per step |
| Driving.FollowNext | benchmark/hisparse_microbench.py:129-187 | turn after turn: what was submitted is what was offered, up to the turn that closed the last edge, and every edge carries some turn's readings |
| OverlapAdapter.Adapter.NextBatch | benchmark/hisparse_microbench.py:98-148 | a due edge is closed after draining every queued result, with the counters of this rank and this turn's other readings; the graph-contract error is raised only for a capture, an eager decode or a deviating rank, and never without them; no protocol fault is possible |
| OverlapAdapter.Adapter.RunBatch | benchmark/hisparse_microbench.py:150-171 | running a batch submits that batch's own requests, contexts and tokens unless a result stands, keeps the ticket issued for it under its result, counts one replay or one eager decode for a decode batch, and cannot cross an edge |
| OverlapAdapter.Adapter.ProcessResult | benchmark/hisparse_microbench.py:173-179 | processing completes the popped result's own ticket with what its own batch produced, and fails if and only if it has a ticket and that decode batch did not produce one token per request |
| OverlapAdapter.Adapter.Serve | benchmark/hisparse_microbench.py:129-187 | for any number of iterations and any engine behaviour: the batches run are submitted in order up to the turn whose readings close the last edge; a standing result vouches for exactly those, accounts for those readings, and the measured batches themselves decoded and produced one token for each of the same `concurrency` requests, each time one token further; no undrained edge, crossed edge, unknown ticket or empty pop; the run ends early only for a cause that a turn gave or for a decode batch that miscounted, and never for its counters if nothing is captured and every decode batch replays its graph on one rank |
| BatchQueueAdapter.Adapter.Schedule | benchmark/vllm_microbench.py:104-120 | scheduling submits the plan's own requests, tokens and resulting contexts unless a result stands, keeps the ticket issued for it under its output, keeps the peak, and cannot cross an edge |
| BatchQueueAdapter.Adapter.Update | benchmark/vllm_microbench.py:122-130 | updating completes the popped output's own ticket with its own sampled tokens, and fails if and only if a submitted decode plan did not sample one token per scheduled token |
| BatchQueueAdapter.Adapter.Iterate | benchmark/vllm_microbench.py:134-141 | while an edge is due with results in flight, an iteration shortens the queue by one and submits nothing; otherwise it closes a due edge with this turn's readings and submits this turn's plan |
| BatchQueueAdapter.Adapter.Measure | benchmark/vllm_microbench.py:136-151 | for any engine behaviour: every turn's plan is submitted in order unless the turn drains at an edge; a reported result needs a drained queue and that the largest decoding plan scheduled had `concurrency` requests, vouches for exactly the submitted plans, accounts for the readings at the edges, and the measured plans themselves sampled one token for each of the same `concurrency` requests, each time one token further; no protocol fault, and failure only for a cause that a turn gave, a decode plan that miscounted, or missing residency or result |
| BatchQueueAdapter.PeakIsGreatest | benchmark/vllm_microbench.py:113-114 | the peak is the size of the largest decoding plan scheduled, or what it was before |
| NativeLoop.Measure | benchmark/microbench.py:688-785 | the steps are submitted, with their own requests, contexts and counts, in order up to the readings that close the last edge; a reported result vouches for exactly those steps, every measured one of which published `concurrency` tokens, and accounts for those readings; no protocol fault; a token mismatch is the mismatch of some decode step's own published count, any other failure has its own cause |
| NativeLoop.Iterate | benchmark/microbench.py:703-770 | one turn makes exactly three calls: boundary, submit and complete, with this step's own readings, the ticket just issued (none once a result stands) and its own published count |
| WaveTheorems.WaveIsDense | benchmark/retroinfer/reference.py:133-160 | wave attention equals softmax attention over all steady and indexed tokens when every occupied cluster is read and each estimated cluster holds copies of one key |
| WaveTheorems.WaveAttendsMeans | benchmark/retroinfer/reference.py:137-159 | for any zones: the output is softmax attention over the steady tokens and the tokens of the clusters read, with each key of an estimated cluster replaced by the mean of that cluster's keys and every value kept; without such a token there is no output |
| WaveTheorems.DenseIsAttention | benchmark/retroinfer/reference.py:144-159 | softmax attention mixes the values with positive weights that sum to one and stand in the ratio of the exponentials of the scaled inner products |
| WaveIndex.SufficientBudgetIsDense | benchmark/retroinfer/reference.py:124-160 | with retrieval plus estimation at least the number of nonempty clusters, a decode step from any descending ranking is full softmax attention, given that estimated clusters are uniform |
| WaveIndex.SufficientBudgetAttendsAll | benchmark/retroinfer/reference.py:124-160 | with retrieval plus estimation at least the number of nonempty clusters, a decode step from any descending ranking is softmax attention over every token, with the keys of estimated clusters replaced by their mean |
| WaveIndex.BudgetCovers | benchmark/retroinfer/reference.py:127-136 | the first k ranked clusters contain every nonempty cluster if and only if there are at most k of them |
| WaveIndex.PositiveScores | benchmark/retroinfer/reference.py:127-131 | a cluster's ranking score is positive exactly when it is nonempty |
| WaveIndex.ScoresAddUp | benchmark/retroinfer/reference.py:127-131 | one more query adds to every cluster's score its softmax weight: zero for empty clusters, for the others positive, summing to one and in the ratio of the exponentials of the scaled inner products |
| WaveIndex.RanksClosestFirst | benchmark/retroinfer/reference.py:127-132 | with one query, of two nonempty clusters the one whose centroid has the greater affinity scores higher |
| WaveTheorems.WaveStaysWithin | benchmark/retroinfer/reference.py:144-160 | every output component lies between the least and greatest value component in the zones read |
| WaveTheorems.UniformCentroid | benchmark/retroinfer/reference.py:83-84 | the centroid of a cluster of identical keys is that key |
| WaveTheorems.ZoneTotal | benchmark/retroinfer/reference.py:137-159 | token totals regroup into steady, retrieved and estimated zones |
| WaveAttention.DenominatorPositive | benchmark/retroinfer/reference.py:152-157 | with at least one entry read the denominator is positive |
| WaveIndex.ScatterAdd | benchmark/retroinfer/reference.py:77-80 | slot c of the in-place scatter is the sum of the rows assigned to c |
| WaveIndex.ScatterCount | benchmark/retroinfer/reference.py:81-82 | slot c counts the tokens assigned to c |
| WaveIndex.Collect | benchmark/retroinfer/reference.py:75-85 | for any assignment: sizes and value sums per cluster, and nonempty centroids are means of the original keys |
| WaveIndex.Build | benchmark/retroinfer/reference.py:35-85 | accepts exactly the valid shapes and counts; the index is of the given keys and values, each token sits in the cluster whose trained centroid matches it best, an empty cluster gets the mean of all keys, and the trained centroids are those of exactly `iterations - 1` rounds on the centered keys |
| WaveIndex.Train | benchmark/retroinfer/reference.py:48-73 | every segment of the centroids is what `iterations - 1` rounds make of that segment's own seeds and tokens alone |
| WaveIndex.TrainSegment | benchmark/retroinfer/reference.py:58-73 | one round by scatter-add: a cluster with best-matching tokens becomes their normalized mean, an empty one keeps its centroid |
| WaveIndex.CentroidHistory | benchmark/retroinfer/reference.py:58-73 | after any number of rounds a centroid is the normalized mean learned in its last nonempty round, or its seed if no token ever matched it |
| WaveIndex.TrainedCentroid | benchmark/retroinfer/reference.py:52-73 | training is determined cluster by cluster: cluster c is entry c mod width of segment c div width after that segment's own rounds |
| WaveIndex.SeedsIncrease | benchmark/retroinfer/reference.py:49-51 | the seed tokens exist and are all different |
| WaveIndex.SeedIsMiddle | benchmark/retroinfer/reference.py:49-51 | the seed of cluster c is the integer part of (c + 0.5) times tokens over clusters |
| WaveIndex.Center | benchmark/retroinfer/reference.py:48 | centering moves all keys alike so that every component sums to zero |
| WaveIndex.CenteringCancels | benchmark/retroinfer/reference.py:47-84 | subtracting the mean key shifts a cluster sum by the mean once per member |
| WaveIndex.IndexConserves | benchmark/retroinfer/reference.py:79-82 | sizes sum to the token count and value sums to the total value |
| TokenBuckets.Parse | benchmark/long_bench_v2/contracts.py:44-90 | accepts exactly the nonempty lists of items with a name, positive numbers in order, different names and disjoint ranges, and returns their fields; otherwise names what is wrong with the first item at fault |
| TokenBuckets.OneBucket | benchmark/long_bench_v2/contracts.py:40-87 | a length lies in at most one accepted bucket |
| Selection.Select | benchmark/long_bench_v2/contracts.py:192-244 | per bucket, exactly the first `samples` of the rows whose prompt length fits it, by digest, then id, then position, each with its own prompt and digest, numbered through; fails exactly at the first bucket with too few fitting rows, with their number |
| Selection.StreamingStep | benchmark/long_bench_v2/contracts.py:213-230 | append, sort, drop the last equals sort everything and take k |
| Selection.KeptIsFirst | benchmark/long_bench_v2/contracts.py:213-243 | what a filled bucket keeps is exactly the first of its fitting rows in that order |
| Selection.SelectionIgnoresOrder | benchmark/long_bench_v2/contracts.py:221-243 | the selected (digest, id) sequence and the failing buckets do not depend on the row order |
| Selection.FallsIsContains | benchmark/long_bench_v2/contracts.py:206-211 | with accepted buckets the first matching bucket is the only one |
| Preparation.Prepare | benchmark/long_bench_v2/contracts.py:247-288 | prepares every row in order, or stops at the first failing row |
| Preparation.PrepareRow | benchmark/long_bench_v2/contracts.py:255-288 | the result is the chat form of the rendered text or, where its tokens exceed the budget, of the text decoded from the first n/2 and the last n - n/2 of them, with the original length and whether it was cut; refused exactly if unrenderable, empty or too long |
| Preparation.MiddleKeepsExactly | benchmark/long_bench_v2/contracts.py:265-268 | middle truncation keeps exactly the budget: the first n/2 tokens and the last n - n/2 |
| Preparation.Settle | benchmark/long_bench_v2/preparation.py:79-87 | one finished future raises its own row's error, one of the first 2 x workers failures, or fills its slot and submits the next index once |
| Preparation.PrepareParallel | benchmark/long_bench_v2/preparation.py:51-92 | for every completion order: the sequential list, no empty slot, termination; a failure is the one that this order raises, and one of the first 2 x workers failing rows |
| Preparation.PoolAlong | benchmark/long_bench_v2/preparation.py:58-87 | after any order of completions: exactly the first indices were submitted, in order and once each, those that did not finish are pending, and never more than 2 x workers are |
| Preparation.Compare | benchmark/long_bench_v2/preparation.py:56-92 | both preparers succeed alike if and only if there is a row or the budget is usable, with the same list; with a row they also fail alike if all failures that the pool can raise are the same |
| Preparation.Disagree | benchmark/long_bench_v2/preparation.py:76-91 | unless all those failures are alike, some order of completion raises an error other than the sequential one |
| Preparation.RaceTo | benchmark/long_bench_v2/preparation.py:76-91 | each of the first 2 x workers failing rows is the one raised in an order of completion before whose end only successes finish |
| Preparation.CanRaiseExactly | benchmark/long_bench_v2/preparation.py:56-91 | the errors that some order of completion raises are exactly those of the first 2 x workers failing rows |
| PassAtK.EstimateIsHitRate | benchmark/scbench/repo_qa_utils.py:98-104 | the product form is 1 - C(n-c,k)/C(n,k) and is the fraction of k-subsets that contain a correct sample |
| PassAtK.EstimateIsMonotone | benchmark/scbench/repo_qa_utils.py:98-104 | the estimate lies in [0,1] and never falls when one more sample is correct |
| PassAtK.EstimateSaturates | benchmark/scbench/repo_qa_utils.py:102-104 | the estimate is one exactly when fewer samples are wrong than are drawn |
| PassAtK.ProductIsRatio | benchmark/scbench/repo_qa_utils.py:104 | the product telescopes to a ratio of binomials |
| PassAtK.ChooseCountsSubsets | benchmark/scbench/repo_qa_utils.py:100 | the binomial used counts the k-element subsets |
| Base26.Encode | benchmark/ruler_vt/tasks.py:153-158 | the digit loop yields the fixed-width digits, most significant first; read as letters from a on they spell the number modulo 26^width |
| Base26.DigitsDetermine | benchmark/ruler_vt/tasks.py:153-158 | two numbers share a word if and only if they agree modulo 26^width |
| Base26.WordsRepeat | benchmark/ruler_vt/tasks.py:161-162 | words are injective up to 26^4 and repeat with that period |
| Base26.WordSpells | benchmark/ruler_vt/tasks.py:161-162 | a word is the prefix and four letters that spell its index modulo 26^4 |
| CommonWords.AnswersAreMostFrequent | benchmark/ruler_vt/tasks.py:275-293 | for every count, offset and shuffle the answers are the strictly most frequent words if and only if at most 26^4 are asked for |
| CommonWords.AnswersOccur | benchmark/ruler_vt/tasks.py:279-281 | every answer occurs at least as often as common words are repeated |
| CommonWords.Generate | benchmark/ruler_vt/tasks.py:266-293 | of consecutive vocabulary words the first are the answers and occur the common number of times each, the others as configured, in any order; each answer occurs at least that often, and they are the strictly most frequent words if and only if at most 26^4 are asked for |
| CommonWords.ResiduesBalanced | benchmark/ruler_vt/tasks.py:276-281 | in a contiguous vocabulary range any two words repeat equally often within one |
| Needles.DistractorKey | benchmark/ruler_vt/tasks.py:230-236 | the collision loop ends after at most one step with a key other than the query |
| Needles.DistractorValue | benchmark/ruler_vt/tasks.py:237-239 | the rejection loop ends with the first draw that differs from the answer |
| Needles.Haystack | benchmark/ruler_vt/tasks.py:227-248 | in the generated text the query word and the answer number each occur at one position only, inside the needle sentence; without the needle, sentence i has its drawn key, stepped past the query, and the next drawn number that is not the answer |
| Needles.WordOccurs | benchmark/ruler_vt/tasks.py:240-247 | a word occurs in the text exactly where a sentence has it as its key |
| Needles.NumberOccurs | benchmark/ruler_vt/tasks.py:240-247 | a seven-digit number occurs in the text exactly where a sentence has it as its value |
| FitCount.Bracket | benchmark/ruler_vt/tasks.py:192-198 | doubling ends at the last power of two up to which every power fits, and its double |
| FitCount.Fit | benchmark/ruler_vt/tasks.py:173-211 | returns the payload and own length of a fitting count whose successor does not fit, between those two powers of two; with monotone lengths the largest fitting count; fails exactly when one repetition does not fit |
| ChainInsertion.InsertChain | benchmark/ruler_vt/pred.py:135-137 | hop h lands at p_h + h, the old sentences stand in order at all other indices, and nothing else is added |
| ChainInsertion.InsertChains | benchmark/ruler_vt/pred.py:133-137 | every chain in turn is inserted at its own drawn positions into what the chains before it left; chains and noise stay in order, nothing is lost or added; fails exactly at the first chain with too few sentences |
| PhaseAccounting.Account | benchmark/efficiency/metrics.py:556-588 | the reported durations are, per phase and in order, those of the maximal runs of the phased steps, each step lasting since the one before it; switches are the runs minus one; rejects exactly decreasing times |
| PhaseAccounting.RunsSnoc | benchmark/efficiency/metrics.py:574-579 | one more phased step extends the last maximal run or opens a new one |
| PhaseAccounting.AccountingIsComplete | benchmark/efficiency/metrics.py:566-588 | run durations and unphased time sum to the last elapsed time, and the two phases' run counts differ by at most one |
| RequestTimeline.Measure | benchmark/efficiency/metrics.py:361-427 | accepts exactly the sound timelines and reports per request in id order its waiting, total and per-token times, the longest wait and the decode window; otherwise blames the coverage or the first request in id order that is at fault |
| RequestTimeline.BatchThroughputBound | benchmark/efficiency/metrics.py:385-427 | remaining tokens over the decode window never exceed the sum of 1000/TPOT over multi-token requests |
| RequestTimeline.ReportedRateIsBounded | benchmark/efficiency/metrics.py:449-492 | the event report built from a sound timeline never lacks decode time; its batch rate exists exactly if some request has more than one token, is the remaining tokens over the window, and obeys that bound |
| RequestTimeline.EventRateExactly | benchmark/efficiency/metrics.py:449-492 | the rate exists exactly for positive inputs, enough tokens and, where tokens remain, a decode window, and is the remaining tokens over it |
| RequestTimeline.WindowContainsRequest | benchmark/efficiency/metrics.py:423-425 | the decode window is at least every request's own decode duration |
| RequestTimeline.LatencySplits | benchmark/efficiency/metrics.py:92-100 | latency is time to first token plus time per output token times the remaining tokens |
| WaveAdmission.AdmitWave | benchmark/efficiency/bench_probe.py:854-878 | admits the next width requests in trace order, each once, logging how many had published; a duplicate error names the first repeated id |
| WaveAdmission.Iterate | benchmark/efficiency/bench_probe.py:881-910 | one step absorbs the outputs and opens the next wave exactly when the current one has published; it keeps: all earlier waves have published, and while requests remain the current wave has not |
| WaveAdmission.Run | benchmark/efficiency/bench_probe.py:842-912 | who has published and who is live is read off the outputs since each admission; each request was admitted only after every request of earlier waves was named with tokens; outputs are consumed until nothing is live; then the whole trace was admitted or an admitted request never published, which is impossible if finished requests carry tokens |
| ShardMerge.ShardsPartition | benchmark/long_bench/pred.py:887 | for any worker count the strided shards together are the data |
| ShardMerge.StrideAt | benchmark/long_bench/pred.py:887 | element i of shard k is element k + i * workers of the data, up to its end |
| ShardMerge.OutputsPartition | benchmark/long_bench/pred.py:816-887 | for any worker count the workers' outputs over several data sets together are the data |
| ShardMerge.Merge | benchmark/long_bench/pred.py:314-361 | accepts exactly unique (data set, source index) identities and returns the rows by data set name, then ascending source index; otherwise names the first repeated identity |
| ShardMerge.MergeSorts | benchmark/long_bench/pred.py:314-361 | merging the workers' outputs gives the data in name and source order for any worker count and data sets, and the duplicate error never fires on unique identities |
| ShardMerge.ShardAndMerge | benchmark/long_bench/pred.py:314-361 | shard then merge keeps every row once, returns name and ascending source order, and is the identity if and only if the data is in that order |
| LengthJitter.Jitter | benchmark/efficiency/workload.py:102-139 | lengths lie between the target and the length below it by the fraction to the nearest integer, ties to even, and by at least one; any two of them occur equally often within one, two different ones are there before the repair, so it never fires, and exact failure conditions |
| LengthJitter.NothingToRepair | benchmark/efficiency/workload.py:130-137 | two different lengths always survive the truncation |
| LengthJitter.CutIsBalanced | benchmark/efficiency/workload.py:130-135 | cutting the last shuffled cycle short leaves the counts balanced within one |

## Left out

- SGLang, vLLM and native engine internals beyond the loops stated under Conventions; collective barriers and gathers.
- Graph counters of the vLLM workers, of the native engine and of other SGLang ranks enter as arbitrary readings; the overlap adapter is that of rank 0, and its own counters are counted.
- BatchQueueAdapter.Adapter.Measure: the final count and status of the finished outputs, and the mapping from engine request ids to trace positions.
- WaveIndex.Build: normalization is any function that keeps dimensions, and ties between equally good centroids are broken by position.
- WaveAttention: several KV heads are independent copies of the one modelled; the scale is any real, and casts between dtypes are not modelled.
- Selection.Select: token counts, prompts and digests come from arbitrary functions; it asks for buckets as the parser accepts them, since dictionaries are keyed by bucket name.
- Preparation.PrepareParallel: process start-up, progress bars and the cancelling of queued futures after a failure.
- Needles.Haystack: the single-needle noise task and the frequent-words task are not modelled; the draw stream is taken not to repeat the answer forever.
- FitCount.Fit: takes for granted that long enough payloads stop fitting; otherwise the doubling loop does not end.
- ChainInsertion.InsertChains: generation of chain names and values, the noise-count search and the in-context example; the heap-based interleaving of chains has no caller.
- PhaseAccounting.Account: decision counts, batch sizes, wait lists and the distribution summaries.
- RequestTimeline.Measure: percentile summaries and the pooled request report.
- WaveAdmission.Run: peak counters, prefix-cache hits and profiling; a run whose engine outputs end while requests are live is reported as it stands.
- ShardMerge.Merge: file reading, rows without an integer source index, and atomic writes.
- LengthJitter.Jitter: prompt token drawing and digests of the request trace.
- The staged admission of benchmark/microbench.py around the window, scoring, plotting, argument parsing, configuration validation, hardware sampling and FLOP formulas.
